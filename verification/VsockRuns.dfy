/** The vsock device over whole runs: streams come and go, receive buffers run out
    and return, the guest acknowledges what it has taken
    (emulator/plugin/vsock_goldfish/vsock.cpp). */
module VsockRuns {
  import opened Arithmetic
  import opened Bytes
  import opened PortIds
  import opened VsockStream
  import opened VsockPass

  /** What happens to the device. `taken` is the number of bytes of the stream that
      the guest has taken so far, `accept` the answer of the listener, `sizes` the
      pieces of a data packet and `accepted` how many of them the plug accepts. */
  datatype Event =
    | Connect(guest: u32)
    | Listen(host: u32)
    | SendAsync(guest: u32, host: u32, data: seq<byte>)
    | Unplug(guest: u32, host: u32)
    | Control(hdr: Header, taken: nat, accept: bool)
    | Data(hdr: Header, taken: nat, sizes: seq<nat>, accepted: nat)
    | AddRx(size: nat)
    | Poll

  // --------------------------------------------------------------------- steps

  function Queue(d: Dev, hdr: Header): Dev {
    d.(orphans := d.orphans + [hdr], queued := d.queued + [hdr])
  }

  /** The answer to a packet without a stream. */
  function Reset(hdr: Header): Header {
    Header(hdr.dst, hdr.src, Rst, HOST_BUF, 0)
  }

  /** recycleStreamLocked and erase; `op` is the orphan packet to send, if any. */
  function Recycle(d: Dev, k: nat, op: Op): Dev
    requires k < |d.streams|
  {
    var s := d.streams[k];
    var d1 := if IsOrphan(op) then Queue(d, HeaderOf(s, op)) else d;
    d1.(ids := PutBack(d.ids, s.host), streams := Erase(d.streams, k))
  }

  function Replace(d: Dev, k: nat, s: Stream): Dev
    requires k < |d.streams|
  {
    d.(streams := d.streams[k := s])
  }

  /** connect. */
  ghost function Connected(d: Dev, guest: u32): Dev {
    var (ids1, id) := Get(d.ids);
    ConnectedAt(d, guest, ids1, PortOf(id))
  }

  function PortOf(id: nat): u32 {
    (id + DYNAMIC) % 0x1_0000_0000
  }

  function ConnectedAt(d: Dev, guest: u32, ids1: Ids, host: u32): Dev {
    d.(ids := ids1, streams := Insert(d.streams, Ask(NewStream(guest, host, |d.wire|), Request)))
  }

  /** processPacketOpRequestLocked, and the reset when it fails. */
  function Requested(d: Dev, hdr: Header, taken: nat, accept: bool): Dev {
    if hdr.dst !in d.listeners then Queue(d, Reset(hdr))
    else if Find(d.streams, hdr.src, hdr.dst) < |d.streams| then d
    else if !accept then Queue(d, Reset(hdr))
    else
      var s := Update(NewStream(hdr.src, hdr.dst, |d.wire|), hdr, taken).(connected := true);
      d.(streams := Insert(d.streams, Ask(s, Response)))
  }

  /** What a stream does with a control packet that leaves it open. */
  function Answered(s: Stream, op: Op): Stream {
    if op == Response then s.(connected := true)
    else if op == CreditRequest then Ask(s, CreditUpdate)
    else s
  }

  /** The orphan packet for a stream that a control packet closes; none for a reset. */
  function Farewell(op: Op): Op {
    if op == Rst then Unknown else if op == Shutdown then Shutdown else Rst
  }

  /** The other branches of onPacketReceiveControl. */
  function Controls(d: Dev, hdr: Header, taken: nat): Dev {
    var k := Find(d.streams, hdr.src, hdr.dst);
    if k < |d.streams| then
      var d1 := Replace(d, k, Update(d.streams[k], hdr, taken));
      if hdr.op == Response || hdr.op == CreditUpdate || hdr.op == CreditRequest
      then Replace(d1, k, Answered(d1.streams[k], hdr.op))
      else Recycle(d1, k, Farewell(hdr.op))
    else if hdr.op == Rst then d
    else Queue(d, Reset(hdr))
  }

  /** onPacketReceiveRw for a piece that the plug takes. */
  function TookPiece(s: Stream, size: nat): Stream {
    Ask(s.(hostFwd := (s.hostFwd + size) % 0x1_0000_0000), CreditUpdate)
  }

  /** onPacketReceiveRw for each piece: the stream, and whether it must go. */
  function Receive(s: Stream, sizes: seq<nat>, accepted: nat): (Stream, bool)
    decreases accepted
  {
    if sizes == [] then (s, false)
    else if !s.connected || accepted == 0 then (s, true)
    else Receive(TookPiece(s, sizes[0]), sizes[1..], accepted - 1)
  }

  /** onPacketReceiveRwStart to onPacketReceiveRwEnd. */
  function Received(d: Dev, hdr: Header, taken: nat, sizes: seq<nat>, accepted: nat): Dev {
    var k := Find(d.streams, hdr.src, hdr.dst);
    if k == |d.streams| then d
    else
      var (s, gone) := Receive(Update(d.streams[k], hdr, taken), sizes, accepted);
      var d1 := Replace(d, k, s);
      if gone then Recycle(d1, k, Shutdown) else d1
  }

  /** sendAsyncImpl. */
  function Accepted(d: Dev, guest: u32, host: u32, data: seq<byte>): Dev {
    var k := Find(d.streams, guest, host);
    if k == |d.streams| || !d.streams[k].connected then d
    else SendAll(Replace(d, k, Take(d.streams[k], data)))
  }

  /** unplugFromDevice. */
  function Unplugged(d: Dev, guest: u32, host: u32): Dev {
    var k := Find(d.streams, guest, host);
    if k == |d.streams| then d else SendAll(Recycle(d, k, Shutdown))
  }

  ghost function Step(d: Dev, e: Event): Dev {
    match e
    case Connect(guest) => SendAll(Connected(d, guest))
    case Listen(host) => d.(listeners := d.listeners + {host})
    case SendAsync(guest, host, data) => Accepted(d, guest, host, data)
    case Unplug(guest, host) => Unplugged(d, guest, host)
    case Control(hdr, taken, accept) =>
      if hdr.op == Request then Requested(d, hdr, taken, accept) else Controls(d, hdr, taken)
    case Data(hdr, taken, sizes, accepted) => Received(d, hdr, taken, sizes, accepted)
    case AddRx(size) => d.(rx := d.rx + [size], small := d.small || size < HEADER)
    case Poll => SendAll(d)
  }

  // ----------------------------------------------------------------- invariant

  /** What holds of each stream: it keeps what a stream keeps, and the packets of the
      wire that carry its ports since it was made are those it sent. */
  ghost predicate Fit(s: Stream, wire: seq<Packet>, small: bool, honest: bool) {
    && Sound(s)
    && s.since <= |wire| && Filter(wire[s.since..], s.guest, s.host) == Outs(s.log)
    && (!small ==> !s.lost)
    && (honest ==> InCredit(s))
  }

  ghost predicate AllFit(ss: seq<Stream>, wire: seq<Packet>, small: bool, honest: bool) {
    forall i {:trigger Fit(ss[i], wire, small, honest)} :: 0 <= i < |ss| ==> Fit(ss[i], wire, small, honest)
  }

  ghost predicate OrphansOk(d: Dev) {
    && AllOrphans(d.orphans)
    && (!d.small ==> RxOk(d.rx) && d.queued == Orphaned(d.wire) + d.orphans)
  }

  ghost predicate Inv(d: Dev, honest: bool) {
    && PortsOk(d.ids, d.streams)
    && (forall h :: h in d.listeners ==> h < DYNAMIC)
    && AllFit(d.streams, d.wire, d.small, honest)
    && OrphansOk(d)
  }

  /** What the run may do: static ports below the dynamic ones, and not all dynamic
      ports in use at a connect. */
  predicate Allowed(d: Dev, e: Event) {
    && (e.Listen? ==> e.host < DYNAMIC)
    && (e.Connect? ==> |Live(Hosts(d.streams))| < 0x7FFF_FFFF)
  }

  /** The guest counts honestly in the packet of this event, if the packet reaches a
      stream or opens one. */
  ghost predicate HonestAt(d: Dev, e: Event) {
    (e.Control? || e.Data?) ==>
      var k := Find(d.streams, e.hdr.src, e.hdr.dst);
      var opening := e.Control? && e.hdr.op == Request;
      && (opening && k == |d.streams| ==> Honest(NewStream(0, 0, 0), e.hdr, e.taken))
      && (!opening && k < |d.streams| ==> Honest(d.streams[k], e.hdr, e.taken))
  }

  // --------------------------------------------------------------- sending keeps

  lemma FitMoved(s: Stream, s1: Stream, wire: seq<Packet>, ps: seq<Packet>, small: bool, honest: bool)
    requires Fit(s, wire, small, honest) && Moved(s, s1, ps, honest) && (!small ==> !s1.lost)
    ensures Fit(s1, wire + ps, small, honest)
  {
    assert (wire + ps)[s.since..] == wire[s.since..] + ps;
    FilterAppend(wire[s.since..], ps, s.guest, s.host);
  }

  lemma OrphansMove(s: Stream, ps: seq<Packet>, honest: bool)
    requires Sound(s) && (honest ==> InCredit(s)) && OnlyOrphans(ps)
    ensures Moved(s, s, ps, honest)
  {
    forall i | 0 <= i < |ps| ensures !IsMine(ps[i], s.guest, s.host) {
      assert IsOrphan(ps[i].hdr.op);
    }
    FilterNone(ps, s.guest, s.host);
    MovedStill(s, honest);
  }

  lemma PassPorts(ids: Ids, ss: seq<Stream>, ss1: seq<Stream>)
    requires PortsOk(ids, ss) && |ss1| == |ss|
    requires forall i :: 0 <= i < |ss| ==> ss1[i].guest == ss[i].guest && ss1[i].host == ss[i].host
    ensures PortsOk(ids, ss1)
  {
    assert Hosts(ss1) == Hosts(ss);
    forall i, j | 0 <= i < j < |ss1|
      ensures Before(ss1[i].guest, ss1[i].host, ss1[j].guest, ss1[j].host)
    {
      assert Before(ss[i].guest, ss[i].host, ss[j].guest, ss[j].host);
    }
  }

  lemma FlushFits(d: Dev, honest: bool)
    requires AllFit(d.streams, d.wire, d.small, honest) && AllOrphans(d.orphans)
    ensures AllFit(d.streams, d.wire + SendOrphans(d.orphans, d.rx).ps, d.small, honest)
  {
    FlushOrdered(d.orphans, d.rx);
    var f := SendOrphans(d.orphans, d.rx);
    forall i | 0 <= i < |d.streams| ensures Fit(d.streams[i], d.wire + f.ps, d.small, honest) {
      assert Fit(d.streams[i], d.wire, d.small, honest);
      OrphansMove(d.streams[i], f.ps, honest);
      FitMoved(d.streams[i], d.streams[i], d.wire, f.ps, d.small, honest);
    }
  }

  lemma FitSound(ss: seq<Stream>, wire: seq<Packet>, small: bool, honest: bool)
    requires AllFit(ss, wire, small, honest)
    ensures AllSound(ss, honest) && AllSound(ss, false)
  {
    forall i | 0 <= i < |ss| ensures Sound(ss[i]) && (honest ==> InCredit(ss[i])) {
      assert Fit(ss[i], wire, small, honest);
    }
  }

  lemma PassFits(ids: Ids, ss: seq<Stream>, rx: seq<nat>, wire: seq<Packet>, small: bool, honest: bool)
    requires PortsOk(ids, ss) && AllFit(ss, wire, small, honest) && (!small ==> RxOk(rx))
    ensures var p := SendStreams(ss, 0, rx);
            && PortsOk(ids, p.ss) && AllFit(p.ss, wire + p.ps, small, honest)
            && NoOrphans(p.ps)
  {
    FitSound(ss, wire, small, honest);
    var p := SendStreams(ss, 0, rx);
    PassNoOrphans(ss, 0, rx);
    forall i | 0 <= i < |ss|
      ensures p.ss[i].guest == ss[i].guest && p.ss[i].host == ss[i].host
      ensures Fit(p.ss[i], wire + p.ps, small, honest)
    {
      assert Fit(ss[i], wire, small, honest);
      PassMoves(ss, 0, rx, honest, i);
      if !small {
        PassLosesNone(ss, 0, rx, i);
      }
      FitMoved(ss[i], p.ss[i], wire, p.ps, small, honest);
    }
    PassPorts(ids, ss, p.ss);
  }

  lemma PassRx(ss: seq<Stream>, rx: seq<nat>)
    requires Keyed(ss) && AllSound(ss, false) && RxOk(rx)
    ensures RxOk(SendStreams(ss, 0, rx).rx)
  {
    if ss != [] {
      PassLosesNone(ss, 0, rx, 0);
    }
  }

  lemma SendAllKeeps(d: Dev, honest: bool)
    requires Inv(d, honest)
    ensures Inv(SendAll(d), honest)
  {
    FitSound(d.streams, d.wire, d.small, honest);
    FlushOrdered(d.orphans, d.rx);
    FlushFits(d, honest);
    var f := SendOrphans(d.orphans, d.rx);
    OrphanedAppend(d.wire, f.ps);
    if !d.small {
      Regroup(Orphaned(d.wire), Orphaned(f.ps), f.left);
    }
    if f.left == [] {
      PassFits(d.ids, d.streams, f.rx, d.wire + f.ps, d.small, honest);
      var p := SendStreams(d.streams, 0, f.rx);
      Regroup(d.wire, f.ps, p.ps);
      if !d.small {
        PassRx(d.streams, f.rx);
        OrphanedAppend(d.wire + f.ps, p.ps);
        OrphanedNone(p.ps);
      }
    }
  }

  // ----------------------------------------------------------------- steps keep

  /** A change to one stream that sends nothing and leaves its ports. */
  lemma ReplaceKeeps(d: Dev, k: nat, s: Stream, honest: bool)
    requires Inv(d, honest) && k < |d.streams| && (honest ==> InCredit(s))
    requires var s0 := d.streams[k];
             && s.guest == s0.guest && s.host == s0.host && s.since == s0.since
             && Sound(s) && Outs(s.log) == Outs(s0.log) && s.lost == s0.lost
    ensures Inv(Replace(d, k, s), honest)
  {
    var ss1 := Replace(d, k, s).streams;
    PassPorts(d.ids, d.streams, ss1);
    forall i | 0 <= i < |ss1| ensures Fit(ss1[i], d.wire, d.small, honest) {
      assert Fit(d.streams[i], d.wire, d.small, honest);
    }
  }

  lemma QueueKeeps(d: Dev, hdr: Header, honest: bool)
    requires Inv(d, honest) && IsOrphan(hdr.op)
    ensures Inv(Queue(d, hdr), honest)
  {
    if !d.small {
      Regroup(Orphaned(d.wire), d.orphans, [hdr]);
    }
  }

  lemma RecycleKeeps(d: Dev, k: nat, op: Op, honest: bool)
    requires Inv(d, honest) && k < |d.streams|
    ensures Inv(Recycle(d, k, op), honest)
  {
    ErasePorts(d.ids, d.streams, k);
    var ss1 := Erase(d.streams, k);
    forall i | 0 <= i < |ss1| ensures Fit(ss1[i], d.wire, d.small, honest) {
      assert Fit(d.streams[if i < k then i else i + 1], d.wire, d.small, honest);
    }
    if IsOrphan(op) {
      QueueKeeps(d, HeaderOf(d.streams[k], op), honest);
    }
  }

  lemma InsertKeeps(d: Dev, ids1: Ids, s: Stream, honest: bool)
    requires Inv(d, honest) && Find(d.streams, s.guest, s.host) == |d.streams|
    requires Number(s.host) !! Live(Hosts(d.streams))
    requires Canonical(ids1, Live(Hosts(d.streams)) + Number(s.host))
    requires Fit(s, d.wire, d.small, honest)
    ensures Inv(d.(ids := ids1, streams := Insert(d.streams, s)), honest)
  {
    InsertPorts(d.ids, ids1, d.streams, s);
    var k := Place(d.streams, s.guest, s.host, 0);
    var ss1 := Insert(d.streams, s);
    forall i | 0 <= i < |ss1| ensures Fit(ss1[i], d.wire, d.small, honest) {
      if i != k {
        assert Fit(d.streams[if i < k then i else i - 1], d.wire, d.small, honest);
      }
    }
  }

  /** A new stream fits, whatever went over the wire before it. */
  lemma NewFits(s: Stream, op: Op, wire: seq<Packet>, small: bool, honest: bool)
    requires op == Request || op == Response
    requires s == Ask(NewStream(s.guest, s.host, |wire|).(bufAlloc := s.bufAlloc, fwdCnt := s.fwdCnt,
                      taken := s.taken, connected := s.connected, big := s.big), op)
    requires honest ==> s.fwdCnt == 0 && s.taken == 0 && (!s.big ==> s.bufAlloc < 0x4000_0000)
    ensures Fit(s, wire, small, honest)
  {
    OpenedSound(s.guest, s.host, |wire|, op);
    assert s.log == Ask(NewStream(s.guest, s.host, |wire|), op).log;
    assert wire[|wire|..] == [];
  }

  lemma SmallPort(id: nat)
    requires 1 <= id < DYNAMIC
    ensures PortOf(id) == id + DYNAMIC && Number(PortOf(id)) == {id}
  {
  }

  /** connect's insertion never fails: its port is one that no stream has. */
  lemma ConnectInserts(d: Dev, guest: u32)
    requires PortsOk(d.ids, d.streams) && |Live(Hosts(d.streams))| < 0x7FFF_FFFF
    ensures var (ids1, id) := Get(d.ids);
            && PortOf(id) > DYNAMIC && Number(PortOf(id)) == {id} && id !in Live(Hosts(d.streams))
            && Canonical(ids1, Live(Hosts(d.streams)) + {id})
            && Find(d.streams, guest, PortOf(id)) == |d.streams|
  {
    var live := Live(Hosts(d.streams));
    var (ids1, id) := Get(d.ids);
    GetsSmallest(d.ids, live);
    SmallestIsSmall(live, id);
    SmallPort(id);
    FreshKey(d.streams, guest, PortOf(id));
  }

  lemma ConnectAtKeeps(d: Dev, guest: u32, ids1: Ids, host: u32, honest: bool)
    requires Inv(d, honest) && Find(d.streams, guest, host) == |d.streams|
    requires Number(host) !! Live(Hosts(d.streams))
    requires Canonical(ids1, Live(Hosts(d.streams)) + Number(host))
    ensures Inv(ConnectedAt(d, guest, ids1, host), honest)
  {
    var s := Ask(NewStream(guest, host, |d.wire|), Request);
    NewFits(s, Request, d.wire, d.small, honest);
    InsertKeeps(d, ids1, s, honest);
  }

  lemma ConnectKeeps(d: Dev, guest: u32, honest: bool)
    requires Inv(d, honest) && |Live(Hosts(d.streams))| < 0x7FFF_FFFF
    ensures Inv(SendAll(Connected(d, guest)), honest)
  {
    ConnectInserts(d, guest);
    var (ids1, id) := Get(d.ids);
    ConnectAtKeeps(d, guest, ids1, PortOf(id), honest);
    SendAllKeeps(Connected(d, guest), honest);
  }

  lemma RequestedKeeps(d: Dev, hdr: Header, taken: nat, accept: bool, honest: bool)
    requires Inv(d, honest) && hdr.op == Request && (honest ==> HonestAt(d, Control(hdr, taken, accept)))
    ensures Inv(Step(d, Control(hdr, taken, accept)), honest)
  {
    if hdr.dst !in d.listeners || !accept {
      QueueKeeps(d, Reset(hdr), honest);
    } else if Find(d.streams, hdr.src, hdr.dst) == |d.streams| {
      var s := Ask(Update(NewStream(hdr.src, hdr.dst, |d.wire|), hdr, taken).(connected := true), Response);
      NewFits(s, Response, d.wire, d.small, honest);
      assert Live(Hosts(d.streams)) + Number(s.host) == Live(Hosts(d.streams));
      InsertKeeps(d, d.ids, s, honest);
    }
  }

  /** The guest's counters reach a stream. */
  lemma UpdateKeeps(d: Dev, k: nat, hdr: Header, taken: nat, honest: bool)
    requires Inv(d, honest) && k < |d.streams| && (honest ==> Honest(d.streams[k], hdr, taken))
    ensures var s := Update(d.streams[k], hdr, taken);
            Inv(Replace(d, k, s), honest) && Sound(s) && (honest ==> InCredit(s))
  {
    assert Fit(d.streams[k], d.wire, d.small, honest);
    ReplaceKeeps(d, k, Update(d.streams[k], hdr, taken), honest);
  }

  lemma AnswerKeeps(d: Dev, k: nat, op: Op, honest: bool)
    requires Inv(d, honest) && k < |d.streams|
    ensures Inv(Replace(d, k, Answered(d.streams[k], op)), honest)
  {
    var s := d.streams[k];
    assert Fit(s, d.wire, d.small, honest);
    AskKeeps(s, CreditUpdate);
    ReplaceKeeps(d, k, Answered(s, op), honest);
  }

  lemma ControlsKeep(d: Dev, hdr: Header, taken: nat, accept: bool, honest: bool)
    requires Inv(d, honest) && hdr.op != Request && (honest ==> HonestAt(d, Control(hdr, taken, accept)))
    ensures Inv(Step(d, Control(hdr, taken, accept)), honest)
  {
    var k := Find(d.streams, hdr.src, hdr.dst);
    if k < |d.streams| {
      UpdateKeeps(d, k, hdr, taken, honest);
      var d1 := Replace(d, k, Update(d.streams[k], hdr, taken));
      if hdr.op == Response || hdr.op == CreditUpdate || hdr.op == CreditRequest {
        AnswerKeeps(d1, k, hdr.op, honest);
      } else {
        RecycleKeeps(d1, k, Farewell(hdr.op), honest);
      }
    } else if hdr.op != Rst {
      QueueKeeps(d, Reset(hdr), honest);
    }
  }

  lemma {:induction false} ReceiveSame(s: Stream, sizes: seq<nat>, accepted: nat)
    ensures var s1 := Receive(s, sizes, accepted).0;
            s1.guest == s.guest && s1.host == s.host
    decreases accepted
  {
    if sizes != [] && s.connected && accepted > 0 {
      ReceiveSame(TookPiece(s, sizes[0]), sizes[1..], accepted - 1);
    }
  }

  lemma {:induction false} ReceiveKeeps(s: Stream, sizes: seq<nat>, accepted: nat)
    requires Sound(s)
    ensures var s1 := Receive(s, sizes, accepted).0;
            && s1.guest == s.guest && s1.host == s.host && s1.since == s.since && s1.lost == s.lost
            && Sound(s1) && Outs(s1.log) == Outs(s.log) && (InCredit(s) ==> InCredit(s1))
    decreases accepted
  {
    if sizes != [] && s.connected && accepted > 0 {
      var s0 := s.(hostFwd := (s.hostFwd + sizes[0]) % 0x1_0000_0000);
      AskKeeps(s0, CreditUpdate);
      ReceiveKeeps(TookPiece(s, sizes[0]), sizes[1..], accepted - 1);
    }
  }

  lemma ReceivedKeeps(d: Dev, hdr: Header, taken: nat, sizes: seq<nat>, accepted: nat, honest: bool)
    requires Inv(d, honest) && (honest ==> HonestAt(d, Data(hdr, taken, sizes, accepted)))
    ensures Inv(Step(d, Data(hdr, taken, sizes, accepted)), honest)
  {
    var k := Find(d.streams, hdr.src, hdr.dst);
    if k < |d.streams| {
      UpdateKeeps(d, k, hdr, taken, honest);
      var s0 := Update(d.streams[k], hdr, taken);
      ReceiveKeeps(s0, sizes, accepted);
      var (s, gone) := Receive(s0, sizes, accepted);
      ReplaceKeeps(d, k, s, honest);
      if gone {
        RecycleKeeps(Replace(d, k, s), k, Shutdown, honest);
      }
    }
  }

  lemma AcceptedKeeps(d: Dev, guest: u32, host: u32, data: seq<byte>, honest: bool)
    requires Inv(d, honest)
    ensures Inv(Accepted(d, guest, host, data), honest)
  {
    var k := Find(d.streams, guest, host);
    if k < |d.streams| && d.streams[k].connected {
      FitSound(d.streams, d.wire, d.small, honest);
      TakeKeeps(d.streams[k], data);
      ReplaceKeeps(d, k, Take(d.streams[k], data), honest);
      SendAllKeeps(Replace(d, k, Take(d.streams[k], data)), honest);
    }
  }

  lemma UnpluggedKeeps(d: Dev, guest: u32, host: u32, honest: bool)
    requires Inv(d, honest)
    ensures Inv(Unplugged(d, guest, host), honest)
  {
    var k := Find(d.streams, guest, host);
    if k < |d.streams| {
      RecycleKeeps(d, k, Shutdown, honest);
      SendAllKeeps(Recycle(d, k, Shutdown), honest);
    }
  }

  lemma ListenKeeps(d: Dev, host: u32, honest: bool)
    requires Inv(d, honest) && host < DYNAMIC
    ensures Inv(Step(d, Listen(host)), honest)
  {
  }

  lemma StepKeeps(d: Dev, e: Event, honest: bool)
    requires Inv(d, honest) && Allowed(d, e) && (honest ==> HonestAt(d, e))
    ensures Inv(Step(d, e), honest)
  {
    match e
    case Connect(guest) => ConnectKeeps(d, guest, honest);
    case Listen(host) => ListenKeeps(d, host, honest);
    case SendAsync(guest, host, data) => AcceptedKeeps(d, guest, host, data, honest);
    case Unplug(guest, host) => UnpluggedKeeps(d, guest, host, honest);
    case Control(hdr, taken, accept) =>
      if hdr.op == Request {
        RequestedKeeps(d, hdr, taken, accept, honest);
      } else {
        ControlsKeep(d, hdr, taken, accept, honest);
      }
    case Data(hdr, taken, sizes, accepted) => ReceivedKeeps(d, hdr, taken, sizes, accepted, honest);
    case AddRx(size) => AddRxKeeps(d, size, honest);
    case Poll => SendAllKeeps(d, honest);
  }

  lemma AddRxKeeps(d: Dev, size: nat, honest: bool)
    requires Inv(d, honest)
    ensures Inv(d.(rx := d.rx + [size], small := d.small || size < HEADER), honest)
  {
    var small := d.small || size < HEADER;
    forall i | 0 <= i < |d.streams| ensures Fit(d.streams[i], d.wire, small, honest) {
      assert Fit(d.streams[i], d.wire, d.small, honest);
    }
  }

  // ----------------------------------------------------------------------- runs

  ghost function Run(es: seq<Event>): Dev {
    if es == [] then Start() else Step(Run(es[..|es| - 1]), es[|es| - 1])
  }

  ghost predicate AllowedRun(es: seq<Event>) {
    es == [] || (AllowedRun(es[..|es| - 1]) && Allowed(Run(es[..|es| - 1]), es[|es| - 1]))
  }

  /** The guest counts honestly throughout. */
  ghost predicate HonestRun(es: seq<Event>) {
    es == [] || (HonestRun(es[..|es| - 1]) && HonestAt(Run(es[..|es| - 1]), es[|es| - 1]))
  }

  function Start(): Dev {
    Dev(Ids(0, {}), {}, [], [], [], [], [], false)
  }

  lemma StartInv()
    ensures Inv(Start(), true)
  {
    assert Hosts([]) == [];
    assert Live([]) == {};
  }

  /** Every reachable state keeps the invariant. */
  lemma {:induction false} RunKeeps(es: seq<Event>, honest: bool)
    requires AllowedRun(es) && (honest ==> HonestRun(es))
    ensures Inv(Run(es), honest)
    decreases |es|
  {
    if es == [] {
      StartInv();
    } else {
      RunKeeps(es[..|es| - 1], honest);
      StepKeeps(Run(es[..|es| - 1]), es[|es| - 1], honest);
    }
  }

  /** The packets that went over the wire for this stream. */
  function WireOf(d: Dev, s: Stream): seq<Packet>
    requires s.since <= |d.wire|
  {
    Filter(d.wire[s.since..], s.guest, s.host)
  }

  /** In every run with receive buffers that hold a header, the first packet of every
      stream is a request or a response. */
  lemma OpensFirst(es: seq<Event>, j: nat)
    requires AllowedRun(es) && j < |Run(es).streams| && !Run(es).small
    ensures var d := Run(es);
            var s := d.streams[j];
            s.since <= |d.wire| && Opens(WireOf(d, s))
  {
    RunKeeps(es, false);
    var d := Run(es);
    assert Fit(d.streams[j], d.wire, d.small, false);
  }

  /** What was sent on a stream is within what the guest has room for, and the 32-bit
      window is the true one. */
  ghost predicate WithinCredit(d: Dev, s: Stream) {
    && s.since <= |d.wire|
    && s.taken <= |Payload(WireOf(d, s))| <= s.taken + s.bufAlloc
    && Window(s) == s.taken + s.bufAlloc - |Payload(WireOf(d, s))|
  }

  /** In every run with an honest guest, a stream on which no send placed 2^30 bytes or
      more is within its credit, however often the counters have wrapped. */
  lemma CreditSafe(es: seq<Event>, j: nat)
    requires AllowedRun(es) && HonestRun(es) && j < |Run(es).streams|
    ensures var d := Run(es);
            !d.streams[j].wide ==> WithinCredit(d, d.streams[j])
    ensures !Run(es).streams[j].big ==> !Run(es).streams[j].wide
  {
    RunKeeps(es, true);
    var d := Run(es);
    assert Fit(d.streams[j], d.wire, d.small, true);
    if !d.streams[j].wide {
      WindowIsTrue(d.streams[j]);
    }
  }

  /** In every run no two streams share a dynamic port, and a further connect finds
      a port that no stream has. */
  lemma PortsApart(es: seq<Event>, guest: u32)
    requires AllowedRun(es)
    ensures var d := Run(es);
            && Apart(Hosts(d.streams))
            && (|Live(Hosts(d.streams))| < 0x7FFF_FFFF ==>
                Find(d.streams, guest, PortOf(Get(d.ids).1)) == |d.streams|)
  {
    RunKeeps(es, false);
    var d := Run(es);
    if |Live(Hosts(d.streams))| < 0x7FFF_FFFF {
      ConnectInserts(d, guest);
    }
  }

  /** Orphan packets go first: a pass sends for the streams only once none is left. */
  lemma OrphansFirst(d: Dev)
    requires Inv(d, false)
    ensures var d1 := SendAll(d);
            exists a, b :: d1.wire == d.wire + (a + b) && OnlyOrphans(a) && NoOrphans(b) &&
                           (b != [] ==> d1.orphans == [])
  {
    FlushOrdered(d.orphans, d.rx);
    var f := SendOrphans(d.orphans, d.rx);
    if f.left != [] {
      assert SendAll(d).wire == d.wire + (f.ps + []) && OnlyOrphans(f.ps) && NoOrphans([]);
    } else {
      FitSound(d.streams, d.wire, d.small, false);
      PassNoOrphans(d.streams, 0, f.rx);
      var p := SendStreams(d.streams, 0, f.rx);
      assert SendAll(d).wire == d.wire + (f.ps + p.ps) && OnlyOrphans(f.ps) && NoOrphans(p.ps);
    }
  }
}
