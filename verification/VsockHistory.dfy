/** What becomes of the bytes that the host side hands to a stream, over whole runs
    (emulator/plugin/vsock_goldfish/vsock.cpp). */
module VsockHistory {
  import opened Arithmetic
  import opened Bytes
  import opened PortIds
  import opened VsockStream
  import opened VsockPass
  import opened VsockRuns

  predicate Present(d: Dev, guest: u32, host: u32) {
    Find(d.streams, guest, host) < |d.streams|
  }

  /** The bytes that this event adds to the stream: sendAsync on a connected one. */
  function Added(d: Dev, e: Event, guest: u32, host: u32): seq<byte> {
    if e.SendAsync? && e.guest == guest && e.host == host && Present(d, guest, host) &&
       d.streams[Find(d.streams, guest, host)].connected
    then e.data else []
  }

  /** The bytes handed to the stream that holds these ports at the end of the run,
      since it was made and while it was connected. */
  ghost function Offered(es: seq<Event>, guest: u32, host: u32): seq<byte> {
    if es == [] || !Present(Run(es), guest, host) then []
    else
      var before := es[..|es| - 1];
      Offered(before, guest, host) + Added(Run(before), es[|es| - 1], guest, host)
  }

  function TakenAt(ss: seq<Stream>, guest: u32, host: u32): seq<byte> {
    var k := Find(ss, guest, host);
    if k < |ss| then Taken(ss[k].log) else []
  }

  lemma TakenOf(ss: seq<Stream>, j: nat)
    requires Keyed(ss) && j < |ss|
    ensures TakenAt(ss, ss[j].guest, ss[j].host) == Taken(ss[j].log)
  {
    FindsAll(ss, j);
  }

  // ----------------------------------------------- each operation, seen at one key

  lemma ReplaceTaken(ss: seq<Stream>, k: nat, s: Stream, guest: u32, host: u32)
    requires Keyed(ss) && k < |ss| && s.guest == ss[k].guest && s.host == ss[k].host
    requires Keyed(ss[k := s])
    ensures TakenAt(ss[k := s], guest, host) ==
            if At(ss, guest, host, k) then Taken(s.log) else TakenAt(ss, guest, host)
    ensures Find(ss[k := s], guest, host) == Find(ss, guest, host)
  {
    var j, j1 := Find(ss, guest, host), Find(ss[k := s], guest, host);
    if j < |ss| {
      FindsAll(ss[k := s], j);
    }
    if j1 < |ss| {
      FindsAll(ss, j1);
    }
    if At(ss, guest, host, k) {
      FindsAll(ss, k);
    }
  }

  lemma EraseTaken(ss: seq<Stream>, k: nat, guest: u32, host: u32)
    requires Keyed(ss) && k < |ss| && Find(Erase(ss, k), guest, host) < |ss| - 1
    ensures TakenAt(Erase(ss, k), guest, host) == TakenAt(ss, guest, host)
  {
    var j := Find(Erase(ss, k), guest, host);
    FindsAll(ss, if j < k then j else j + 1);
  }

  lemma InsertTaken(ss: seq<Stream>, s: Stream, guest: u32, host: u32)
    requires Keyed(ss) && Find(ss, s.guest, s.host) == |ss| && Taken(s.log) == []
    ensures Find(Insert(ss, s), guest, host) < |ss| + 1 ==>
              TakenAt(Insert(ss, s), guest, host) == TakenAt(ss, guest, host)
  {
    var k := Place(ss, s.guest, s.host, 0);
    var ss1 := Insert(ss, s);
    var j := Find(ss1, guest, host);
    if j < |ss1| && j != k {
      var j0 := if j < k then j else j - 1;
      assert ss1[j] == ss[j0];
      FindsAll(ss, j0);
    }
  }

  lemma PassTaken(ss: seq<Stream>, rx: seq<nat>, guest: u32, host: u32)
    requires Keyed(ss) && AllSound(ss, false)
    ensures Find(SendStreams(ss, 0, rx).ss, guest, host) < |ss| ==>
              TakenAt(SendStreams(ss, 0, rx).ss, guest, host) == TakenAt(ss, guest, host)
  {
    var p := SendStreams(ss, 0, rx);
    var j := Find(p.ss, guest, host);
    if j < |ss| {
      PassMoves(ss, 0, rx, false, j);
      FindsAll(ss, j);
    }
  }

  lemma SendAllTaken(d: Dev, guest: u32, host: u32)
    requires Inv(d, false) && Present(SendAll(d), guest, host)
    ensures TakenAt(SendAll(d).streams, guest, host) == TakenAt(d.streams, guest, host)
  {
    FitSound(d.streams, d.wire, d.small, false);
    PassTaken(d.streams, SendOrphans(d.orphans, d.rx).rx, guest, host);
  }

  // ------------------------------------------------------------------ each event

  lemma ConnectTaken(d: Dev, guest1: u32, guest: u32, host: u32)
    requires Inv(d, false) && Allowed(d, Connect(guest1)) && Present(Step(d, Connect(guest1)), guest, host)
    ensures TakenAt(Step(d, Connect(guest1)).streams, guest, host) == TakenAt(d.streams, guest, host)
  {
    var (ids1, id) := Get(d.ids);
    ConnectInserts(d, guest1);
    ConnectAtKeeps(d, guest1, ids1, PortOf(id), false);
    var d1 := Connected(d, guest1);
    SendAllTaken(d1, guest, host);
    SendAllPresent(d1, guest, host);
    var s := Ask(NewStream(guest1, PortOf(id), |d.wire|), Request);
    Grow([], Asked(Request));
    assert s.log == [] + [Asked(Request)];
    InsertTaken(d.streams, s, guest, host);
  }

  /** Sending makes no stream. */
  lemma SendAllPresent(d: Dev, guest: u32, host: u32)
    requires Inv(d, false) && Present(SendAll(d), guest, host)
    ensures Present(d, guest, host)
  {
    FitSound(d.streams, d.wire, d.small, false);
    var f := SendOrphans(d.orphans, d.rx);
    if f.left == [] {
      var j := Find(SendStreams(d.streams, 0, f.rx).ss, guest, host);
      PassMoves(d.streams, 0, f.rx, false, j);
      FindsAll(d.streams, j);
    }
  }

  lemma TakeTaken(d: Dev, k: nat, data: seq<byte>, guest: u32, host: u32)
    requires Inv(d, false) && k < |d.streams|
    ensures var d1 := Replace(d, k, Take(d.streams[k], data));
            && Inv(d1, false)
            && TakenAt(d1.streams, guest, host) ==
               TakenAt(d.streams, guest, host) + if At(d.streams, guest, host, k) then data else []
  {
    var s := Take(d.streams[k], data);
    FitSound(d.streams, d.wire, d.small, false);
    TakeKeeps(d.streams[k], data);
    ReplaceKeeps(d, k, s, false);
    ReplaceTaken(d.streams, k, s, guest, host);
    if At(d.streams, guest, host, k) {
      TakenOf(d.streams, k);
    }
  }

  lemma AcceptedTaken(d: Dev, e: Event, guest: u32, host: u32)
    requires Inv(d, false) && e.SendAsync? && Present(Step(d, e), guest, host)
    ensures TakenAt(Step(d, e).streams, guest, host) ==
            TakenAt(d.streams, guest, host) + Added(d, e, guest, host)
  {
    var k := Find(d.streams, e.guest, e.host);
    if k < |d.streams| && d.streams[k].connected {
      TakeTaken(d, k, e.data, guest, host);
      SendAllTaken(Replace(d, k, Take(d.streams[k], e.data)), guest, host);
    } else {
      assert TakenAt(d.streams, guest, host) + [] == TakenAt(d.streams, guest, host);
    }
  }

  lemma RecycleTaken(d: Dev, k: nat, op: Op, guest: u32, host: u32)
    requires Inv(d, false) && k < |d.streams| && Present(Recycle(d, k, op), guest, host)
    ensures TakenAt(Recycle(d, k, op).streams, guest, host) == TakenAt(d.streams, guest, host)
  {
    EraseTaken(d.streams, k, guest, host);
  }

  lemma UnpluggedTaken(d: Dev, e: Event, guest: u32, host: u32)
    requires Inv(d, false) && e.Unplug? && Present(Step(d, e), guest, host)
    ensures TakenAt(Step(d, e).streams, guest, host) == TakenAt(d.streams, guest, host)
  {
    var k := Find(d.streams, e.guest, e.host);
    if k < |d.streams| {
      RecycleKeeps(d, k, Shutdown, false);
      SendAllTaken(Recycle(d, k, Shutdown), guest, host);
      SendAllPresent(Recycle(d, k, Shutdown), guest, host);
      RecycleTaken(d, k, Shutdown, guest, host);
    }
  }

  /** A stream that keeps its ports and its bytes takes the place of the k-th. */
  lemma SwapTaken(d: Dev, k: nat, s: Stream, guest: u32, host: u32)
    requires k < |d.streams| && Inv(d, false) && Inv(Replace(d, k, s), false)
    requires s.guest == d.streams[k].guest && s.host == d.streams[k].host
    requires Taken(s.log) == Taken(d.streams[k].log)
    ensures TakenAt(Replace(d, k, s).streams, guest, host) == TakenAt(d.streams, guest, host)
  {
    ReplaceTaken(d.streams, k, s, guest, host);
    if At(d.streams, guest, host, k) {
      TakenOf(d.streams, k);
    }
  }

  lemma ControlsTaken(d: Dev, hdr: Header, taken: nat, guest: u32, host: u32)
    requires Inv(d, false) && Present(Controls(d, hdr, taken), guest, host)
    ensures TakenAt(Controls(d, hdr, taken).streams, guest, host) == TakenAt(d.streams, guest, host)
  {
    var k := Find(d.streams, hdr.src, hdr.dst);
    if k < |d.streams| {
      UpdateKeeps(d, k, hdr, taken, false);
      var s := Update(d.streams[k], hdr, taken);
      var d1 := Replace(d, k, s);
      SwapTaken(d, k, s, guest, host);
      if hdr.op == Response || hdr.op == CreditUpdate || hdr.op == CreditRequest {
        AnswerKeeps(d1, k, hdr.op, false);
        Grow(s.log, Asked(CreditUpdate));
        SwapTaken(d1, k, Answered(s, hdr.op), guest, host);
      } else {
        RecycleTaken(d1, k, Farewell(hdr.op), guest, host);
      }
    }
  }

  lemma RequestedTaken(d: Dev, hdr: Header, taken: nat, accept: bool, guest: u32, host: u32)
    requires Inv(d, false) && Present(Requested(d, hdr, taken, accept), guest, host)
    ensures TakenAt(Requested(d, hdr, taken, accept).streams, guest, host) == TakenAt(d.streams, guest, host)
  {
    if hdr.dst in d.listeners && Find(d.streams, hdr.src, hdr.dst) == |d.streams| && accept {
      var s: Stream := Update(NewStream(hdr.src, hdr.dst, |d.wire|), hdr, taken).(connected := true);
      Grow([], Asked(Response));
      assert Ask(s, Response).log == [] + [Asked(Response)];
      InsertTaken(d.streams, Ask(s, Response), guest, host);
    }
  }

  lemma {:induction false} ReceiveTaken(s: Stream, sizes: seq<nat>, accepted: nat)
    ensures Taken(Receive(s, sizes, accepted).0.log) == Taken(s.log)
    decreases accepted
  {
    if sizes != [] && s.connected && accepted > 0 {
      Grow(s.log, Asked(CreditUpdate));
      ReceiveTaken(TookPiece(s, sizes[0]), sizes[1..], accepted - 1);
    }
  }

  lemma ReceivedTaken(d: Dev, hdr: Header, taken: nat, sizes: seq<nat>, accepted: nat, guest: u32, host: u32)
    requires Inv(d, false) && Present(Received(d, hdr, taken, sizes, accepted), guest, host)
    ensures TakenAt(Received(d, hdr, taken, sizes, accepted).streams, guest, host) ==
            TakenAt(d.streams, guest, host)
  {
    var k := Find(d.streams, hdr.src, hdr.dst);
    if k < |d.streams| {
      UpdateKeeps(d, k, hdr, taken, false);
      var s0 := Update(d.streams[k], hdr, taken);
      ReceiveKeeps(s0, sizes, accepted);
      ReceiveTaken(s0, sizes, accepted);
      var (s, gone) := Receive(s0, sizes, accepted);
      ReplaceKeeps(d, k, s, false);
      SwapTaken(d, k, s, guest, host);
      if gone {
        RecycleTaken(Replace(d, k, s), k, Shutdown, guest, host);
      }
    }
  }

  lemma StepTaken(d: Dev, e: Event, guest: u32, host: u32)
    requires Inv(d, false) && Allowed(d, e) && Present(Step(d, e), guest, host)
    ensures TakenAt(Step(d, e).streams, guest, host) ==
            TakenAt(d.streams, guest, host) + Added(d, e, guest, host)
  {
    assert TakenAt(d.streams, guest, host) + [] == TakenAt(d.streams, guest, host);
    match e
    case Connect(guest1) => ConnectTaken(d, guest1, guest, host);
    case Listen(_) =>
    case SendAsync(_, _, _) => AcceptedTaken(d, e, guest, host);
    case Unplug(_, _) => UnpluggedTaken(d, e, guest, host);
    case Control(hdr, taken, accept) =>
      if hdr.op == Request {
        RequestedTaken(d, hdr, taken, accept, guest, host);
      } else {
        ControlsTaken(d, hdr, taken, guest, host);
      }
    case Data(hdr, taken, sizes, accepted) =>
      ReceivedTaken(d, hdr, taken, sizes, accepted, guest, host);
    case AddRx(_) =>
    case Poll => SendAllTaken(d, guest, host);
  }

  // ------------------------------------------------------------------- all runs

  lemma {:induction false} OfferedIsTaken(es: seq<Event>, guest: u32, host: u32)
    requires AllowedRun(es)
    ensures TakenAt(Run(es).streams, guest, host) == Offered(es, guest, host)
    decreases |es|
  {
    if es != [] && Present(Run(es), guest, host) {
      var before := es[..|es| - 1];
      OfferedIsTaken(before, guest, host);
      RunKeeps(before, false);
      StepTaken(Run(before), es[|es| - 1], guest, host);
    }
  }

  /** In every run, what the guest was sent on a stream followed by what waits in its
      buffer is what the host side handed over while it was connected, in order,
      exactly when no send placed 2^30 bytes or more. */
  lemma BytesConserved(es: seq<Event>, j: nat)
    requires AllowedRun(es) && j < |Run(es).streams|
    ensures var d := Run(es);
            var s := d.streams[j];
            && s.since <= |d.wire|
            && (Payload(WireOf(d, s)) + Rest(s) == Offered(es, s.guest, s.host) <==> !s.wide)
  {
    RunKeeps(es, false);
    var d := Run(es);
    var s := d.streams[j];
    assert Fit(s, d.wire, d.small, false);
    TakenOf(d.streams, j);
    OfferedIsTaken(es, s.guest, s.host);
  }

  // ------------------------------------------------------------- modest guests

  /** Every guest packet announces less than 2^30 bytes. */
  ghost predicate Modest(es: seq<Event>) {
    forall i :: 0 <= i < |es| ==> ModestAt(es[i])
  }

  predicate ModestAt(e: Event) {
    (e.Control? || e.Data?) ==> e.hdr.bufAlloc < 0x4000_0000
  }

  ghost predicate NoneBig(ss: seq<Stream>) {
    forall i :: 0 <= i < |ss| ==> !ss[i].big
  }

  lemma SendAllBig(d: Dev)
    requires Inv(d, false) && NoneBig(d.streams)
    ensures NoneBig(SendAll(d).streams)
  {
    FitSound(d.streams, d.wire, d.small, false);
    var f := SendOrphans(d.orphans, d.rx);
    if f.left == [] {
      var p := SendStreams(d.streams, 0, f.rx);
      forall i | 0 <= i < |p.ss| ensures !p.ss[i].big {
        PassMoves(d.streams, 0, f.rx, false, i);
      }
    }
  }

  lemma {:induction false} ReceiveBig(s: Stream, sizes: seq<nat>, accepted: nat)
    ensures Receive(s, sizes, accepted).0.big == s.big
    decreases accepted
  {
    if sizes != [] && s.connected && accepted > 0 {
      ReceiveBig(TookPiece(s, sizes[0]), sizes[1..], accepted - 1);
    }
  }

  lemma InsertBig(ss: seq<Stream>, s: Stream)
    requires NoneBig(ss) && !s.big
    ensures NoneBig(Insert(ss, s))
  {
  }

  lemma ReplaceBig(ss: seq<Stream>, k: nat, s: Stream)
    requires NoneBig(ss) && k < |ss| && !s.big
    ensures NoneBig(ss[k := s]) && NoneBig(Erase(ss[k := s], k))
  {
  }

  lemma ControlsBig(d: Dev, hdr: Header, taken: nat)
    requires NoneBig(d.streams) && hdr.bufAlloc < 0x4000_0000
    ensures NoneBig(Controls(d, hdr, taken).streams)
  {
    var k := Find(d.streams, hdr.src, hdr.dst);
    if k < |d.streams| {
      var s := Update(d.streams[k], hdr, taken);
      ReplaceBig(d.streams, k, s);
      ReplaceBig(d.streams[k := s], k, Answered(s, hdr.op));
    }
  }

  lemma RequestedBig(d: Dev, hdr: Header, taken: nat, accept: bool)
    requires NoneBig(d.streams) && hdr.bufAlloc < 0x4000_0000
    ensures NoneBig(Requested(d, hdr, taken, accept).streams)
  {
    var s: Stream := Update(NewStream(hdr.src, hdr.dst, |d.wire|), hdr, taken).(connected := true);
    InsertBig(d.streams, Ask(s, Response));
  }

  lemma ReceivedBig(d: Dev, hdr: Header, taken: nat, sizes: seq<nat>, accepted: nat)
    requires NoneBig(d.streams) && hdr.bufAlloc < 0x4000_0000
    ensures NoneBig(Received(d, hdr, taken, sizes, accepted).streams)
  {
    var k := Find(d.streams, hdr.src, hdr.dst);
    if k < |d.streams| {
      var s := Update(d.streams[k], hdr, taken);
      ReceiveBig(s, sizes, accepted);
      ReplaceBig(d.streams, k, Receive(s, sizes, accepted).0);
    }
  }

  lemma ConnectBig(d: Dev, guest: u32)
    requires Inv(d, false) && Allowed(d, Connect(guest)) && NoneBig(d.streams)
    ensures NoneBig(Step(d, Connect(guest)).streams)
  {
    var (ids1, id) := Get(d.ids);
    ConnectInserts(d, guest);
    ConnectAtKeeps(d, guest, ids1, PortOf(id), false);
    InsertBig(d.streams, Ask(NewStream(guest, PortOf(id), |d.wire|), Request));
    SendAllBig(Connected(d, guest));
  }

  lemma AcceptedBig(d: Dev, guest: u32, host: u32, data: seq<byte>)
    requires Inv(d, false) && NoneBig(d.streams)
    ensures NoneBig(Accepted(d, guest, host, data).streams)
  {
    var k := Find(d.streams, guest, host);
    if k < |d.streams| && d.streams[k].connected {
      TakeTaken(d, k, data, guest, host);
      ReplaceBig(d.streams, k, Take(d.streams[k], data));
      SendAllBig(Replace(d, k, Take(d.streams[k], data)));
    }
  }

  lemma UnpluggedBig(d: Dev, guest: u32, host: u32)
    requires Inv(d, false) && NoneBig(d.streams)
    ensures NoneBig(Unplugged(d, guest, host).streams)
  {
    var k := Find(d.streams, guest, host);
    if k < |d.streams| {
      RecycleKeeps(d, k, Shutdown, false);
      ReplaceBig(d.streams, k, d.streams[k]);
      assert d.streams[k := d.streams[k]] == d.streams;
      SendAllBig(Recycle(d, k, Shutdown));
    }
  }

  lemma StepBig(d: Dev, e: Event)
    requires Inv(d, false) && Allowed(d, e) && NoneBig(d.streams) && ModestAt(e)
    ensures NoneBig(Step(d, e).streams)
  {
    match e
    case Connect(guest) => ConnectBig(d, guest);
    case Listen(_) =>
    case SendAsync(guest, host, data) => AcceptedBig(d, guest, host, data);
    case Unplug(guest, host) => UnpluggedBig(d, guest, host);
    case Control(hdr, taken, accept) =>
      if hdr.op == Request {
        RequestedBig(d, hdr, taken, accept);
      } else {
        ControlsBig(d, hdr, taken);
      }
    case Data(hdr, taken, sizes, accepted) => ReceivedBig(d, hdr, taken, sizes, accepted);
    case AddRx(_) =>
    case Poll => SendAllBig(d);
  }

  lemma {:induction false} RunBig(es: seq<Event>)
    requires AllowedRun(es) && Modest(es)
    ensures NoneBig(Run(es).streams)
    decreases |es|
  {
    if es != [] {
      var before := es[..|es| - 1];
      RunBig(before);
      RunKeeps(before, false);
      StepBig(Run(before), es[|es| - 1]);
    }
  }

  /** In every run with an honest guest that never announces 2^30 bytes or more, all
      streams are within their credit, and all bytes are conserved. */
  lemma ModestGuest(es: seq<Event>, j: nat)
    requires AllowedRun(es) && HonestRun(es) && Modest(es) && j < |Run(es).streams|
    ensures var d := Run(es);
            var s := d.streams[j];
            && WithinCredit(d, s)
            && Payload(WireOf(d, s)) + Rest(s) == Offered(es, s.guest, s.host)
  {
    RunBig(es);
    CreditSafe(es, j);
    BytesConserved(es, j);
  }

  // -------------------------------------------------------------- one wide run

  /** A guest connects to port 5 and offers 2^30 bytes; the host sends as many. */
  function WideEvents(data: seq<byte>): seq<Event> {
    [Listen(5), Control(Header(7, 5, Request, 0x4000_0000, 0), 0, true),
     AddRx(HEADER), AddRx(HEADER + 0x4000_0000), SendAsync(7, 5, data)]
  }

  function WideStream(): Stream {
    Ask(Update(NewStream(7, 5, 0), Header(7, 5, Request, 0x4000_0000, 0), 0).(connected := true), Response)
  }

  lemma WideSound()
    ensures Sound(WideStream()) && Rest(WideStream()) == []
  {
    Grow([], Asked(Response));
    assert WideStream().log == [] + [Asked(Response)];
  }

  lemma WideTurn(data: seq<byte>, rx: seq<nat>)
    requires |data| == 0x4000_0000 && rx == [HEADER, HEADER + 0x4000_0000]
    ensures SendStream(Take(WideStream(), data), rx).s.wide
  {
    WideSound();
    TakeKeeps(WideStream(), data);
    var s := Take(WideStream(), data);
    assert s.mask == {Response} && Rest(s) == data;
    assert rx[1..] == [HEADER + 0x4000_0000] && Capacity(rx[1..]) == 0x4000_0000 + Capacity([]);
    WideExactly(s, rx);
  }

  lemma OneStream(s: Stream, rx: seq<nat>)
    ensures SendStreams([s], 0, rx).ss == [SendStream(s, rx).s]
  {
    var t := SendStream(s, rx);
    assert [s][0 := t.s] == [t.s];
    assert SendStreams([t.s], 1, t.rx).ss == [t.s];
  }

  lemma RunNext(es: seq<Event>, n: nat)
    requires n < |es|
    ensures Run(es[..n + 1]) == Step(Run(es[..n]), es[n])
    ensures AllowedRun(es[..n + 1]) <==> AllowedRun(es[..n]) && Allowed(Run(es[..n]), es[n])
  {
    assert es[..n + 1][..n] == es[..n];
  }

  /** The guest's request makes the stream. */
  lemma WideOpens(d: Dev, hdr: Header)
    requires d == Start().(listeners := {5}) && hdr == Header(7, 5, Request, 0x4000_0000, 0)
    ensures Step(d, Control(hdr, 0, true)) == d.(streams := [WideStream()])
  {
    assert Insert([], WideStream()) == [WideStream()];
  }

  lemma WideFeeds(d: Dev, size: nat)
    requires size >= HEADER
    ensures Step(d, AddRx(size)) == d.(rx := d.rx + [size])
  {
  }

  lemma WideListens()
    ensures Step(Start(), Listen(5)) == Start().(listeners := {5})
  {
    assert {} + {5} == {5};
  }

  /** The first n events lead to this state. */
  ghost predicate Reaches(es: seq<Event>, n: nat, d: Dev) {
    n <= |es| && AllowedRun(es[..n]) && Run(es[..n]) == d
  }

  lemma ReachesNext(es: seq<Event>, n: nat, d: Dev, d1: Dev)
    requires n < |es| && Reaches(es, n, d) && Allowed(d, es[n]) && Step(d, es[n]) == d1
    ensures Reaches(es, n + 1, d1)
  {
    RunNext(es, n);
  }

  /** The state once the guest is connected. */
  lemma WideConnected(es: seq<Event>)
    requires |es| >= 2 && es[0] == Listen(5)
    requires es[1] == Control(Header(7, 5, Request, 0x4000_0000, 0), 0, true)
    ensures Reaches(es, 2, Start().(listeners := {5}, streams := [WideStream()]))
  {
    assert es[..0] == [];
    WideListens();
    var d1 := Start().(listeners := {5});
    ReachesNext(es, 0, Start(), d1);
    WideOpens(d1, Header(7, 5, Request, 0x4000_0000, 0));
    ReachesNext(es, 1, d1, d1.(streams := [WideStream()]));
  }

  /** The state before the data comes. */
  lemma WidePrefix(es: seq<Event>, d: Dev)
    requires |es| >= 4 && es[2] == AddRx(HEADER) && es[3] == AddRx(HEADER + 0x4000_0000)
    requires Reaches(es, 2, d) && d.rx == []
    ensures Reaches(es, 4, d.(rx := [HEADER, HEADER + 0x4000_0000]))
  {
    WideFeeds(d, HEADER);
    var d1 := d.(rx := d.rx + [HEADER]);
    ReachesNext(es, 2, d, d1);
    WideFeeds(d1, HEADER + 0x4000_0000);
    ReachesNext(es, 3, d1, d1.(rx := d1.rx + [HEADER + 0x4000_0000]));
    assert d1.rx + [HEADER + 0x4000_0000] == [HEADER, HEADER + 0x4000_0000];
  }

  function WideState(): Dev {
    Start().(listeners := {5}, streams := [WideStream()], rx := [HEADER, HEADER + 0x4000_0000])
  }

  /** A run that loses count of its bytes: the send of 2^30 bytes reports none. */
  lemma WideRun(data: seq<byte>)
    requires |data| == 0x4000_0000
    ensures var es := WideEvents(data);
            && AllowedRun(es) && |Run(es).streams| == 1 && Run(es).streams[0].wide
            && var d := Run(es);
               var s := d.streams[0];
               s.since <= |d.wire| && Payload(WireOf(d, s)) + Rest(s) != Offered(es, s.guest, s.host)
  {
    var es := WideEvents(data);
    WideConnected(es);
    WidePrefix(es, Start().(listeners := {5}, streams := [WideStream()]));
    WideTurn(data, WideState().rx);
    var s := Take(WideStream(), data);
    OneStream(s, WideState().rx);
    assert Find([WideStream()], 7, 5) == 0 && [WideStream()][0 := s] == [s];
    assert SendOrphans([], WideState().rx) == Flush([], WideState().rx, []);
    assert Run(es) == Step(WideState(), es[4]);
    assert Run(es).streams == SendStreams([s], 0, WideState().rx).ss;
    BytesConserved(es, 0);
  }
}
