/** What becomes of the control operations that a stream is asked to send, over whole
    runs (emulator/plugin/vsock_goldfish/vsock.cpp). */
module VsockRequests {
  import opened Arithmetic
  import opened Bytes
  import opened PortIds
  import opened VsockStream
  import opened VsockPass
  import opened VsockRuns
  import opened VsockHistory

  function OpsOf(ps: seq<Packet>): set<Op> {
    set i | 0 <= i < |ps| :: ps[i].hdr.op
  }

  lemma OpsAppend(ps: seq<Packet>, qs: seq<Packet>)
    ensures OpsOf(ps + qs) == OpsOf(ps) + OpsOf(qs)
  {
    forall op | op in OpsOf(ps) + OpsOf(qs) ensures op in OpsOf(ps + qs) {
      if op in OpsOf(ps) {
        var i :| 0 <= i < |ps| && ps[i].hdr.op == op;
        assert (ps + qs)[i] == ps[i];
      } else {
        var i :| 0 <= i < |qs| && qs[i].hdr.op == op;
        assert (ps + qs)[|ps| + i] == qs[i];
      }
    }
  }

  lemma OneOp(p: Packet)
    ensures OpsOf([p]) == {p.hdr.op}
  {
    assert [p][0] == p;
  }

  // ------------------------------------------------------------------ one turn

  lemma {:induction false} OpsMask(s: Stream, rx: seq<nat>, i: nat)
    requires i <= |Order()| && RxOk(rx) && s.mask <= {Request, Response, CreditUpdate, CreditRequest}
    requires forall j :: 0 <= j < i ==> Order()[j] !in s.mask
    ensures var t := SendOps(s, rx, i);
            t.s.mask == s.mask - OpsOf(t.ps) && RxOk(t.rx)
    decreases |Order()| - i
  {
    if i == |Order()| {
      assert Order()[0] == Request && Order()[1] == Response;
      assert Order()[2] == CreditUpdate && Order()[3] == CreditRequest;
      assert s.mask == {};
    } else if Order()[i] !in s.mask {
      OpsMask(s, rx, i + 1);
    } else {
      var hdr := HeaderOf(s, Order()[i]);
      ControlLost(rx, hdr);
      SendKeepsRx(rx, hdr, []);
      var r := Send(rx, hdr, []);
      if !r.full {
        OneOp(Packet(hdr, []));
        OpsMask(SentOp(s, Order()[i], r.ps), r.rx, i + 1);
        OpsAppend(r.ps, SendOps(SentOp(s, Order()[i], r.ps), r.rx, i + 1).ps);
      }
    }
  }

  lemma {:induction false} DataMask(s: Stream, rx: seq<nat>, avail: nat)
    ensures var t := SendData(s, rx, avail);
            t.s.mask == s.mask && OpsOf(t.ps) <= {Rw}
    decreases |rx|
  {
    if avail != 0 && Rest(s) != [] {
      var r := SendChunk(s, rx, avail);
      assert OpsOf(r.ps) <= {Rw};
      if !r.full {
        var s1, left: nat := SentData(s, r.ps), avail - Reported(|Payload(r.ps)|);
        DataMask(s1, r.rx, left);
        OpsAppend(r.ps, SendData(s1, r.rx, left).ps);
      }
    }
  }

  /** The operations that a stream was asked to send; credit requests are its own. */
  function Asks(s: Stream): set<Op> {
    s.mask - {CreditRequest}
  }

  lemma TurnMask(s: Stream, rx: seq<nat>)
    requires Sound(s) && RxOk(rx)
    ensures var t := SendStream(s, rx);
            Asks(t.s) == Asks(s) - OpsOf(t.ps)
  {
    var s0 := if Window(s) == 0 then Ask(s, CreditRequest) else s;
    OpsMask(s0, rx, 0);
    OpsSame(s0, rx, 0);
    var t := SendOps(s0, rx, 0);
    assert Asks(s0) == Asks(s);
    if !t.full {
      DataMask(t.s, t.rx, Window(s));
      OpsAppend(t.ps, SendData(t.s, t.rx, Window(s)).ps);
      assert Rw !in t.s.mask;
    }
  }

  /** A stream asks its guest for credit exactly when it has no window: a turn sends the
      request, or leaves it pending, exactly when it was pending or the window is 0. */
  lemma CreditAsked(s: Stream, rx: seq<nat>)
    requires Sound(s) && RxOk(rx)
    ensures var t := SendStream(s, rx);
            CreditRequest in OpsOf(t.ps) + t.s.mask <==> CreditRequest in s.mask || Window(s) == 0
  {
    var s0 := if Window(s) == 0 then Ask(s, CreditRequest) else s;
    OpsMask(s0, rx, 0);
    OpsSent(s0, rx, 0);
    OpsSame(s0, rx, 0);
    var t := SendOps(s0, rx, 0);
    if !t.full {
      DataMask(t.s, t.rx, Window(s));
      OpsAppend(t.ps, SendData(t.s, t.rx, Window(s)).ps);
    }
  }

  lemma {:induction false} OpsSent(s: Stream, rx: seq<nat>, i: nat)
    requires i <= |Order()|
    ensures OpsOf(SendOps(s, rx, i).ps) <= s.mask
    decreases |Order()| - i
  {
    if i < |Order()| {
      if Order()[i] !in s.mask {
        OpsSent(s, rx, i + 1);
      } else {
        var hdr := HeaderOf(s, Order()[i]);
        var r := Send(rx, hdr, []);
        ControlLost(rx, hdr);
        if !r.full {
          OneOp(Packet(hdr, []));
          OpsSent(SentOp(s, Order()[i], r.ps), r.rx, i + 1);
          OpsAppend(r.ps, SendOps(SentOp(s, Order()[i], r.ps), r.rx, i + 1).ps);
        }
      }
    }
  }

  // ------------------------------------------------------------------ one pass

  /** What a pass does to the operations of one stream, among the packets of all. */
  ghost predicate Served(s: Stream, s1: Stream, ps: seq<Packet>) {
    Same(s, s1) && Asks(s1) == Asks(s) - OpsOf(Filter(ps, s.guest, s.host))
  }

  lemma ServedTwice(s: Stream, s1: Stream, s2: Stream, ps: seq<Packet>, qs: seq<Packet>)
    requires Served(s, s1, ps) && Served(s1, s2, qs)
    ensures Served(s, s2, ps + qs)
  {
    FilterAppend(ps, qs, s.guest, s.host);
    OpsAppend(Filter(ps, s.guest, s.host), Filter(qs, s.guest, s.host));
  }

  lemma TurnServes(ss: seq<Stream>, i: nat, rx: seq<nat>, j: nat)
    requires i < |ss| && j < |ss| && Keyed(ss) && AllSound(ss, false) && RxOk(rx)
    ensures Served(ss[j], Turned(ss, i, rx)[j], SendStream(ss[i], rx).ps)
  {
    var t := SendStream(ss[i], rx);
    StreamKeeps(ss[i], rx, false);
    if i == j {
      TurnMask(ss[i], rx);
      FilterAll(t.ps, ss[j].guest, ss[j].host);
    } else {
      TurnOthers(ss, i, rx, j);
    }
  }

  lemma TurnOthers(ss: seq<Stream>, i: nat, rx: seq<nat>, j: nat)
    requires i < |ss| && j < |ss| && i != j && Keyed(ss) && AllSound(ss, false)
    ensures Filter(SendStream(ss[i], rx).ps, ss[j].guest, ss[j].host) == []
  {
    var t := SendStream(ss[i], rx);
    StreamKeeps(ss[i], rx, false);
    assert ss[i].guest != ss[j].guest || ss[i].host != ss[j].host by {
      var x, y := if i < j then i else j, if i < j then j else i;
      assert Before(ss[x].guest, ss[x].host, ss[y].guest, ss[y].host);
    }
    forall n | 0 <= n < |t.ps| ensures !IsMine(t.ps[n], ss[j].guest, ss[j].host) {
      assert IsMine(t.ps[n], ss[i].guest, ss[i].host);
    }
    FilterNone(t.ps, ss[j].guest, ss[j].host);
  }

  ghost predicate PassServed(ss: seq<Stream>, i: nat, rx: seq<nat>, j: nat)
    requires i <= |ss| && j < |ss|
  {
    var p := SendStreams(ss, i, rx);
    Served(ss[j], p.ss[j], p.ps)
  }

  lemma PassServedNext(ss: seq<Stream>, i: nat, rx: seq<nat>, j: nat)
    requires i < |ss| && j < |ss| && !SendStream(ss[i], rx).full
    requires Served(ss[j], Turned(ss, i, rx)[j], SendStream(ss[i], rx).ps)
    requires PassServed(Turned(ss, i, rx), i + 1, SendStream(ss[i], rx).rx, j)
    ensures PassServed(ss, i, rx, j)
  {
    var t, ss1 := SendStream(ss[i], rx), Turned(ss, i, rx);
    var p := SendStreams(ss1, i + 1, t.rx);
    ServedTwice(ss[j], ss1[j], p.ss[j], t.ps, p.ps);
  }

  lemma {:induction false} PassServes(ss: seq<Stream>, i: nat, rx: seq<nat>, j: nat)
    requires i <= |ss| && j < |ss| && Keyed(ss) && AllSound(ss, false) && RxOk(rx)
    ensures PassServed(ss, i, rx, j)
    decreases |ss| - i
  {
    if i < |ss| {
      TurnServes(ss, i, rx, j);
      if !SendStream(ss[i], rx).full {
        TurnOk(ss, i, rx);
        PassServes(Turned(ss, i, rx), i + 1, SendStream(ss[i], rx).rx, j);
        PassServedNext(ss, i, rx, j);
      }
    }
  }

  // ---------------------------------------------- each operation, seen at one key

  function AsksAt(ss: seq<Stream>, guest: u32, host: u32): set<Op> {
    var k := Find(ss, guest, host);
    if k < |ss| then Asks(ss[k]) else {}
  }

  /** The operations of a stream that went over the wire between two states. */
  function SentIn(d: Dev, d1: Dev, guest: u32, host: u32): set<Op> {
    if |d.wire| <= |d1.wire| then OpsOf(Filter(d1.wire[|d.wire|..], guest, host)) else {}
  }

  lemma ReplaceAsks(ss: seq<Stream>, k: nat, s: Stream, guest: u32, host: u32)
    requires Keyed(ss) && k < |ss| && s.guest == ss[k].guest && s.host == ss[k].host
    requires Keyed(ss[k := s])
    ensures AsksAt(ss[k := s], guest, host) ==
            if At(ss, guest, host, k) then Asks(s) else AsksAt(ss, guest, host)
  {
    ReplaceTaken(ss, k, s, guest, host);
    if At(ss, guest, host, k) {
      FindsAll(ss, k);
    }
  }

  lemma EraseAsks(ss: seq<Stream>, k: nat, guest: u32, host: u32)
    requires Keyed(ss) && k < |ss| && Find(Erase(ss, k), guest, host) < |ss| - 1
    ensures AsksAt(Erase(ss, k), guest, host) == AsksAt(ss, guest, host)
  {
    var j := Find(Erase(ss, k), guest, host);
    FindsAll(ss, if j < k then j else j + 1);
  }

  lemma InsertAsks(ss: seq<Stream>, s: Stream, guest: u32, host: u32)
    requires Keyed(ss) && Find(ss, s.guest, s.host) == |ss|
    requires Find(Insert(ss, s), guest, host) < |ss| + 1
    ensures AsksAt(Insert(ss, s), guest, host) ==
            AsksAt(ss, guest, host) + if s.guest == guest && s.host == host then Asks(s) else {}
  {
    var k := Place(ss, s.guest, s.host, 0);
    var ss1 := Insert(ss, s);
    var j := Find(ss1, guest, host);
    if j != k {
      var j0 := if j < k then j else j - 1;
      assert ss1[j] == ss[j0];
      FindsAll(ss, j0);
    }
  }

  lemma SendAllAsks(d: Dev, guest: u32, host: u32)
    requires Inv(d, false) && !d.small && Present(SendAll(d), guest, host)
    ensures AsksAt(SendAll(d).streams, guest, host) ==
            AsksAt(d.streams, guest, host) - SentIn(d, SendAll(d), guest, host)
  {
    FitSound(d.streams, d.wire, d.small, false);
    FlushOrdered(d.orphans, d.rx);
    var f := SendOrphans(d.orphans, d.rx);
    forall i | 0 <= i < |f.ps| ensures !IsMine(f.ps[i], guest, host) {
      assert IsOrphan(f.ps[i].hdr.op);
    }
    FilterNone(f.ps, guest, host);
    if f.left != [] {
      assert SendAll(d).wire[|d.wire|..] == f.ps;
    } else {
      var p := SendStreams(d.streams, 0, f.rx);
      assert SendAll(d).wire[|d.wire|..] == f.ps + p.ps;
      FilterAppend(f.ps, p.ps, guest, host);
      assert [] + Filter(p.ps, guest, host) == Filter(p.ps, guest, host);
      PassAsks(d.streams, f.rx, guest, host);
    }
  }

  lemma PassAsks(ss: seq<Stream>, rx: seq<nat>, guest: u32, host: u32)
    requires Keyed(ss) && AllSound(ss, false) && RxOk(rx)
    requires Find(SendStreams(ss, 0, rx).ss, guest, host) < |ss|
    ensures var p := SendStreams(ss, 0, rx);
            AsksAt(p.ss, guest, host) == AsksAt(ss, guest, host) - OpsOf(Filter(p.ps, guest, host))
  {
    var j := Find(SendStreams(ss, 0, rx).ss, guest, host);
    PassServes(ss, 0, rx, j);
    FindsAll(ss, j);
  }

  // ------------------------------------------------------------------ each event

  /** The operations that an event asks a stream to send: the first one when it is made,
      and credit updates when the guest asks for them or sends data that is taken. */
  ghost function AskedBy(d: Dev, e: Event, guest: u32, host: u32): set<Op> {
    match e
    case Connect(g) => if g == guest && host == PortOf(Get(d.ids).1) then {Request} else {}
    case Control(hdr, _, accept) =>
      if hdr.src == guest && hdr.dst == host then AskedByControl(d, hdr, accept) else {}
    case Data(hdr, _, sizes, accepted) =>
      if hdr.src == guest && hdr.dst == host then AskedByData(d, hdr, sizes, accepted) else {}
    case _ => {}
  }

  function AskedByControl(d: Dev, hdr: Header, accept: bool): set<Op> {
    if hdr.op == Request then
      if hdr.dst in d.listeners && !Present(d, hdr.src, hdr.dst) && accept then {Response} else {}
    else if hdr.op == CreditRequest && Present(d, hdr.src, hdr.dst) then {CreditUpdate}
    else {}
  }

  function AskedByData(d: Dev, hdr: Header, sizes: seq<nat>, accepted: nat): set<Op> {
    var k := Find(d.streams, hdr.src, hdr.dst);
    if k < |d.streams| && d.streams[k].connected && sizes != [] && accepted > 0 then {CreditUpdate} else {}
  }

  /** The event accounts for the operations of the stream. */
  ghost predicate Accounted(d: Dev, e: Event, guest: u32, host: u32) {
    AsksAt(Step(d, e).streams, guest, host) ==
    AsksAt(d.streams, guest, host) + AskedBy(d, e, guest, host) - SentIn(d, Step(d, e), guest, host)
  }

  lemma ConnectedAsks(d: Dev, g: u32, guest: u32, host: u32)
    requires Inv(d, false) && Allowed(d, Connect(g)) && Present(Connected(d, g), guest, host)
    ensures AsksAt(Connected(d, g).streams, guest, host) ==
            AsksAt(d.streams, guest, host) + AskedBy(d, Connect(g), guest, host)
  {
    ConnectInserts(d, g);
    var s := Ask(NewStream(g, PortOf(Get(d.ids).1), |d.wire|), Request);
    assert Asks(s) == {Request};
    InsertAsks(d.streams, s, guest, host);
  }

  /** A change that sends nothing has asked for these operations. */
  ghost predicate Changed(d: Dev, d1: Dev, more: set<Op>, guest: u32, host: u32) {
    && Inv(d1, false) && !d1.small && d1.wire == d.wire
    && (Present(d1, guest, host) ==>
          AsksAt(d1.streams, guest, host) == AsksAt(d.streams, guest, host) + more)
  }

  /** Such a change, and then a pass. */
  lemma ThenSend(d: Dev, e: Event, d1: Dev, guest: u32, host: u32)
    requires Step(d, e) == SendAll(d1) && Present(SendAll(d1), guest, host)
    requires Changed(d, d1, AskedBy(d, e, guest, host), guest, host)
    ensures Accounted(d, e, guest, host)
  {
    SendAllPresent(d1, guest, host);
    SendAllAsks(d1, guest, host);
  }

  lemma ConnectChanges(d: Dev, g: u32, guest: u32, host: u32)
    requires Inv(d, false) && !d.small && Allowed(d, Connect(g))
    ensures Changed(d, Connected(d, g), AskedBy(d, Connect(g), guest, host), guest, host)
  {
    ConnectedInv(d, g);
    if Present(Connected(d, g), guest, host) {
      ConnectedAsks(d, g, guest, host);
    }
  }

  lemma ConnectAsks(d: Dev, g: u32, guest: u32, host: u32)
    requires Inv(d, false) && !d.small && Allowed(d, Connect(g)) && Present(Step(d, Connect(g)), guest, host)
    ensures Accounted(d, Connect(g), guest, host)
  {
    ConnectChanges(d, g, guest, host);
    ThenSend(d, Connect(g), Connected(d, g), guest, host);
  }

  lemma ConnectedInv(d: Dev, g: u32)
    requires Inv(d, false) && Allowed(d, Connect(g))
    ensures Inv(Connected(d, g), false)
  {
    var (ids1, id) := Get(d.ids);
    ConnectInserts(d, g);
    ConnectAtKeeps(d, g, ids1, PortOf(id), false);
  }

  lemma NothingSent(d: Dev, d1: Dev, guest: u32, host: u32)
    requires d1.wire == d.wire
    ensures SentIn(d, d1, guest, host) == {}
  {
    assert d.wire[|d.wire|..] == [];
  }

  /** A stream that keeps its ports takes the place of the k-th, and asks for more. */
  lemma SwapAsks(d: Dev, k: nat, s: Stream, more: set<Op>, guest: u32, host: u32)
    requires k < |d.streams| && Inv(d, false) && Inv(Replace(d, k, s), false)
    requires s.guest == d.streams[k].guest && s.host == d.streams[k].host
    requires Asks(s) == Asks(d.streams[k]) + more
    ensures AsksAt(Replace(d, k, s).streams, guest, host) ==
            AsksAt(d.streams, guest, host) + if At(d.streams, guest, host, k) then more else {}
  {
    ReplaceAsks(d.streams, k, s, guest, host);
    if At(d.streams, guest, host, k) {
      FindsAll(d.streams, k);
    }
  }

  lemma TakeChanges(d: Dev, k: nat, data: seq<byte>, guest: u32, host: u32)
    requires Inv(d, false) && !d.small && k < |d.streams|
    ensures Changed(d, Replace(d, k, Take(d.streams[k], data)), {}, guest, host)
  {
    TakeTaken(d, k, data, guest, host);
    SwapAsks(d, k, Take(d.streams[k], data), {}, guest, host);
  }

  lemma AcceptedAsks(d: Dev, g: u32, h: u32, data: seq<byte>, guest: u32, host: u32)
    requires Inv(d, false) && !d.small && Present(Accepted(d, g, h, data), guest, host)
    ensures Accounted(d, SendAsync(g, h, data), guest, host)
  {
    var k := Find(d.streams, g, h);
    if k < |d.streams| && d.streams[k].connected {
      TakeChanges(d, k, data, guest, host);
      ThenSend(d, SendAsync(g, h, data), Replace(d, k, Take(d.streams[k], data)), guest, host);
    } else {
      NothingSent(d, d, guest, host);
    }
  }

  lemma RecycleChanges(d: Dev, k: nat, guest: u32, host: u32)
    requires Inv(d, false) && !d.small && k < |d.streams|
    ensures Changed(d, Recycle(d, k, Shutdown), {}, guest, host)
  {
    RecycleKeeps(d, k, Shutdown, false);
    if Present(Recycle(d, k, Shutdown), guest, host) {
      EraseAsks(d.streams, k, guest, host);
    }
  }

  lemma UnpluggedAsks(d: Dev, g: u32, h: u32, guest: u32, host: u32)
    requires Inv(d, false) && !d.small && Present(Unplugged(d, g, h), guest, host)
    ensures Accounted(d, Unplug(g, h), guest, host)
  {
    var k := Find(d.streams, g, h);
    if k < |d.streams| {
      RecycleChanges(d, k, guest, host);
      ThenSend(d, Unplug(g, h), Recycle(d, k, Shutdown), guest, host);
    } else {
      NothingSent(d, d, guest, host);
    }
  }

  /** What a stream is asked by a control packet that leaves it open. */
  function MoreAsked(op: Op): set<Op> {
    if op == CreditRequest then {CreditUpdate} else {}
  }

  lemma ControlsAsk(d: Dev, hdr: Header, taken: nat, accept: bool, guest: u32, host: u32)
    requires Inv(d, false) && hdr.op != Request && Present(Controls(d, hdr, taken), guest, host)
    ensures AsksAt(Controls(d, hdr, taken).streams, guest, host) ==
            AsksAt(d.streams, guest, host) +
            if hdr.src == guest && hdr.dst == host then AskedByControl(d, hdr, accept) else {}
  {
    var k := Find(d.streams, hdr.src, hdr.dst);
    if k < |d.streams| {
      assert At(d.streams, guest, host, k) <==> hdr.src == guest && hdr.dst == host;
      StreamControl(d, k, hdr, taken, guest, host);
    }
  }

  /** A control packet for the k-th stream. */
  lemma StreamControl(d: Dev, k: nat, hdr: Header, taken: nat, guest: u32, host: u32)
    requires Inv(d, false) && k < |d.streams| && k == Find(d.streams, hdr.src, hdr.dst)
    requires Present(Controls(d, hdr, taken), guest, host)
    ensures AsksAt(Controls(d, hdr, taken).streams, guest, host) ==
            AsksAt(d.streams, guest, host) + if At(d.streams, guest, host, k) then MoreAsked(hdr.op) else {}
  {
    UpdateKeeps(d, k, hdr, taken, false);
    var s := Update(d.streams[k], hdr, taken);
    var d1 := Replace(d, k, s);
    SwapAsks(d, k, s, {}, guest, host);
    OneControl(d1, k, hdr.op, guest, host);
    assert At(d1.streams, guest, host, k) <==> At(d.streams, guest, host, k);
  }

  lemma OneControl(d: Dev, k: nat, op: Op, guest: u32, host: u32)
    requires Inv(d, false) && k < |d.streams|
    ensures Find(Replace(d, k, Answered(d.streams[k], op)).streams, guest, host) < |d.streams| ==>
            AsksAt(Replace(d, k, Answered(d.streams[k], op)).streams, guest, host) ==
            AsksAt(d.streams, guest, host) + if At(d.streams, guest, host, k) then MoreAsked(op) else {}
    ensures Find(Erase(d.streams, k), guest, host) < |d.streams| - 1 ==>
            AsksAt(Erase(d.streams, k), guest, host) == AsksAt(d.streams, guest, host) &&
            !At(d.streams, guest, host, k)
  {
    AnswerKeeps(d, k, op, false);
    SwapAsks(d, k, Answered(d.streams[k], op), MoreAsked(op), guest, host);
    if Find(Erase(d.streams, k), guest, host) < |d.streams| - 1 {
      EraseAsks(d.streams, k, guest, host);
      var j := Find(Erase(d.streams, k), guest, host);
      var x, y := if j < k then j else k, if j < k then k else j + 1;
      assert Before(d.streams[x].guest, d.streams[x].host, d.streams[y].guest, d.streams[y].host);
    }
  }

  lemma RequestedAsks(d: Dev, hdr: Header, taken: nat, accept: bool, guest: u32, host: u32)
    requires Inv(d, false) && hdr.op == Request && Present(Requested(d, hdr, taken, accept), guest, host)
    ensures AsksAt(Requested(d, hdr, taken, accept).streams, guest, host) ==
            AsksAt(d.streams, guest, host) +
            if hdr.src == guest && hdr.dst == host then AskedByControl(d, hdr, accept) else {}
  {
    if hdr.dst in d.listeners && Find(d.streams, hdr.src, hdr.dst) == |d.streams| && accept {
      var s: Stream := Update(NewStream(hdr.src, hdr.dst, |d.wire|), hdr, taken).(connected := true);
      assert Asks(Ask(s, Response)) == {Response};
      InsertAsks(d.streams, Ask(s, Response), guest, host);
    }
  }

  lemma {:induction false} ReceiveAsks(s: Stream, sizes: seq<nat>, accepted: nat)
    ensures Asks(Receive(s, sizes, accepted).0) ==
            Asks(s) + if s.connected && sizes != [] && accepted > 0 then {CreditUpdate} else {}
    decreases accepted
  {
    if sizes != [] && s.connected && accepted > 0 {
      ReceiveAsks(TookPiece(s, sizes[0]), sizes[1..], accepted - 1);
    }
  }

  lemma ReceivedAsks(d: Dev, hdr: Header, taken: nat, sizes: seq<nat>, accepted: nat, guest: u32, host: u32)
    requires Inv(d, false) && Present(Received(d, hdr, taken, sizes, accepted), guest, host)
    ensures AsksAt(Received(d, hdr, taken, sizes, accepted).streams, guest, host) ==
            AsksAt(d.streams, guest, host) +
            if hdr.src == guest && hdr.dst == host then AskedByData(d, hdr, sizes, accepted) else {}
  {
    var k := Find(d.streams, hdr.src, hdr.dst);
    if k < |d.streams| {
      UpdateKeeps(d, k, hdr, taken, false);
      var s0 := Update(d.streams[k], hdr, taken);
      ReceiveKeeps(s0, sizes, accepted);
      ReceiveAsks(s0, sizes, accepted);
      var s := Receive(s0, sizes, accepted).0;
      ReplaceKeeps(d, k, s, false);
      SwapAsks(d, k, s, AskedByData(d, hdr, sizes, accepted), guest, host);
      OneControl(Replace(d, k, s), k, Unknown, guest, host);
      assert At(d.streams, guest, host, k) <==> hdr.src == guest && hdr.dst == host;
    }
  }

  lemma GuestAsks(d: Dev, e: Event, guest: u32, host: u32)
    requires Inv(d, false) && (e.Control? || e.Data?) && Present(Step(d, e), guest, host)
    ensures AsksAt(Step(d, e).streams, guest, host) ==
            AsksAt(d.streams, guest, host) + AskedBy(d, e, guest, host)
  {
    if e.Data? {
      ReceivedAsks(d, e.hdr, e.taken, e.sizes, e.accepted, guest, host);
    } else if e.hdr.op == Request {
      RequestedAsks(d, e.hdr, e.taken, e.accept, guest, host);
    } else {
      ControlsAsk(d, e.hdr, e.taken, e.accept, guest, host);
    }
  }

  /** The events that send nothing. */
  lemma QuietWire(d: Dev, e: Event)
    requires e.Listen? || e.Control? || e.Data? || e.AddRx?
    ensures Step(d, e).wire == d.wire
  {
  }

  lemma GuestAccounted(d: Dev, e: Event, guest: u32, host: u32)
    requires Inv(d, false) && (e.Control? || e.Data?) && Present(Step(d, e), guest, host)
    ensures Accounted(d, e, guest, host)
  {
    QuietWire(d, e);
    NothingSent(d, Step(d, e), guest, host);
    GuestAsks(d, e, guest, host);
  }

  lemma OtherAccounted(d: Dev, e: Event, guest: u32, host: u32)
    requires e.Listen? || e.AddRx?
    ensures Accounted(d, e, guest, host)
  {
    NothingSent(d, Step(d, e), guest, host);
  }

  lemma PollAsks(d: Dev, guest: u32, host: u32)
    requires Inv(d, false) && !d.small && Present(SendAll(d), guest, host)
    ensures Accounted(d, Poll, guest, host)
  {
    SendAllAsks(d, guest, host);
  }

  lemma StepAsks(d: Dev, e: Event, guest: u32, host: u32)
    requires Inv(d, false) && Allowed(d, e) && !d.small && Present(Step(d, e), guest, host)
    ensures Accounted(d, e, guest, host)
  {
    match e
    case Connect(g) => ConnectAsks(d, g, guest, host);
    case SendAsync(g, h, data) => AcceptedAsks(d, g, h, data, guest, host);
    case Unplug(g, h) => UnpluggedAsks(d, g, h, guest, host);
    case Poll => PollAsks(d, guest, host);
    case Control(_, _, _) => GuestAccounted(d, e, guest, host);
    case Data(_, _, _, _) => GuestAccounted(d, e, guest, host);
    case _ => OtherAccounted(d, e, guest, host);
  }

  // -------------------------------------------------------------------- all runs

  /** The operations that the events of the run asked the stream with these ports to
      send since it was made, and that did not go over the wire since. */
  ghost function Due(es: seq<Event>, guest: u32, host: u32): set<Op> {
    if es == [] || !Present(Run(es), guest, host) then {}
    else
      var before := es[..|es| - 1];
      Due(before, guest, host) + AskedBy(Run(before), es[|es| - 1], guest, host)
      - SentIn(Run(before), Run(es), guest, host)
  }

  lemma StaysSmall(d: Dev, e: Event)
    ensures d.small ==> Step(d, e).small
  {
  }

  lemma {:induction false} DueIsAsked(es: seq<Event>, guest: u32, host: u32)
    requires AllowedRun(es) && !Run(es).small
    ensures AsksAt(Run(es).streams, guest, host) == Due(es, guest, host)
    decreases |es|
  {
    if es != [] && Present(Run(es), guest, host) {
      var before := es[..|es| - 1];
      StaysSmall(Run(before), es[|es| - 1]);
      DueIsAsked(before, guest, host);
      RunKeeps(before, false);
      StepAsks(Run(before), es[|es| - 1], guest, host);
    }
  }

  /** In every run with receive buffers that hold a header, the pending operations of a
      stream are exactly those that were asked for and not sent since; a credit request
      may be pending besides. */
  lemma NothingForgotten(es: seq<Event>, j: nat)
    requires AllowedRun(es) && j < |Run(es).streams| && !Run(es).small
    ensures var s := Run(es).streams[j];
            s.mask - {CreditRequest} == Due(es, s.guest, s.host)
  {
    RunKeeps(es, false);
    var ss := Run(es).streams;
    DueIsAsked(es, ss[j].guest, ss[j].host);
    FindsAll(ss, j);
  }
}
