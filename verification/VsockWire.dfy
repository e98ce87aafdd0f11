/** What the guest finds in its receive buffers: which packet lies in which buffer, what
    the packets tell of the bytes received, and that sending stops only when there is
    nothing to send or no buffer (emulator/plugin/vsock_goldfish/vsock.cpp,
    vsock_low_level.c). */
module VsockWire {
  import opened Arithmetic
  import opened Bytes
  import opened PortIds
  import opened VsockStream
  import opened VsockPass
  import opened VsockRuns
  import opened VsockHistory
  import opened VsockRequests
  import opened VsockLinks

  // --------------------------------------------------- one buffer for each packet

  /** The packets lie in the first buffers, one in each, and the others are left. */
  ghost predicate Filled(rx: seq<nat>, ps: seq<Packet>, rx1: seq<nat>) {
    && |ps| <= |rx| && rx1 == rx[|ps|..]
    && forall i :: 0 <= i < |ps| ==> HEADER + |ps[i].payload| <= rx[i]
  }

  lemma FilledTwice(rx: seq<nat>, ps: seq<Packet>, rx1: seq<nat>, qs: seq<Packet>, rx2: seq<nat>)
    requires Filled(rx, ps, rx1) && Filled(rx1, qs, rx2)
    ensures Filled(rx, ps + qs, rx2)
  {
    forall i | 0 <= i < |ps + qs| ensures HEADER + |(ps + qs)[i].payload| <= rx[i] {
      if i >= |ps| {
        assert (ps + qs)[i] == qs[i - |ps|] && rx[i] == rx1[i - |ps|];
      }
    }
  }

  lemma {:induction false} SendFilled(rx: seq<nat>, hdr: Header, data: seq<byte>)
    requires RxOk(rx)
    ensures var r := Send(rx, hdr, data); Filled(rx, r.ps, r.rx) && RxOk(r.rx)
    decreases |rx|
  {
    if rx != [] && |data| > rx[0] - HEADER {
      var size := rx[0] - HEADER;
      SendFilled(rx[1..], hdr, data[size..]);
      var r := Send(rx[1..], hdr, data[size..]);
      FilledTwice(rx, [Packet(hdr, data[..size])], rx[1..], r.ps, r.rx);
    }
  }

  lemma {:induction false} OpsFilled(s: Stream, rx: seq<nat>, i: nat)
    requires i <= |Order()| && RxOk(rx)
    ensures var t := SendOps(s, rx, i); Filled(rx, t.ps, t.rx) && RxOk(t.rx)
    decreases |Order()| - i
  {
    if i < |Order()| {
      if Order()[i] !in s.mask {
        OpsFilled(s, rx, i + 1);
      } else {
        var r := Send(rx, HeaderOf(s, Order()[i]), []);
        SendFilled(rx, HeaderOf(s, Order()[i]), []);
        ControlLost(rx, HeaderOf(s, Order()[i]));
        if !r.full {
          var s1 := SentOp(s, Order()[i], r.ps);
          OpsFilled(s1, r.rx, i + 1);
          var t := SendOps(s1, r.rx, i + 1);
          FilledTwice(rx, r.ps, r.rx, t.ps, t.rx);
        }
      }
    }
  }

  lemma ChunkFilled(s: Stream, rx: seq<nat>, avail: nat)
    requires RxOk(rx)
    ensures var r := SendChunk(s, rx, avail); Filled(rx, r.ps, r.rx) && RxOk(r.rx)
    ensures SendChunk(s, rx, avail).full ==> SendChunk(s, rx, avail).rx == []
  {
    var chunk := Rest(s)[..if |Rest(s)| < avail then |Rest(s)| else avail];
    SendFilled(rx, HeaderOf(s, Rw), chunk);
    SendPlaces(rx, HeaderOf(s, Rw), chunk);
  }

  lemma {:induction false} DataFilled(s: Stream, rx: seq<nat>, avail: nat)
    requires RxOk(rx)
    ensures var t := SendData(s, rx, avail); Filled(rx, t.ps, t.rx) && RxOk(t.rx)
    decreases |rx|
  {
    if avail != 0 && Rest(s) != [] {
      var r := SendChunk(s, rx, avail);
      ChunkFilled(s, rx, avail);
      if !r.full {
        var s1, left: nat := SentData(s, r.ps), avail - Reported(|Payload(r.ps)|);
        DataFilled(s1, r.rx, left);
        var t := SendData(s1, r.rx, left);
        FilledTwice(rx, r.ps, r.rx, t.ps, t.rx);
      }
    }
  }

  lemma StreamFilled(s: Stream, rx: seq<nat>)
    requires RxOk(rx)
    ensures var t := SendStream(s, rx); Filled(rx, t.ps, t.rx) && RxOk(t.rx)
  {
    var s0 := if Window(s) == 0 then Ask(s, CreditRequest) else s;
    OpsSame(s0, rx, 0);
    OpsFilled(s0, rx, 0);
    var t := SendOps(s0, rx, 0);
    if !t.full {
      DataFilled(t.s, t.rx, Window(s));
      var u := SendData(t.s, t.rx, Window(s));
      FilledTwice(rx, t.ps, t.rx, u.ps, u.rx);
    }
  }

  lemma {:induction false} OrphansFilled(hs: seq<Header>, rx: seq<nat>)
    requires RxOk(rx)
    ensures var f := SendOrphans(hs, rx); Filled(rx, f.ps, f.rx) && RxOk(f.rx)
    decreases |hs|
  {
    if hs != [] {
      var r := Send(rx, hs[0], []);
      SendFilled(rx, hs[0], []);
      ControlLost(rx, hs[0]);
      if !r.full {
        OrphansFilled(hs[1..], r.rx);
        var f := SendOrphans(hs[1..], r.rx);
        FilledTwice(rx, r.ps, r.rx, f.ps, f.rx);
      }
    }
  }

  lemma {:induction false} PassFilled(ss: seq<Stream>, i: nat, rx: seq<nat>)
    requires i <= |ss| && RxOk(rx)
    ensures var p := SendStreams(ss, i, rx); Filled(rx, p.ps, p.rx)
    decreases |ss| - i
  {
    if i < |ss| {
      StreamFilled(ss[i], rx);
      var t := SendStream(ss[i], rx);
      if !t.full {
        PassFilled(Turned(ss, i, rx), i + 1, t.rx);
        var p := SendStreams(Turned(ss, i, rx), i + 1, t.rx);
        FilledTwice(rx, t.ps, t.rx, p.ps, p.rx);
      }
    }
  }

  /** What a step adds to the wire lies in the buffers it takes. */
  ghost predicate Placed(d: Dev, d1: Dev) {
    d.wire <= d1.wire && Filled(d.rx, d1.wire[|d.wire|..], d1.rx)
  }

  lemma SendAllPlaced(d: Dev)
    requires RxOk(d.rx)
    ensures Placed(d, SendAll(d))
  {
    OrphansFilled(d.orphans, d.rx);
    var f := SendOrphans(d.orphans, d.rx);
    if f.left != [] {
      assert SendAll(d).wire[|d.wire|..] == f.ps;
    } else {
      PassFilled(d.streams, 0, f.rx);
      var p := SendStreams(d.streams, 0, f.rx);
      FilledTwice(d.rx, f.ps, f.rx, p.ps, p.rx);
      assert SendAll(d).wire[|d.wire|..] == f.ps + p.ps;
    }
  }

  lemma NothingPlaced(d: Dev, d1: Dev)
    requires d1.wire == d.wire && d1.rx == d.rx
    ensures Placed(d, d1)
  {
    assert d.wire[|d.wire|..] == [];
  }

  /** The change that an event makes before the device sends, if it sends. */
  ghost function Prepared(d: Dev, e: Event): Dev {
    match e
    case Connect(g) => Connected(d, g)
    case SendAsync(g, h, data) =>
      var k := Find(d.streams, g, h);
      if k < |d.streams| && d.streams[k].connected then Replace(d, k, Take(d.streams[k], data)) else d
    case Unplug(g, h) =>
      var k := Find(d.streams, g, h);
      if k < |d.streams| then Recycle(d, k, Shutdown) else d
    case Poll => d
    case _ => Step(d, e)
  }

  /** The events after which the device sends. */
  ghost predicate Sends(d: Dev, e: Event) {
    match e
    case Connect(_) => true
    case SendAsync(g, h, _) => Present(d, g, h) && d.streams[Find(d.streams, g, h)].connected
    case Unplug(g, h) => Present(d, g, h)
    case Poll => true
    case _ => false
  }

  lemma StepIs(d: Dev, e: Event)
    ensures Step(d, e) == if Sends(d, e) then SendAll(Prepared(d, e)) else Prepared(d, e)
  {
  }

  /** Before it sends, an event leaves the wire alone, and the buffers but for a new one. */
  lemma PreparedQuiet(d: Dev, e: Event)
    ensures Prepared(d, e).wire == d.wire
    ensures Prepared(d, e).rx == if e.AddRx? then d.rx + [e.size] else d.rx
    ensures Prepared(d, e).small <==> d.small || (e.AddRx? && e.size < 44)
  {
    if e.Control? || e.Data? {
      GuestQuiet(d, e);
    }
  }

  lemma GuestQuiet(d: Dev, e: Event)
    requires e.Control? || e.Data?
    ensures Step(d, e).wire == d.wire && Step(d, e).rx == d.rx && Step(d, e).small == d.small
  {
    match e
    case Control(hdr, taken, accept) =>
      if hdr.op == Request {
        RequestQuiet(d, hdr, taken, accept);
      } else {
        ControlQuiet(d, hdr, taken);
      }
    case Data(hdr, taken, sizes, accepted) => DataQuiet(d, hdr, taken, sizes, accepted);
  }

  lemma RequestQuiet(d: Dev, hdr: Header, taken: nat, accept: bool)
    ensures var d1 := Requested(d, hdr, taken, accept); d1.wire == d.wire && d1.rx == d.rx && d1.small == d.small
  {
  }

  lemma ControlQuiet(d: Dev, hdr: Header, taken: nat)
    ensures var d1 := Controls(d, hdr, taken); d1.wire == d.wire && d1.rx == d.rx && d1.small == d.small
  {
  }

  lemma DataQuiet(d: Dev, hdr: Header, taken: nat, sizes: seq<nat>, accepted: nat)
    ensures var d1 := Received(d, hdr, taken, sizes, accepted);
            d1.wire == d.wire && d1.rx == d.rx && d1.small == d.small
  {
  }

  lemma PreparedInv(d: Dev, e: Event)
    requires Inv(d, false) && Allowed(d, e)
    ensures Inv(Prepared(d, e), false)
  {
    match e
    case Connect(g) => ConnectedInv(d, g);
    case SendAsync(g, h, data) =>
      var k := Find(d.streams, g, h);
      if k < |d.streams| && d.streams[k].connected {
        TakeTaken(d, k, data, g, h);
      }
    case Unplug(g, h) =>
      var k := Find(d.streams, g, h);
      if k < |d.streams| {
        RecycleKeeps(d, k, Shutdown, false);
      }
    case Poll =>
    case _ => StepKeeps(d, e, false);
  }

  lemma SendAllSmall(d: Dev)
    ensures SendAll(d).small == d.small
  {
  }

  // ------------------------------------------------------------------- over runs

  /** The receive buffers that the guest has offered, in order. */
  function Buffers(es: seq<Event>): seq<nat> {
    if es == [] then []
    else
      var e := es[|es| - 1];
      Buffers(es[..|es| - 1]) + if e.AddRx? then [e.size] else []
  }

  lemma OneMore(all: seq<nat>, ps: seq<Packet>, rx: seq<nat>, more: seq<nat>)
    requires Filled(all, ps, rx)
    ensures Filled(all + more, ps, rx + more)
  {
    assert (all + more)[|ps|..] == all[|ps|..] + more;
  }

  lemma StepFilled(d: Dev, e: Event, all: seq<nat>)
    requires Inv(d, false) && Allowed(d, e) && !Step(d, e).small && Filled(all, d.wire, d.rx)
    ensures var d1 := Step(d, e);
            Filled(all + if e.AddRx? then [e.size] else [], d1.wire, d1.rx)
  {
    var d1, more := Prepared(d, e), if e.AddRx? then [e.size] else [];
    StepIs(d, e);
    PreparedQuiet(d, e);
    assert d1.rx == d.rx + more;
    OneMore(all, d.wire, d.rx, more);
    if Sends(d, e) {
      PreparedInv(d, e);
      SendAllSmall(d1);
      SendAllPlaced(d1);
      var d2 := SendAll(d1);
      FilledTwice(all + more, d1.wire, d1.rx, d2.wire[|d1.wire|..], d2.rx);
      assert d2.wire == d1.wire + d2.wire[|d1.wire|..];
    }
  }

  /** In every run, some buffer was too small for a header exactly when the guest offered
      such a one. */
  lemma {:induction false} SmallExactly(es: seq<Event>)
    ensures Run(es).small <==> HasSmall(Buffers(es))
    decreases |es|
  {
    if es != [] {
      SmallExactly(es[..|es| - 1]);
      SmallStep(Run(es[..|es| - 1]), es[|es| - 1], Buffers(es[..|es| - 1]));
    }
  }

  predicate HasSmall(all: seq<nat>) {
    exists i :: 0 <= i < |all| && all[i] < 44
  }

  /** In every run without such a buffer, the n-th packet on the wire lies in the n-th
      buffer offered and has room in it, and the buffers left are those offered after. */
  lemma {:induction false} BuffersInOrder(es: seq<Event>)
    requires AllowedRun(es) && !HasSmall(Buffers(es))
    ensures Filled(Buffers(es), Run(es).wire, Run(es).rx)
    decreases |es|
  {
    if es != [] {
      var before, e := es[..|es| - 1], es[|es| - 1];
      FewerSmall(Buffers(before), if e.AddRx? then [e.size] else []);
      BuffersInOrder(before);
      RunKeeps(before, false);
      SmallExactly(es);
      StepFilled(Run(before), e, Buffers(before));
    }
  }

  lemma FewerSmall(a: seq<nat>, b: seq<nat>)
    requires !HasSmall(a + b)
    ensures !HasSmall(a)
  {
    forall i | 0 <= i < |a| ensures a[i] >= 44 {
      assert (a + b)[i] == a[i];
    }
  }

  lemma SmallStep(d: Dev, e: Event, all: seq<nat>)
    requires d.small <==> HasSmall(all)
    ensures Step(d, e).small <==> HasSmall(all + if e.AddRx? then [e.size] else [])
  {
    StepIs(d, e);
    PreparedQuiet(d, e);
    SendAllSmall(Prepared(d, e));
    var all1 := all + if e.AddRx? then [e.size] else [];
    if i :| 0 <= i < |all| && all[i] < 44 {
      assert all1[i] < 44;
    }
    if e.AddRx? {
      assert all1[|all|] == e.size;
    }
  }

  // --------------------------------------------------------- nothing is held back

  lemma {:induction false} OpsFull(s: Stream, rx: seq<nat>, i: nat)
    requires i <= |Order()|
    ensures SendOps(s, rx, i).full ==> SendOps(s, rx, i).rx == []
    decreases |Order()| - i
  {
    if i < |Order()| {
      if Order()[i] !in s.mask {
        OpsFull(s, rx, i + 1);
      } else {
        var r := Send(rx, HeaderOf(s, Order()[i]), []);
        SendPlaces(rx, HeaderOf(s, Order()[i]), []);
        if !r.full {
          OpsFull(SentOp(s, Order()[i], r.ps), r.rx, i + 1);
        }
      }
    }
  }

  lemma {:induction false} DataFull(s: Stream, rx: seq<nat>, avail: nat)
    ensures SendData(s, rx, avail).full ==> SendData(s, rx, avail).rx == []
    decreases |rx|
  {
    if avail != 0 && Rest(s) != [] {
      var r := SendChunk(s, rx, avail);
      SendPlaces(rx, HeaderOf(s, Rw), Rest(s)[..if |Rest(s)| < avail then |Rest(s)| else avail]);
      if !r.full {
        DataFull(SentData(s, r.ps), r.rx, avail - Reported(|Payload(r.ps)|));
      }
    }
  }

  lemma StreamFull(s: Stream, rx: seq<nat>)
    ensures SendStream(s, rx).full ==> SendStream(s, rx).rx == []
  {
    var s0 := if Window(s) == 0 then Ask(s, CreditRequest) else s;
    OpsSame(s0, rx, 0);
    OpsFull(s0, rx, 0);
    var t := SendOps(s0, rx, 0);
    if !t.full {
      DataFull(t.s, t.rx, Window(s));
    }
  }

  lemma {:induction false} PassFull(ss: seq<Stream>, i: nat, rx: seq<nat>)
    requires i <= |ss|
    ensures SendStreams(ss, i, rx).full ==> SendStreams(ss, i, rx).rx == []
    decreases |ss| - i
  {
    if i < |ss| {
      StreamFull(ss[i], rx);
      if !SendStream(ss[i], rx).full {
        PassFull(Turned(ss, i, rx), i + 1, SendStream(ss[i], rx).rx);
      }
    }
  }

  lemma {:induction false} OrphansFull(hs: seq<Header>, rx: seq<nat>)
    ensures SendOrphans(hs, rx).left != [] ==> SendOrphans(hs, rx).rx == []
    decreases |hs|
  {
    if hs != [] {
      var r := Send(rx, hs[0], []);
      ControlLost(rx, hs[0]);
      if !r.full {
        OrphansFull(hs[1..], r.rx);
      }
    }
  }

  /** Nothing waits: no orphan packet, and of no stream an operation, or data that its
      guest has room for. */
  ghost predicate NothingWaits(d: Dev) {
    && d.orphans == []
    && forall j :: 0 <= j < |d.streams| ==> d.streams[j].mask == {} && Drained(d.streams[j])
  }

  lemma SendAllDrains(d: Dev)
    requires Inv(d, false)
    ensures SendAll(d).rx == [] || NothingWaits(SendAll(d))
  {
    FitSound(d.streams, d.wire, d.small, false);
    OrphansFull(d.orphans, d.rx);
    var f := SendOrphans(d.orphans, d.rx);
    if f.left == [] {
      PassFull(d.streams, 0, f.rx);
      var p := SendStreams(d.streams, 0, f.rx);
      if p.rx != [] {
        forall j | 0 <= j < |p.ss| ensures p.ss[j].mask == {} && Drained(p.ss[j]) {
          PassDrains(d.streams, 0, f.rx, j);
        }
      }
    }
  }

  /** The events of the host side after which the device sends: each connect, data handed
      to a connected stream, the unplugging of a stream, and the guest's sign that it has
      new buffers. */
  ghost predicate SendsAfter(es: seq<Event>, e: Event) {
    match e
    case Connect(_) => true
    case SendAsync(g, h, _) => LinkOf(es, g, h).Up? && LinkOf(es, g, h).connected
    case Unplug(g, h) => LinkOf(es, g, h).Up?
    case Poll => true
    case _ => false
  }

  /** In every run, after each such event nothing waits as long as there are buffers. */
  lemma NothingHeldBack(es: seq<Event>)
    requires AllowedRun(es) && es != [] && SendsAfter(es[..|es| - 1], es[|es| - 1])
    ensures Run(es).rx == [] || NothingWaits(Run(es))
  {
    var before, e := es[..|es| - 1], es[|es| - 1];
    RunKeeps(before, false);
    SendsIs(before, e);
    StepIs(Run(before), e);
    PreparedInv(Run(before), e);
    SendAllDrains(Prepared(Run(before), e));
  }

  lemma SendsIs(es: seq<Event>, e: Event)
    requires AllowedRun(es)
    ensures Sends(Run(es), e) <==> SendsAfter(es, e)
  {
    match e
    case SendAsync(g, h, _) => LinksExactly(es, g, h);
    case Unplug(g, h) => LinksExactly(es, g, h);
    case _ =>
  }

  /** A connect puts its request on the wire unless the buffers run out. */
  lemma ConnectSends(es: seq<Event>, g: u32)
    requires AllowedRun(es + [Connect(g)]) && !Run(es + [Connect(g)]).small && Run(es + [Connect(g)]).rx != []
    ensures var d, d1 := Run(es), Run(es + [Connect(g)]);
            exists i :: |d.wire| <= i < |d1.wire| && d1.wire[i].hdr.op == Request
                        && d1.wire[i].hdr.dst == g && d1.wire[i].hdr.src == NextPort(es)
  {
    var all := es + [Connect(g)];
    assert all[..|es|] == es;
    var d, d1, port := Run(es), Run(all), NextPort(es);
    NothingHeldBack(all);
    RunKeeps(es, false);
    RunKeeps(all, false);
    LinksExactly(all, g, port);
    StaysSmall(d, Connect(g));
    StepAsks(d, Connect(g), g, port);
    assert AsksAt(d1.streams, g, port) == {};
    assert Request in SentIn(d, d1, g, port);
    InFilter(d1.wire[|d.wire|..], g, port, Request);
  }

  lemma {:induction false} InFilter(ps: seq<Packet>, g: u32, h: u32, op: Op)
    requires op in OpsOf(Filter(ps, g, h))
    ensures exists i :: 0 <= i < |ps| && IsMine(ps[i], g, h) && ps[i].hdr.op == op
    decreases |ps|
  {
    var n := |ps| - 1;
    var rest := Filter(ps[..n], g, h);
    if op in OpsOf(rest) {
      InFilter(ps[..n], g, h, op);
    } else if IsMine(ps[n], g, h) {
      OpsAppend(rest, [ps[n]]);
      OneOp(ps[n]);
    }
  }

  // ---------------------------------------------------- what the packets tell

  /** The packet is one of these streams' and tells what that stream has received. */
  ghost predicate From(ss: seq<Stream>, p: Packet) {
    exists j :: 0 <= j < |ss| && FromOne(ss[j], p)
  }

  predicate FromOne(s: Stream, p: Packet) {
    IsMine(p, s.guest, s.host) && Tells(p.hdr, s.hostFwd)
  }

  lemma SameFrom(ss: seq<Stream>, ss1: seq<Stream>, p: Packet)
    requires |ss1| == |ss| && From(ss, p) && forall j :: 0 <= j < |ss| ==> Same(ss[j], ss1[j])
    ensures From(ss1, p)
  {
    var j :| 0 <= j < |ss| && FromOne(ss[j], p);
    assert FromOne(ss1[j], p);
  }

  lemma {:induction false} PassFrom(ss: seq<Stream>, i: nat, rx: seq<nat>, n: nat)
    requires i <= |ss| && Keyed(ss) && AllSound(ss, false) && n < |SendStreams(ss, i, rx).ps|
    ensures From(ss, SendStreams(ss, i, rx).ps[n])
    decreases |ss| - i
  {
    if i < |ss| {
      var t, ss1 := SendStream(ss[i], rx), Turned(ss, i, rx);
      assert Sound(ss[i]);
      StreamKeeps(ss[i], rx, false);
      if n < |t.ps| {
        assert FromOne(ss[i], t.ps[n]);
      } else {
        TurnKeeps(ss, i, rx, false);
        PassFrom(ss1, i + 1, t.rx, n - |t.ps|);
        SameFrom(ss1, ss, SendStreams(ss1, i + 1, t.rx).ps[n - |t.ps|]);
      }
    }
  }

  /** A packet of a pass is from one of the streams as the pass leaves them. */
  lemma PassLeaves(ss: seq<Stream>, rx: seq<nat>, n: nat)
    requires Keyed(ss) && AllSound(ss, false) && n < |SendStreams(ss, 0, rx).ps|
    ensures From(SendStreams(ss, 0, rx).ss, SendStreams(ss, 0, rx).ps[n])
  {
    var p := SendStreams(ss, 0, rx);
    PassFrom(ss, 0, rx, n);
    forall j | 0 <= j < |ss| ensures Same(ss[j], p.ss[j]) {
      PassMoves(ss, 0, rx, false, j);
    }
    SameFrom(ss, p.ss, p.ps[n]);
  }

  lemma SendAllWire(d: Dev, k: nat)
    requires |d.wire| + k < |SendAll(d).wire|
    ensures var f := SendOrphans(d.orphans, d.rx);
            var p := SendStreams(d.streams, 0, f.rx);
            if k < |f.ps| then SendAll(d).wire[|d.wire| + k] == f.ps[k]
            else f.left == [] && k - |f.ps| < |p.ps| && SendAll(d).wire[|d.wire| + k] == p.ps[k - |f.ps|]
                 && SendAll(d).streams == p.ss
  {
  }

  lemma SendAllFrom(d: Dev, n: nat)
    requires Inv(d, false) && |d.wire| <= n < |SendAll(d).wire|
    ensures IsOrphan(SendAll(d).wire[n].hdr.op) || From(SendAll(d).streams, SendAll(d).wire[n])
  {
    FlushOrdered(d.orphans, d.rx);
    SendAllWire(d, n - |d.wire|);
    var f, k := SendOrphans(d.orphans, d.rx), n - |d.wire|;
    if k >= |f.ps| {
      FitSound(d.streams, d.wire, d.small, false);
      PassLeaves(d.streams, f.rx, k - |f.ps|);
    }
  }

  /** In every run, a packet that a stream puts on the wire tells the guest the buffer size
      of the host, and the bytes received of the stream so far, modulo 2^32. */
  lemma PacketsTell(es: seq<Event>, n: nat)
    requires AllowedRun(es) && es != [] && |Run(es[..|es| - 1]).wire| <= n < |Run(es).wire|
    ensures var hdr := Run(es).wire[n].hdr;
            hdr.op !in {Rst, Shutdown} ==>
              var l := LinkOf(es, hdr.dst, hdr.src);
              l.Up? && hdr.bufAlloc == 0x1_0000 && hdr.fwdCnt == l.received % 0x1_0000_0000
  {
    var before, e := es[..|es| - 1], es[|es| - 1];
    RunKeeps(before, false);
    RunKeeps(es, false);
    StepIs(Run(before), e);
    PreparedQuiet(Run(before), e);
    PreparedInv(Run(before), e);
    SendAllFrom(Prepared(Run(before), e), n);
    var hdr, ss := Run(es).wire[n].hdr, Run(es).streams;
    if hdr.op !in {Rst, Shutdown} {
      var j :| 0 <= j < |ss| && FromOne(ss[j], Run(es).wire[n]);
      LinksExactly(es, hdr.dst, hdr.src);
      FindOnly(ss, hdr.dst, hdr.src, j);
    }
  }
}
