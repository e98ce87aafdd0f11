/** The vsock device's set of streams, its dynamic ports, and one pass of sending over
    all streams (emulator/plugin/vsock_goldfish/vsock.cpp). */
module VsockPass {
  import opened Arithmetic
  import opened Bytes
  import opened PortIds
  import opened VsockStream

  /** kDynamicPortsStart. */
  const DYNAMIC: nat := 0x8000_0000

  /** The device and the receive buffers it was offered; beside them, all packets sent
      so far, all orphan packets ever queued, and whether some receive buffer was too
      small for a header. */
  datatype Dev = Dev(
    ids: Ids, listeners: set<u32>, orphans: seq<Header>, streams: seq<Stream>,
    rx: seq<nat>, wire: seq<Packet>, queued: seq<Header>, small: bool)

  // ---------------------------------------------------------- the set of streams

  /** VsockStreamComparer. */
  predicate Before(guest: u32, host: u32, guest1: u32, host1: u32) {
    guest < guest1 || (guest == guest1 && host < host1)
  }

  predicate Keyed(ss: seq<Stream>) {
    forall i, j {:trigger Before(ss[i].guest, ss[i].host, ss[j].guest, ss[j].host)} ::
      0 <= i < j < |ss| ==> Before(ss[i].guest, ss[i].host, ss[j].guest, ss[j].host)
  }

  /** The first stream from i on that does not come before the key. */
  function Place(ss: seq<Stream>, guest: u32, host: u32, i: nat): (k: nat)
    requires i <= |ss|
    ensures i <= k <= |ss|
    ensures forall j :: i <= j < k ==> Before(ss[j].guest, ss[j].host, guest, host)
    ensures k < |ss| ==> !Before(ss[k].guest, ss[k].host, guest, host)
    decreases |ss| - i
  {
    if i < |ss| && Before(ss[i].guest, ss[i].host, guest, host) then Place(ss, guest, host, i + 1) else i
  }

  predicate At(ss: seq<Stream>, guest: u32, host: u32, k: nat) {
    k < |ss| && ss[k].guest == guest && ss[k].host == host
  }

  /** std::set::find: the place of the stream, or the number of streams. */
  function Find(ss: seq<Stream>, guest: u32, host: u32): (k: nat)
    ensures k == |ss| || At(ss, guest, host, k)
    ensures k <= |ss|
  {
    var k := Place(ss, guest, host, 0);
    if At(ss, guest, host, k) then k else |ss|
  }

  /** std::set::emplace: a stream whose key is there already is not added. */
  function Insert(ss: seq<Stream>, s: Stream): seq<Stream> {
    var k := Place(ss, s.guest, s.host, 0);
    if At(ss, s.guest, s.host, k) then ss else ss[..k] + [s] + ss[k..]
  }

  function Erase(ss: seq<Stream>, k: nat): seq<Stream>
    requires k < |ss|
  {
    ss[..k] + ss[k + 1..]
  }

  lemma FindsAll(ss: seq<Stream>, j: nat)
    requires Keyed(ss) && j < |ss|
    ensures Find(ss, ss[j].guest, ss[j].host) == j
  {
  }

  /** A key that is not found is added in its place. */
  lemma InsertKeyed(ss: seq<Stream>, s: Stream)
    requires Keyed(ss) && Find(ss, s.guest, s.host) == |ss|
    ensures Keyed(Insert(ss, s))
  {
    var k := Place(ss, s.guest, s.host, 0);
    var ss1 := Insert(ss, s);
    forall i, j | 0 <= i < j < |ss1|
      ensures Before(ss1[i].guest, ss1[i].host, ss1[j].guest, ss1[j].host)
    {
      if j == k || i == k {
        if i == k {
          assert ss1[j] == ss[j - 1];
          if j - 1 != k {
            assert Before(ss[k].guest, ss[k].host, ss[j - 1].guest, ss[j - 1].host);
          }
        }
      } else {
        var i0, j0 := if i < k then i else i - 1, if j < k then j else j - 1;
        assert Before(ss[i0].guest, ss[i0].host, ss[j0].guest, ss[j0].host);
      }
    }
  }

  lemma EraseKeyed(ss: seq<Stream>, k: nat)
    requires Keyed(ss) && k < |ss|
    ensures Keyed(Erase(ss, k))
  {
    var ss1 := Erase(ss, k);
    forall i, j | 0 <= i < j < |ss1|
      ensures Before(ss1[i].guest, ss1[i].host, ss1[j].guest, ss1[j].host)
    {
      var i0, j0 := if i < k then i else i + 1, if j < k then j else j + 1;
      assert Before(ss[i0].guest, ss[i0].host, ss[j0].guest, ss[j0].host);
    }
  }

  // --------------------------------------------------------------------- ports

  function Hosts(ss: seq<Stream>): seq<nat> {
    seq(|ss|, (i: nat) requires i < |ss| => ss[i].host)
  }

  /** The numbers of the dynamic ports in use. */
  function Live(hosts: seq<nat>): set<nat> {
    set i | 0 <= i < |hosts| && hosts[i] >= DYNAMIC :: hosts[i] - DYNAMIC
  }

  /** No two streams share a dynamic port. */
  predicate Apart(hosts: seq<nat>) {
    forall i, j :: 0 <= i < j < |hosts| && hosts[i] >= DYNAMIC ==> hosts[i] != hosts[j]
  }

  function Number(host: nat): set<nat> {
    if host >= DYNAMIC then {host - DYNAMIC} else {}
  }

  /** Adding a port adds its number. */
  lemma AddPort(hosts: seq<nat>, k: nat, host: nat)
    requires k <= |hosts|
    ensures Live(hosts[..k] + [host] + hosts[k..]) == Live(hosts) + Number(host)
  {
    var more := hosts[..k] + [host] + hosts[k..];
    assert more[k] == host;
    forall x | x in Live(hosts) ensures x in Live(more) {
      var i :| 0 <= i < |hosts| && hosts[i] >= DYNAMIC && hosts[i] - DYNAMIC == x;
      assert more[if i < k then i else i + 1] == hosts[i];
    }
    forall x | x in Live(more) ensures x in Live(hosts) + Number(host) {
      var i :| 0 <= i < |more| && more[i] >= DYNAMIC && more[i] - DYNAMIC == x;
      if i != k {
        assert hosts[if i < k then i else i - 1] == more[i];
      }
    }
  }

  lemma AddApart(hosts: seq<nat>, k: nat, host: nat)
    requires k <= |hosts| && Apart(hosts) && Number(host) !! Live(hosts)
    ensures Apart(hosts[..k] + [host] + hosts[k..])
  {
    var more := hosts[..k] + [host] + hosts[k..];
    forall i, j | 0 <= i < j < |more| && more[i] >= DYNAMIC ensures more[i] != more[j] {
      var i0, j0 := if i < k then i else i - 1, if j < k then j else j - 1;
      if i == k {
        assert more[j] == hosts[j0];
        assert hosts[j0] >= DYNAMIC ==> hosts[j0] - DYNAMIC in Live(hosts);
      } else if j == k {
        assert more[i] == hosts[i0] && hosts[i0] - DYNAMIC in Live(hosts);
      } else {
        assert hosts[i0] != hosts[j0];
      }
    }
  }

  lemma DropApart(hosts: seq<nat>, k: nat)
    requires k < |hosts| && Apart(hosts)
    ensures Apart(hosts[..k] + hosts[k + 1..])
    ensures Number(hosts[k]) !! Live(hosts[..k] + hosts[k + 1..])
  {
    var less := hosts[..k] + hosts[k + 1..];
    forall i, j | 0 <= i < j < |less| && less[i] >= DYNAMIC ensures less[i] != less[j] {
      assert hosts[if i < k then i else i + 1] != hosts[if j < k then j else j + 1];
    }
    forall x | x in Live(less) ensures x !in Number(hosts[k]) {
      var i :| 0 <= i < |less| && less[i] >= DYNAMIC && less[i] - DYNAMIC == x;
      if i < k {
        assert hosts[i] != hosts[k];
      } else {
        assert less[i] == hosts[i + 1];
      }
    }
  }

  /** Dropping a port drops its number. */
  lemma DropPort(hosts: seq<nat>, k: nat)
    requires k < |hosts| && Apart(hosts)
    ensures var less := hosts[..k] + hosts[k + 1..];
            Apart(less) && Live(less) == Live(hosts) - Number(hosts[k])
  {
    var less := hosts[..k] + hosts[k + 1..];
    DropApart(hosts, k);
    AddPort(less, k, hosts[k]);
    assert less[..k] + [hosts[k]] + less[k..] == hosts;
  }

  ghost predicate PortsOk(ids: Ids, ss: seq<Stream>) {
    Keyed(ss) && Apart(Hosts(ss)) && Canonical(ids, Live(Hosts(ss)))
  }

  function PutBack(ids: Ids, host: u32): Ids {
    if host >= DYNAMIC then Put(ids, host - DYNAMIC) else ids
  }

  /** A stream that goes gives its port back. */
  lemma ErasePorts(ids: Ids, ss: seq<Stream>, k: nat)
    requires PortsOk(ids, ss) && k < |ss|
    ensures PortsOk(PutBack(ids, ss[k].host), Erase(ss, k))
  {
    EraseKeyed(ss, k);
    var hosts := Hosts(ss);
    assert Hosts(Erase(ss, k)) == hosts[..k] + hosts[k + 1..];
    DropPort(hosts, k);
    if ss[k].host >= DYNAMIC {
      assert ss[k].host - DYNAMIC in Number(hosts[k]);
      PutFrees(ids, Live(hosts), ss[k].host - DYNAMIC);
    }
  }

  /** A new stream with a static port, or with a free dynamic one. */
  lemma InsertPorts(ids: Ids, ids1: Ids, ss: seq<Stream>, s: Stream)
    requires PortsOk(ids, ss) && Find(ss, s.guest, s.host) == |ss|
    requires Number(s.host) !! Live(Hosts(ss))
    requires Canonical(ids1, Live(Hosts(ss)) + Number(s.host))
    ensures PortsOk(ids1, Insert(ss, s))
  {
    InsertKeyed(ss, s);
    var k := Place(ss, s.guest, s.host, 0);
    var hosts := Hosts(ss);
    assert Hosts(Insert(ss, s)) == hosts[..k] + [s.host] + hosts[k..];
    AddPort(hosts, k, s.host);
    AddApart(hosts, k, s.host);
  }

  lemma HostLive(ss: seq<Stream>, k: nat)
    requires k < |ss| && ss[k].host >= DYNAMIC
    ensures ss[k].host - DYNAMIC in Live(Hosts(ss))
  {
    assert Hosts(ss)[k] == ss[k].host;
  }

  /** A free dynamic port belongs to no stream. */
  lemma FreshKey(ss: seq<Stream>, guest: u32, host: u32)
    requires host >= DYNAMIC && host - DYNAMIC !in Live(Hosts(ss))
    ensures Find(ss, guest, host) == |ss|
  {
    var k := Find(ss, guest, host);
    if k < |ss| {
      HostLive(ss, k);
    }
  }

  // ------------------------------------------------------------------- sending

  datatype Pass = Pass(ss: seq<Stream>, rx: seq<nat>, ps: seq<Packet>, full: bool)

  /** The streams from i on, until the receive buffers run out. */
  function SendStreams(ss: seq<Stream>, i: nat, rx: seq<nat>): (p: Pass)
    requires i <= |ss|
    ensures |p.ss| == |ss|
    decreases |ss| - i
  {
    if i == |ss| then Pass(ss, rx, [], false)
    else
      var t := SendStream(ss[i], rx);
      if t.full then Pass(ss[i := t.s], t.rx, t.ps, true)
      else
        var p := SendStreams(ss[i := t.s], i + 1, t.rx);
        Pass(p.ss, p.rx, t.ps + p.ps, p.full)
  }

  datatype Flush = Flush(left: seq<Header>, rx: seq<nat>, ps: seq<Packet>)

  /** The orphan packets, oldest first. */
  function SendOrphans(hs: seq<Header>, rx: seq<nat>): Flush {
    if hs == [] then Flush([], rx, [])
    else
      var r := Send(rx, hs[0], []);
      if r.full then Flush(hs, r.rx, [])
      else
        var f := SendOrphans(hs[1..], r.rx);
        Flush(f.left, f.rx, r.ps + f.ps)
  }

  /** sendPacketsLocked. */
  function SendAll(d: Dev): Dev {
    var f := SendOrphans(d.orphans, d.rx);
    if f.left != [] then d.(orphans := f.left, rx := f.rx, wire := d.wire + f.ps)
    else
      var p := SendStreams(d.streams, 0, f.rx);
      d.(orphans := [], streams := p.ss, rx := p.rx, wire := d.wire + (f.ps + p.ps))
  }

  /** The packets of one stream. */
  function Filter(ps: seq<Packet>, guest: u32, host: u32): seq<Packet> {
    if ps == [] then []
    else
      var n := |ps| - 1;
      Filter(ps[..n], guest, host) + if IsMine(ps[n], guest, host) then [ps[n]] else []
  }

  lemma {:induction false} FilterAppend(a: seq<Packet>, b: seq<Packet>, guest: u32, host: u32)
    ensures Filter(a + b, guest, host) == Filter(a, guest, host) + Filter(b, guest, host)
    decreases |b|
  {
    if b == [] {
      assert a + b == a;
    } else {
      var n := |b| - 1;
      FilterAppend(a, b[..n], guest, host);
      assert (a + b)[..|a| + n] == a + b[..n];
      Regroup(Filter(a, guest, host), Filter(b[..n], guest, host),
              if IsMine(b[n], guest, host) then [b[n]] else []);
    }
  }

  lemma {:induction false} FilterAll(ps: seq<Packet>, guest: u32, host: u32)
    requires forall i :: 0 <= i < |ps| ==> IsMine(ps[i], guest, host)
    ensures Filter(ps, guest, host) == ps
    decreases |ps|
  {
    if ps != [] {
      FilterAll(ps[..|ps| - 1], guest, host);
    }
  }

  lemma {:induction false} FilterNone(ps: seq<Packet>, guest: u32, host: u32)
    requires forall i :: 0 <= i < |ps| ==> !IsMine(ps[i], guest, host)
    ensures Filter(ps, guest, host) == []
    decreases |ps|
  {
    if ps != [] {
      FilterNone(ps[..|ps| - 1], guest, host);
    }
  }

  /** What a pass of sending does to one stream, among the packets of all. */
  ghost predicate Moved(s: Stream, s1: Stream, ps: seq<Packet>, honest: bool) {
    && Same(s, s1) && Sound(s1)
    && Outs(s1.log) == Outs(s.log) + Filter(ps, s.guest, s.host) && Taken(s1.log) == Taken(s.log)
    && (honest ==> InCredit(s1))
  }

  lemma MovedTwice(s: Stream, s1: Stream, s2: Stream, ps: seq<Packet>, qs: seq<Packet>, honest: bool)
    requires Moved(s, s1, ps, honest) && Moved(s1, s2, qs, honest)
    ensures Moved(s, s2, ps + qs, honest)
  {
    FilterAppend(ps, qs, s.guest, s.host);
    Regroup(Outs(s.log), Filter(ps, s.guest, s.host), Filter(qs, s.guest, s.host));
  }

  lemma MovedStill(s: Stream, honest: bool)
    requires Sound(s) && (honest ==> InCredit(s))
    ensures Moved(s, s, [], honest)
  {
    assert Outs(s.log) + [] == Outs(s.log);
  }

  ghost predicate AllSound(ss: seq<Stream>, honest: bool) {
    forall i {:trigger Sound(ss[i])} :: 0 <= i < |ss| ==> Sound(ss[i]) && (honest ==> InCredit(ss[i]))
  }

  /** The turn of one stream is nothing to the others. */
  lemma TurnMoves(ss: seq<Stream>, i: nat, rx: seq<nat>, honest: bool, j: nat)
    requires i < |ss| && j < |ss| && Keyed(ss) && AllSound(ss, honest)
    ensures var t := SendStream(ss[i], rx);
            Moved(ss[j], ss[i := t.s][j], t.ps, honest)
  {
    var t := SendStream(ss[i], rx);
    StreamKeeps(ss[i], rx, honest);
    if i == j {
      FilterAll(t.ps, ss[j].guest, ss[j].host);
    } else {
      assert ss[i].guest != ss[j].guest || ss[i].host != ss[j].host by {
        var x, y := if i < j then i else j, if i < j then j else i;
        assert Before(ss[x].guest, ss[x].host, ss[y].guest, ss[y].host);
      }
      forall n | 0 <= n < |t.ps| ensures !IsMine(t.ps[n], ss[j].guest, ss[j].host) {
        assert IsMine(t.ps[n], ss[i].guest, ss[i].host);
      }
      FilterNone(t.ps, ss[j].guest, ss[j].host);
    }
  }

  lemma TurnKeeps(ss: seq<Stream>, i: nat, rx: seq<nat>, honest: bool)
    requires i < |ss| && Keyed(ss) && AllSound(ss, honest)
    ensures var t := SendStream(ss[i], rx);
            Keyed(ss[i := t.s]) && AllSound(ss[i := t.s], honest)
  {
    assert Sound(ss[i]);
    StreamKeeps(ss[i], rx, honest);
    SwapKeyed(ss, i, SendStream(ss[i], rx).s);
    SwapSound(ss, i, SendStream(ss[i], rx).s, honest);
  }

  lemma SwapKeyed(ss: seq<Stream>, i: nat, s: Stream)
    requires i < |ss| && Keyed(ss) && s.guest == ss[i].guest && s.host == ss[i].host
    ensures Keyed(ss[i := s])
  {
    var ss1 := ss[i := s];
    forall x, y | 0 <= x < y < |ss1|
      ensures Before(ss1[x].guest, ss1[x].host, ss1[y].guest, ss1[y].host)
    {
      assert Before(ss[x].guest, ss[x].host, ss[y].guest, ss[y].host);
    }
  }

  lemma SwapSound(ss: seq<Stream>, i: nat, s: Stream, honest: bool)
    requires i < |ss| && AllSound(ss, honest) && Sound(s) && (honest ==> InCredit(s))
    ensures AllSound(ss[i := s], honest)
  {
    var ss1 := ss[i := s];
    forall x | 0 <= x < |ss1| ensures Sound(ss1[x]) && (honest ==> InCredit(ss1[x])) {
      assert Sound(ss[x]);
    }
  }

  /** The streams after the turn of the i-th. */
  function Turned(ss: seq<Stream>, i: nat, rx: seq<nat>): (ss1: seq<Stream>)
    requires i < |ss|
    ensures |ss1| == |ss|
  {
    ss[i := SendStream(ss[i], rx).s]
  }

  /** The rest of the pass, from the i-th stream on, moves the j-th. */
  ghost predicate PassMoved(ss: seq<Stream>, i: nat, rx: seq<nat>, honest: bool, j: nat)
    requires i <= |ss| && j < |ss|
  {
    var p := SendStreams(ss, i, rx);
    Moved(ss[j], p.ss[j], p.ps, honest)
  }

  lemma PassJoin(ss: seq<Stream>, i: nat, rx: seq<nat>, honest: bool, j: nat)
    requires i < |ss| && j < |ss|
    requires Moved(ss[j], Turned(ss, i, rx)[j], SendStream(ss[i], rx).ps, honest)
    requires SendStream(ss[i], rx).full ||
             PassMoved(Turned(ss, i, rx), i + 1, SendStream(ss[i], rx).rx, honest, j)
    ensures PassMoved(ss, i, rx, honest, j)
  {
    var t := SendStream(ss[i], rx);
    if !t.full {
      var ss1 := Turned(ss, i, rx);
      var p := SendStreams(ss1, i + 1, t.rx);
      MovedTwice(ss[j], ss1[j], p.ss[j], t.ps, p.ps, honest);
    }
  }

  lemma PassDone(ss: seq<Stream>, rx: seq<nat>, honest: bool, j: nat)
    requires j < |ss| && AllSound(ss, honest)
    ensures PassMoved(ss, |ss|, rx, honest, j)
  {
    assert Sound(ss[j]);
    MovedStill(ss[j], honest);
  }

  lemma {:induction false} PassMoves(ss: seq<Stream>, i: nat, rx: seq<nat>, honest: bool, j: nat)
    requires i <= |ss| && j < |ss| && Keyed(ss) && AllSound(ss, honest)
    ensures PassMoved(ss, i, rx, honest, j)
    decreases |ss| - i
  {
    if i == |ss| {
      PassDone(ss, rx, honest, j);
    } else {
      TurnMoves(ss, i, rx, honest, j);
      if !SendStream(ss[i], rx).full {
        TurnKeeps(ss, i, rx, honest);
        PassMoves(Turned(ss, i, rx), i + 1, SendStream(ss[i], rx).rx, honest, j);
      }
      PassJoin(ss, i, rx, honest, j);
    }
  }

  /** With receive buffers that all hold a header, no control packet is lost. */
  ghost predicate LosesNone(ss: seq<Stream>, i: nat, rx: seq<nat>, j: nat)
    requires i <= |ss| && j < |ss|
  {
    var p := SendStreams(ss, i, rx);
    RxOk(p.rx) && p.ss[j].lost == ss[j].lost
  }

  lemma LosesNoneNext(ss: seq<Stream>, i: nat, rx: seq<nat>, j: nat)
    requires i < |ss| && j < |ss| && TurnLosesNone(ss, i, rx)
    requires SendStream(ss[i], rx).full ||
             LosesNone(Turned(ss, i, rx), i + 1, SendStream(ss[i], rx).rx, j)
    ensures LosesNone(ss, i, rx, j)
  {
  }

  ghost predicate TurnLosesNone(ss: seq<Stream>, i: nat, rx: seq<nat>)
    requires i < |ss|
  {
    SendStream(ss[i], rx).s.lost == ss[i].lost && RxOk(SendStream(ss[i], rx).rx)
  }

  lemma TurnOk(ss: seq<Stream>, i: nat, rx: seq<nat>)
    requires i < |ss| && Keyed(ss) && AllSound(ss, false) && RxOk(rx)
    ensures TurnLosesNone(ss, i, rx) && Keyed(Turned(ss, i, rx)) && AllSound(Turned(ss, i, rx), false)
  {
    StreamKeeps(ss[i], rx, false);
    TurnKeeps(ss, i, rx, false);
  }

  lemma {:induction false} PassLosesNone(ss: seq<Stream>, i: nat, rx: seq<nat>, j: nat)
    requires i <= |ss| && j < |ss| && Keyed(ss) && AllSound(ss, false) && RxOk(rx)
    ensures LosesNone(ss, i, rx, j)
    decreases |ss| - i
  {
    if i < |ss| {
      TurnOk(ss, i, rx);
      if !SendStream(ss[i], rx).full {
        PassLosesNone(Turned(ss, i, rx), i + 1, SendStream(ss[i], rx).rx, j);
      }
      LosesNoneNext(ss, i, rx, j);
    }
  }

  // ------------------------------------------------------------ orphan packets

  predicate IsOrphan(op: Op) {
    op == Rst || op == Shutdown
  }

  ghost predicate AllOrphans(hs: seq<Header>) {
    forall i :: 0 <= i < |hs| ==> IsOrphan(hs[i].op)
  }

  /** The headers of the orphan packets among these. */
  function Orphaned(ps: seq<Packet>): seq<Header> {
    if ps == [] then []
    else
      var n := |ps| - 1;
      Orphaned(ps[..n]) + if IsOrphan(ps[n].hdr.op) then [ps[n].hdr] else []
  }

  lemma {:induction false} OrphanedAppend(a: seq<Packet>, b: seq<Packet>)
    ensures Orphaned(a + b) == Orphaned(a) + Orphaned(b)
    decreases |b|
  {
    if b == [] {
      assert a + b == a;
    } else {
      var n := |b| - 1;
      OrphanedAppend(a, b[..n]);
      assert (a + b)[..|a| + n] == a + b[..n];
      Regroup(Orphaned(a), Orphaned(b[..n]), if IsOrphan(b[n].hdr.op) then [b[n].hdr] else []);
    }
  }

  ghost predicate NoOrphans(ps: seq<Packet>) {
    forall i :: 0 <= i < |ps| ==> !IsOrphan(ps[i].hdr.op)
  }

  lemma {:induction false} OrphanedNone(ps: seq<Packet>)
    requires NoOrphans(ps)
    ensures Orphaned(ps) == []
    decreases |ps|
  {
    if ps != [] {
      OrphanedNone(ps[..|ps| - 1]);
    }
  }

  lemma {:induction false} PassNoOrphans(ss: seq<Stream>, i: nat, rx: seq<nat>)
    requires i <= |ss| && Keyed(ss) && AllSound(ss, false)
    ensures NoOrphans(SendStreams(ss, i, rx).ps)
    decreases |ss| - i
  {
    if i < |ss| {
      var t := SendStream(ss[i], rx);
      StreamKeeps(ss[i], rx, false);
      assert forall n :: 0 <= n < |t.ps| ==> IsMine(t.ps[n], ss[i].guest, ss[i].host);
      if !t.full {
        TurnKeeps(ss, i, rx, false);
        PassNoOrphans(Turned(ss, i, rx), i + 1, t.rx);
      }
    }
  }

  ghost predicate OnlyOrphans(ps: seq<Packet>) {
    forall i :: 0 <= i < |ps| ==> IsOrphan(ps[i].hdr.op)
  }

  /** Orphan packets went out in order; what did not go out stays queued in order. */
  ghost predicate Flushed(hs: seq<Header>, rx: seq<nat>, f: Flush) {
    && OnlyOrphans(f.ps) && AllOrphans(f.left)
    && (RxOk(rx) ==> RxOk(f.rx) && hs == Orphaned(f.ps) + f.left)
  }

  lemma FlushNext(hs: seq<Header>, rx: seq<nat>, f: Flush)
    requires hs != [] && AllOrphans(hs) && !Send(rx, hs[0], []).full
    requires Flushed(hs[1..], Send(rx, hs[0], []).rx, f)
    ensures Flushed(hs, rx, Flush(f.left, f.rx, Send(rx, hs[0], []).ps + f.ps))
  {
    ControlLost(rx, hs[0]);
    var r := Send(rx, hs[0], []);
    if RxOk(rx) {
      assert r.ps == [Packet(hs[0], [])] && r.ps[..0] == [];
      assert Orphaned(r.ps) == [hs[0]];
      OrphanedAppend(r.ps, f.ps);
      assert hs == [hs[0]] + hs[1..];
      Regroup([hs[0]], Orphaned(f.ps), f.left);
    }
  }

  lemma {:induction false} FlushOrdered(hs: seq<Header>, rx: seq<nat>)
    requires AllOrphans(hs)
    ensures Flushed(hs, rx, SendOrphans(hs, rx))
    decreases |hs|
  {
    if hs != [] {
      ControlLost(rx, hs[0]);
      var r := Send(rx, hs[0], []);
      if !r.full {
        FlushOrdered(hs[1..], r.rx);
        FlushNext(hs, rx, SendOrphans(hs[1..], r.rx));
      }
    }
  }

  // ------------------------------------------------------------------ progress

  ghost predicate KeepsEarlier(ss: seq<Stream>, i: nat, rx: seq<nat>, j: nat)
    requires j < i <= |ss|
  {
    SendStreams(ss, i, rx).ss[j] == ss[j]
  }

  lemma KeepsEarlierNext(ss: seq<Stream>, i: nat, rx: seq<nat>, j: nat)
    requires j < i < |ss|
    requires SendStream(ss[i], rx).full ||
             KeepsEarlier(Turned(ss, i, rx), i + 1, SendStream(ss[i], rx).rx, j)
    ensures KeepsEarlier(ss, i, rx, j)
  {
  }

  /** A pass from the i-th stream on leaves those before alone. */
  lemma {:induction false} PassKeepsEarlier(ss: seq<Stream>, i: nat, rx: seq<nat>, j: nat)
    requires j < i <= |ss|
    ensures KeepsEarlier(ss, i, rx, j)
    decreases |ss| - i
  {
    if i < |ss| {
      if !SendStream(ss[i], rx).full {
        PassKeepsEarlier(Turned(ss, i, rx), i + 1, SendStream(ss[i], rx).rx, j);
      }
      KeepsEarlierNext(ss, i, rx, j);
    }
  }

  /** A pass that does not run out of receive buffers leaves no stream with anything to
      send that its guest has room for. */
  lemma {:induction false} PassDrains(ss: seq<Stream>, i: nat, rx: seq<nat>, j: nat)
    requires i <= j < |ss| && Keyed(ss) && AllSound(ss, false)
    ensures var p := SendStreams(ss, i, rx);
            !p.full ==> p.ss[j].mask == {} && Drained(p.ss[j])
    decreases |ss| - i
  {
    var t := SendStream(ss[i], rx);
    StreamDrains(ss[i], rx);
    if !t.full {
      TurnKeeps(ss, i, rx, false);
      if i == j {
        PassKeepsEarlier(Turned(ss, i, rx), i + 1, t.rx, j);
      } else {
        PassDrains(Turned(ss, i, rx), i + 1, t.rx, j);
      }
    }
  }
}
