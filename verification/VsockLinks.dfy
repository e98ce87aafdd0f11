/** The life of a stream, told by the events alone: when it is there, when it is connected,
    what the guest announced and what it sent
    (emulator/plugin/vsock_goldfish/vsock.cpp). */
module VsockLinks {
  import opened Arithmetic
  import opened PortIds
  import opened VsockStream
  import opened VsockPass
  import opened VsockRuns
  import opened VsockReceive
  import opened VsockHistory
  import opened VsockOrphans

  /** The stream between two ports: whether it is connected, the counters of the last
      packet of the guest, and the bytes received. */
  datatype Link = Down | Up(connected: bool, bufAlloc: u32, fwdCnt: u32, received: nat)

  /** A control packet of the guest: a request is taken by a listener that accepts, a
      response connects, a reset, a shutdown or an operation out of place ends it. */
  function ControlLink(l: Link, hdr: Header, accept: bool, listening: bool): Link {
    if l.Down? then
      if hdr.op == Request && listening && accept then Up(true, hdr.bufAlloc, hdr.fwdCnt, 0) else Down
    else if hdr.op == Request then l
    else if hdr.op == Response then Up(true, hdr.bufAlloc, hdr.fwdCnt, l.received)
    else if hdr.op in {CreditUpdate, CreditRequest} then Up(l.connected, hdr.bufAlloc, hdr.fwdCnt, l.received)
    else Down
  }

  /** Data of the guest: the stream goes unless it is connected and takes all of it. */
  function DataLink(l: Link, hdr: Header, sizes: seq<nat>, accepted: nat): Link {
    if l.Down? || !(sizes == [] || (l.connected && |sizes| <= accepted)) then Down
    else Up(l.connected, hdr.bufAlloc, hdr.fwdCnt, l.received + Total(sizes))
  }

  /** The stream after an event; a connect of the host side takes `port`. */
  function LinkAfter(l: Link, e: Event, guest: u32, host: u32, port: u32, listening: bool): Link {
    match e
    case Connect(g) => if g == guest && host == port then Up(false, 0, 0, 0) else l
    case Unplug(g, h) => if g == guest && h == host then Down else l
    case Control(hdr, _, accept) =>
      if hdr.src == guest && hdr.dst == host then ControlLink(l, hdr, accept, listening) else l
    case Data(hdr, _, sizes, accepted) =>
      if hdr.src == guest && hdr.dst == host then DataLink(l, hdr, sizes, accepted) else l
    case _ => l
  }

  /** The dynamic port of the next connect. */
  ghost function NextPort(es: seq<Event>): u32 {
    PortOf(Get(Run(es).ids).1)
  }

  ghost function LinkOf(es: seq<Event>, guest: u32, host: u32): Link {
    if es == [] then Down
    else
      var before := es[..|es| - 1];
      LinkAfter(LinkOf(before, guest, host), es[|es| - 1], guest, host, NextPort(before), Listen(host) in before)
  }

  // ------------------------------------------------------------- as the device has it

  predicate IsLink(s: Stream, l: Link) {
    && l.Up? && s.connected == l.connected && s.bufAlloc == l.bufAlloc && s.fwdCnt == l.fwdCnt
    && s.hostFwd == l.received % 0x1_0000_0000
  }

  /** The device has the stream exactly as the link is. */
  predicate Shows(ss: seq<Stream>, guest: u32, host: u32, l: Link) {
    var k := Find(ss, guest, host);
    if k < |ss| then IsLink(ss[k], l) else l.Down?
  }

  lemma FindOnly(ss: seq<Stream>, guest: u32, host: u32, k: nat)
    requires Keyed(ss) && At(ss, guest, host, k)
    ensures Find(ss, guest, host) == k
  {
    FindsAll(ss, k);
  }

  lemma ReplaceShows(ss: seq<Stream>, k: nat, s: Stream, guest: u32, host: u32, l: Link, l1: Link)
    requires Keyed(ss) && k < |ss| && s.guest == ss[k].guest && s.host == ss[k].host
    requires Shows(ss, guest, host, l)
    requires if At(ss, guest, host, k) then IsLink(s, l1) else l1 == l
    ensures Shows(ss[k := s], guest, host, l1)
  {
    SwapKeyed(ss, k, s);
    ReplaceTaken(ss, k, s, guest, host);
    if At(ss, guest, host, k) {
      FindOnly(ss, guest, host, k);
    }
  }

  lemma EraseShows(ss: seq<Stream>, k: nat, guest: u32, host: u32, l: Link)
    requires Keyed(ss) && k < |ss| && Shows(ss, guest, host, l)
    ensures Shows(Erase(ss, k), guest, host, if At(ss, guest, host, k) then Down else l)
  {
    var ss1 := Erase(ss, k);
    EraseKeyed(ss, k);
    var j, j1 := Find(ss, guest, host), Find(ss1, guest, host);
    if j1 < |ss1| {
      FindOnly(ss, guest, host, if j1 < k then j1 else j1 + 1);
    }
    if At(ss, guest, host, k) {
      FindOnly(ss, guest, host, k);
    } else if j < |ss| {
      FindOnly(ss1, guest, host, if j < k then j else j - 1);
    }
  }

  lemma InsertShows(ss: seq<Stream>, s: Stream, guest: u32, host: u32, l: Link, l1: Link)
    requires Keyed(ss) && Find(ss, s.guest, s.host) == |ss| && Shows(ss, guest, host, l)
    requires if s.guest == guest && s.host == host then IsLink(s, l1) else l1 == l
    ensures Shows(Insert(ss, s), guest, host, l1)
  {
    var k, ss1 := Place(ss, s.guest, s.host, 0), Insert(ss, s);
    InsertKeyed(ss, s);
    var j, j1 := Find(ss, guest, host), Find(ss1, guest, host);
    if s.guest == guest && s.host == host {
      FindOnly(ss1, guest, host, k);
    } else {
      if j < |ss| {
        FindOnly(ss1, guest, host, if j < k then j else j + 1);
      }
      if j1 < |ss1| {
        FindOnly(ss, guest, host, if j1 < k then j1 else j1 - 1);
      }
    }
  }

  /** Sending changes nothing of this. */
  lemma SendAllShows(d: Dev, guest: u32, host: u32, l: Link)
    requires Inv(d, false) && Shows(d.streams, guest, host, l)
    ensures Shows(SendAll(d).streams, guest, host, l)
  {
    FitSound(d.streams, d.wire, d.small, false);
    var f := SendOrphans(d.orphans, d.rx);
    if f.left == [] {
      PassShows(d.streams, f.rx, guest, host, l);
    }
  }

  lemma PassShows(ss: seq<Stream>, rx: seq<nat>, guest: u32, host: u32, l: Link)
    requires Keyed(ss) && AllSound(ss, false) && Shows(ss, guest, host, l)
    ensures Shows(SendStreams(ss, 0, rx).ss, guest, host, l)
  {
    var ss1 := SendStreams(ss, 0, rx).ss;
    forall j | 0 <= j < |ss| ensures Same(ss[j], ss1[j]) {
      PassMoves(ss, 0, rx, false, j);
    }
    SameShows(ss, ss1, guest, host, l);
  }

  lemma SameShows(ss: seq<Stream>, ss1: seq<Stream>, guest: u32, host: u32, l: Link)
    requires Keyed(ss) && |ss1| == |ss| && Shows(ss, guest, host, l)
    requires forall j :: 0 <= j < |ss| ==> Same(ss[j], ss1[j])
    ensures Shows(ss1, guest, host, l)
  {
    forall i, j | 0 <= i < j < |ss1|
      ensures Before(ss1[i].guest, ss1[i].host, ss1[j].guest, ss1[j].host)
    {
      assert Before(ss[i].guest, ss[i].host, ss[j].guest, ss[j].host);
    }
    var j, j1 := Find(ss, guest, host), Find(ss1, guest, host);
    if j < |ss| {
      FindOnly(ss1, guest, host, j);
    }
    if j1 < |ss1| {
      FindOnly(ss, guest, host, j1);
    }
  }

  // ------------------------------------------------------------------ each event

  /** The event takes the device from a link to the link after it. */
  ghost predicate Follows(d: Dev, e: Event, guest: u32, host: u32, l: Link) {
    Shows(Step(d, e).streams, guest, host,
          LinkAfter(l, e, guest, host, PortOf(Get(d.ids).1), host in d.listeners))
  }

  lemma ConnectShows(d: Dev, g: u32, guest: u32, host: u32, l: Link)
    requires Inv(d, false) && Allowed(d, Connect(g)) && Shows(d.streams, guest, host, l)
    ensures Inv(Connected(d, g), false)
    ensures Shows(Connected(d, g).streams, guest, host,
                  if g == guest && host == PortOf(Get(d.ids).1) then Up(false, 0, 0, 0) else l)
  {
    var (ids1, id) := Get(d.ids);
    ConnectInserts(d, g);
    ConnectAtKeeps(d, g, ids1, PortOf(id), false);
    InsertShows(d.streams, Ask(NewStream(g, PortOf(id), |d.wire|), Request), guest, host, l,
                if g == guest && host == PortOf(id) then Up(false, 0, 0, 0) else l);
  }

  lemma ConnectFollows(d: Dev, g: u32, guest: u32, host: u32, l: Link)
    requires Inv(d, false) && Allowed(d, Connect(g)) && Shows(d.streams, guest, host, l)
    ensures Follows(d, Connect(g), guest, host, l)
  {
    ConnectShows(d, g, guest, host, l);
    SendAllShows(Connected(d, g), guest, host,
                 if g == guest && host == PortOf(Get(d.ids).1) then Up(false, 0, 0, 0) else l);
  }

  lemma RecycleShows(d: Dev, k: nat, guest: u32, host: u32, l: Link)
    requires Inv(d, false) && k < |d.streams| && Shows(d.streams, guest, host, l)
    ensures Inv(Recycle(d, k, Shutdown), false)
    ensures Shows(Recycle(d, k, Shutdown).streams, guest, host, if At(d.streams, guest, host, k) then Down else l)
  {
    RecycleKeeps(d, k, Shutdown, false);
    EraseShows(d.streams, k, guest, host, l);
  }

  lemma UnplugFollows(d: Dev, g: u32, h: u32, guest: u32, host: u32, l: Link)
    requires Inv(d, false) && Shows(d.streams, guest, host, l)
    ensures Follows(d, Unplug(g, h), guest, host, l)
  {
    var k := Find(d.streams, g, h);
    if k < |d.streams| {
      RecycleShows(d, k, guest, host, l);
      SendAllShows(Recycle(d, k, Shutdown), guest, host, if At(d.streams, guest, host, k) then Down else l);
    }
  }

  lemma SendFollows(d: Dev, g: u32, h: u32, data: seq<Bytes.byte>, guest: u32, host: u32, l: Link)
    requires Inv(d, false) && Shows(d.streams, guest, host, l)
    ensures Follows(d, SendAsync(g, h, data), guest, host, l)
  {
    var k := Find(d.streams, g, h);
    if k < |d.streams| && d.streams[k].connected {
      TakeTaken(d, k, data, guest, host);
      if At(d.streams, guest, host, k) {
        FindOnly(d.streams, guest, host, k);
      }
      ReplaceShows(d.streams, k, Take(d.streams[k], data), guest, host, l, l);
      SendAllShows(Replace(d, k, Take(d.streams[k], data)), guest, host, l);
    }
  }

  lemma RequestFollows(d: Dev, hdr: Header, taken: nat, accept: bool, guest: u32, host: u32, l: Link)
    requires Inv(d, false) && hdr.op == Request && Shows(d.streams, guest, host, l)
    ensures Follows(d, Control(hdr, taken, accept), guest, host, l)
  {
    if hdr.dst in d.listeners && Find(d.streams, hdr.src, hdr.dst) == |d.streams| && accept {
      var s: Stream := Update(NewStream(hdr.src, hdr.dst, |d.wire|), hdr, taken).(connected := true);
      var l1 := LinkAfter(l, Control(hdr, taken, accept), guest, host, 0, host in d.listeners);
      InsertShows(d.streams, Ask(s, Response), guest, host, l, l1);
    }
  }

  /** The streams after a control packet other than a request. */
  function AnsweredIn(ss: seq<Stream>, hdr: Header, taken: nat): seq<Stream> {
    var k := Find(ss, hdr.src, hdr.dst);
    if k == |ss| then ss
    else if hdr.op in {Response, CreditUpdate, CreditRequest}
    then ss[k := Answered(Update(ss[k], hdr, taken), hdr.op)]
    else Erase(ss[k := Update(ss[k], hdr, taken)], k)
  }

  lemma ControlStreams(d: Dev, hdr: Header, taken: nat)
    ensures Controls(d, hdr, taken).streams == AnsweredIn(d.streams, hdr, taken)
  {
  }

  lemma AnswerShows(ss: seq<Stream>, hdr: Header, taken: nat, accept: bool, guest: u32, host: u32, l: Link,
                    listening: bool)
    requires Keyed(ss) && hdr.op != Request && Shows(ss, guest, host, l)
    ensures Shows(AnsweredIn(ss, hdr, taken), guest, host,
                  if hdr.src == guest && hdr.dst == host then ControlLink(l, hdr, accept, listening) else l)
  {
    var k := Find(ss, hdr.src, hdr.dst);
    if k < |ss| {
      var s := Update(ss[k], hdr, taken);
      if hdr.op in {Response, CreditUpdate, CreditRequest} {
        ReplaceShows(ss, k, Answered(s, hdr.op), guest, host, l,
                     if hdr.src == guest && hdr.dst == host then ControlLink(l, hdr, accept, listening) else l);
      } else {
        EraseShows(ss, k, guest, host, l);
        assert Erase(ss[k := s], k) == Erase(ss, k);
      }
    }
  }

  lemma ControlFollows(d: Dev, hdr: Header, taken: nat, accept: bool, guest: u32, host: u32, l: Link)
    requires Inv(d, false) && hdr.op != Request && Shows(d.streams, guest, host, l)
    ensures Follows(d, Control(hdr, taken, accept), guest, host, l)
  {
    ControlStreams(d, hdr, taken);
    AnswerShows(d.streams, hdr, taken, accept, guest, host, l, host in d.listeners);
  }

  /** The streams after a data packet. */
  function ReceivedIn(ss: seq<Stream>, hdr: Header, taken: nat, sizes: seq<nat>, accepted: nat): seq<Stream> {
    var k := Find(ss, hdr.src, hdr.dst);
    if k == |ss| then ss
    else
      var (s, gone) := Receive(Update(ss[k], hdr, taken), sizes, accepted);
      if gone then Erase(ss[k := s], k) else ss[k := s]
  }

  lemma ReceivedStreams(d: Dev, hdr: Header, taken: nat, sizes: seq<nat>, accepted: nat)
    ensures Received(d, hdr, taken, sizes, accepted).streams == ReceivedIn(d.streams, hdr, taken, sizes, accepted)
  {
  }

  lemma ReceiveShows(ss: seq<Stream>, hdr: Header, taken: nat, sizes: seq<nat>, accepted: nat, guest: u32, host: u32,
                     l: Link)
    requires Keyed(ss) && Shows(ss, guest, host, l)
    ensures Shows(ReceivedIn(ss, hdr, taken, sizes, accepted), guest, host,
                  if hdr.src == guest && hdr.dst == host then DataLink(l, hdr, sizes, accepted) else l)
  {
    var k := Find(ss, hdr.src, hdr.dst);
    if k < |ss| {
      var s0 := Update(ss[k], hdr, taken);
      var (s, gone) := Receive(s0, sizes, accepted);
      ReceiveKeepsLink(s0, sizes, accepted);
      ReceiveCounts(s0, sizes, accepted);
      if gone {
        EraseShows(ss, k, guest, host, l);
        assert Erase(ss[k := s], k) == Erase(ss, k);
      } else {
        if At(ss, guest, host, k) {
          Wrapped(l.received, Total(sizes));
        }
        ReplaceShows(ss, k, s, guest, host, l,
                     if hdr.src == guest && hdr.dst == host then DataLink(l, hdr, sizes, accepted) else l);
      }
    }
  }

  lemma DataFollows(d: Dev, hdr: Header, taken: nat, sizes: seq<nat>, accepted: nat, guest: u32, host: u32, l: Link)
    requires Inv(d, false) && Shows(d.streams, guest, host, l)
    ensures Follows(d, Data(hdr, taken, sizes, accepted), guest, host, l)
  {
    ReceivedStreams(d, hdr, taken, sizes, accepted);
    ReceiveShows(d.streams, hdr, taken, sizes, accepted, guest, host, l);
  }

  lemma {:induction false} ReceiveKeepsLink(s: Stream, sizes: seq<nat>, accepted: nat)
    ensures var s1 := Receive(s, sizes, accepted).0;
            && s1.guest == s.guest && s1.host == s.host && s1.connected == s.connected
            && s1.bufAlloc == s.bufAlloc && s1.fwdCnt == s.fwdCnt
    decreases accepted
  {
    if sizes != [] && s.connected && accepted > 0 {
      ReceiveKeepsLink(TookPiece(s, sizes[0]), sizes[1..], accepted - 1);
    }
  }

  lemma StepFollows(d: Dev, e: Event, guest: u32, host: u32, l: Link)
    requires Inv(d, false) && Allowed(d, e) && Shows(d.streams, guest, host, l)
    ensures Follows(d, e, guest, host, l)
  {
    match e
    case Connect(g) => ConnectFollows(d, g, guest, host, l);
    case Unplug(g, h) => UnplugFollows(d, g, h, guest, host, l);
    case SendAsync(g, h, data) => SendFollows(d, g, h, data, guest, host, l);
    case Control(hdr, taken, accept) =>
      if hdr.op == Request {
        RequestFollows(d, hdr, taken, accept, guest, host, l);
      } else {
        ControlFollows(d, hdr, taken, accept, guest, host, l);
      }
    case Data(hdr, taken, sizes, accepted) => DataFollows(d, hdr, taken, sizes, accepted, guest, host, l);
    case Poll => SendAllShows(d, guest, host, l);
    case _ =>
  }

  // -------------------------------------------------------------------- all runs

  lemma SendAllListens(d: Dev)
    ensures SendAll(d).listeners == d.listeners
  {
  }

  lemma GuestListens(d: Dev, e: Event)
    requires e.Control? || e.Data?
    ensures Step(d, e).listeners == d.listeners
  {
  }

  lemma StepListens(d: Dev, e: Event, host: u32)
    ensures host in Step(d, e).listeners <==> host in d.listeners || e == Listen(host)
  {
    match e
    case Connect(g) => SendAllListens(Connected(d, g));
    case Unplug(g, h) => UnplugListens(d, g, h);
    case SendAsync(g, h, data) => SendListens(d, g, h, data);
    case Control(_, _, _) => GuestListens(d, e);
    case Data(_, _, _, _) => GuestListens(d, e);
    case Poll => SendAllListens(d);
    case _ =>
  }

  lemma UnplugListens(d: Dev, g: u32, h: u32)
    ensures Unplugged(d, g, h).listeners == d.listeners
  {
    var k := Find(d.streams, g, h);
    if k < |d.streams| {
      SendAllListens(Recycle(d, k, Shutdown));
    }
  }

  lemma SendListens(d: Dev, g: u32, h: u32, data: seq<Bytes.byte>)
    ensures Accepted(d, g, h, data).listeners == d.listeners
  {
    var k := Find(d.streams, g, h);
    if k < |d.streams| && d.streams[k].connected {
      SendAllListens(Replace(d, k, Take(d.streams[k], data)));
    }
  }

  lemma {:induction false} ListensExactly(es: seq<Event>, host: u32)
    ensures host in Run(es).listeners <==> Listen(host) in es
    decreases |es|
  {
    if es != [] {
      var before := es[..|es| - 1];
      ListensExactly(before, host);
      StepListens(Run(before), es[|es| - 1], host);
      MemberLast(es, Listen(host));
    }
  }

  lemma MemberLast(es: seq<Event>, e: Event)
    requires es != []
    ensures e in es <==> e in es[..|es| - 1] || e == es[|es| - 1]
  {
    assert es == es[..|es| - 1] + [es[|es| - 1]];
  }

  /** In every run, the stream between two ports is there exactly when the events say so,
      is connected exactly when a request of the guest made it or a response came since,
      holds the counters of the guest's last packet, and has counted the bytes received
      modulo 2^32. */
  lemma {:induction false} LinksExactly(es: seq<Event>, guest: u32, host: u32)
    requires AllowedRun(es)
    ensures Shows(Run(es).streams, guest, host, LinkOf(es, guest, host))
    decreases |es|
  {
    if es != [] {
      var before := es[..|es| - 1];
      LinksExactly(before, guest, host);
      RunKeeps(before, false);
      ListensExactly(before, host);
      StepFollows(Run(before), es[|es| - 1], guest, host, LinkOf(before, guest, host));
    }
  }

  /** Some stream has this port of the host. */
  ghost predicate PortUp(es: seq<Event>, port: u32) {
    exists g: u32 :: LinkOf(es, g, port).Up?
  }

  predicate HasHost(ss: seq<Stream>, port: u32) {
    exists j :: 0 <= j < |ss| && ss[j].host == port
  }

  lemma UpHasHost(es: seq<Event>, guest: u32, port: u32)
    requires AllowedRun(es) && LinkOf(es, guest, port).Up?
    ensures HasHost(Run(es).streams, port)
  {
    LinksExactly(es, guest, port);
    assert Run(es).streams[Find(Run(es).streams, guest, port)].host == port;
  }

  lemma StreamIsUp(es: seq<Event>, j: nat)
    requires AllowedRun(es) && j < |Run(es).streams|
    ensures LinkOf(es, Run(es).streams[j].guest, Run(es).streams[j].host).Up?
  {
    var s := Run(es).streams[j];
    RunKeeps(es, false);
    FindOnly(Run(es).streams, s.guest, s.host, j);
    LinksExactly(es, s.guest, s.host);
  }

  /** In every run, a connect takes the least dynamic port that no stream has. */
  lemma NextPortLeast(es: seq<Event>, guest: u32, port: u32)
    requires AllowedRun(es) && Allowed(Run(es), Connect(guest))
    ensures NextPort(es) > 0x8000_0000 && !PortUp(es, NextPort(es))
    ensures 0x8000_0000 < port < NextPort(es) ==> PortUp(es, port)
  {
    RunKeeps(es, false);
    NextUnused(Run(es), guest);
    if g: u32 :| LinkOf(es, g, NextPort(es)).Up? {
      UpHasHost(es, g, NextPort(es));
    }
    if 0x8000_0000 < port < NextPort(es) {
      var j := BelowUsed(Run(es), guest, port);
      StreamIsUp(es, j);
      assert PortUp(es, port);
    }
  }

  lemma NextUnused(d: Dev, guest: u32)
    requires Inv(d, false) && Allowed(d, Connect(guest))
    ensures PortOf(Get(d.ids).1) > 0x8000_0000 && !HasHost(d.streams, PortOf(Get(d.ids).1))
  {
    var id := Get(d.ids).1;
    ConnectInserts(d, guest);
    SmallPort(id);
    if j :| 0 <= j < |d.streams| && d.streams[j].host == PortOf(id) {
      HostLive(d.streams, j);
    }
  }

  lemma BelowUsed(d: Dev, guest: u32, port: u32) returns (j: nat)
    requires Inv(d, false) && Allowed(d, Connect(guest)) && 0x8000_0000 < port < PortOf(Get(d.ids).1)
    ensures j < |d.streams| && d.streams[j].host == port
  {
    var live, id := Live(Hosts(d.streams)), Get(d.ids).1;
    GetsSmallest(d.ids, live);
    SmallestIsSmall(live, id);
    SmallPort(id);
    assert port - 0x8000_0000 in live;
    j :| 0 <= j < |Hosts(d.streams)| && Hosts(d.streams)[j] == port;
  }
}
