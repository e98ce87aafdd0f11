/** The orphan packets, which outlive their streams: what the events of a run ask for is
    what goes out, in order (emulator/plugin/vsock_goldfish/vsock.cpp). */
module VsockOrphans {
  import opened VsockStream
  import opened VsockPass
  import opened VsockRuns
  import opened VsockReceive

  /** The last word to the stream with these ports. */
  function LastWord(s: Stream, op: Op): seq<Header> {
    [Header(s.host, s.guest, op, 0x1_0000, s.hostFwd)]
  }

  /** The reset that goes back to where a packet came from. */
  function NoStream(hdr: Header): seq<Header> {
    [Header(hdr.dst, hdr.src, Rst, 0x1_0000, 0)]
  }

  /** The orphan packets that an event calls for: a reset in answer to a refused request or
      to a packet without a stream, SHUTDOWN for a stream that the host or the guest shuts
      down or that does not take its data, and a reset for an operation out of place. */
  function CallsFor(d: Dev, e: Event): seq<Header> {
    match e
    case Unplug(g, h) =>
      var k := Find(d.streams, g, h);
      if k < |d.streams| then LastWord(d.streams[k], Shutdown) else []
    case Control(hdr, _, accept) =>
      var k := Find(d.streams, hdr.src, hdr.dst);
      if hdr.op == Request then
        if hdr.dst in d.listeners && (accept || k < |d.streams|) then [] else NoStream(hdr)
      else if hdr.op == Rst then []
      else if k == |d.streams| then NoStream(hdr)
      else if hdr.op == Shutdown then LastWord(d.streams[k], Shutdown)
      else if hdr.op in {Response, CreditUpdate, CreditRequest} then []
      else LastWord(d.streams[k], Rst)
    case Data(hdr, _, sizes, accepted) =>
      var k := Find(d.streams, hdr.src, hdr.dst);
      if k == |d.streams| || TakesAll(d.streams[k], sizes, accepted) then []
      else LastWord(d.streams[k].(hostFwd := FwdAfter(d.streams[k], sizes, accepted)), Shutdown)
    case _ => []
  }

  /** The stream takes every piece of a data packet. */
  predicate TakesAll(s: Stream, sizes: seq<nat>, accepted: nat) {
    sizes == [] || (s.connected && |sizes| <= accepted)
  }

  /** The bytes that it counts as received afterwards. */
  function FwdAfter(s: Stream, sizes: seq<nat>, accepted: nat): nat {
    var n := if !s.connected then 0 else if |sizes| < accepted then |sizes| else accepted;
    (s.hostFwd + Total(sizes[..n])) % 0x1_0000_0000
  }

  lemma {:induction false} ReceiveEnds(s: Stream, sizes: seq<nat>, accepted: nat)
    ensures var (s1, gone) := Receive(s, sizes, accepted);
            && (!gone <==> TakesAll(s, sizes, accepted))
            && s1.hostFwd == FwdAfter(s, sizes, accepted)
            && s1.host == s.host && s1.guest == s.guest
    decreases accepted
  {
    if sizes != [] && s.connected && accepted > 0 {
      ReceiveEnds(TookPiece(s, sizes[0]), sizes[1..], accepted - 1);
      var n := if |sizes| < accepted then |sizes| else accepted;
      assert sizes[..n][1..] == sizes[1..][..n - 1];
      Wrapped(s.hostFwd + sizes[0], Total(sizes[1..][..n - 1]));
    } else {
      assert sizes[..0] == [];
    }
  }

  /** Sending queues nothing. */
  lemma SendQueues(d: Dev)
    ensures SendAll(d).queued == d.queued
  {
  }

  lemma DataQueues(d: Dev, hdr: Header, taken: nat, sizes: seq<nat>, accepted: nat)
    ensures Received(d, hdr, taken, sizes, accepted).queued ==
            d.queued + CallsFor(d, Data(hdr, taken, sizes, accepted))
  {
    var k := Find(d.streams, hdr.src, hdr.dst);
    if k < |d.streams| {
      ReceiveEnds(Update(d.streams[k], hdr, taken), sizes, accepted);
    }
  }

  lemma RequestQueues(d: Dev, hdr: Header, taken: nat, accept: bool)
    requires hdr.op == Request
    ensures Requested(d, hdr, taken, accept).queued == d.queued + CallsFor(d, Control(hdr, taken, accept))
  {
  }

  lemma ControlQueues(d: Dev, hdr: Header, taken: nat, accept: bool)
    requires hdr.op != Request
    ensures Controls(d, hdr, taken).queued == d.queued + CallsFor(d, Control(hdr, taken, accept))
  {
  }

  lemma StepQueues(d: Dev, e: Event)
    ensures Step(d, e).queued == d.queued + CallsFor(d, e)
  {
    match e
    case Connect(g) => SendQueues(Connected(d, g));
    case SendAsync(g, h, data) =>
      var k := Find(d.streams, g, h);
      if k < |d.streams| && d.streams[k].connected {
        SendQueues(Replace(d, k, Take(d.streams[k], data)));
      }
    case Unplug(g, h) =>
      var k := Find(d.streams, g, h);
      if k < |d.streams| {
        SendQueues(Recycle(d, k, Shutdown));
      }
    case Control(hdr, taken, accept) =>
      if hdr.op == Request {
        RequestQueues(d, hdr, taken, accept);
      } else {
        ControlQueues(d, hdr, taken, accept);
      }
    case Data(hdr, taken, sizes, accepted) => DataQueues(d, hdr, taken, sizes, accepted);
    case Poll => SendQueues(d);
    case _ =>
  }

  /** The orphan packets that the events of a run call for. */
  ghost function CalledFor(es: seq<Event>): seq<Header> {
    if es == [] then []
    else
      var before := es[..|es| - 1];
      CalledFor(before) + CallsFor(Run(before), es[|es| - 1])
  }

  lemma {:induction false} AllQueued(es: seq<Event>)
    ensures Run(es).queued == CalledFor(es)
    decreases |es|
  {
    if es != [] {
      AllQueued(es[..|es| - 1]);
      StepQueues(Run(es[..|es| - 1]), es[|es| - 1]);
    }
  }

  /** In every run with receive buffers that hold a header, the orphan packets on the wire
      followed by those still queued are exactly those that the events called for, in
      order. */
  lemma OrphansInOrder(es: seq<Event>)
    requires AllowedRun(es) && !Run(es).small
    ensures Orphaned(Run(es).wire) + Run(es).orphans == CalledFor(es)
  {
    RunKeeps(es, false);
    AllQueued(es);
  }
}
