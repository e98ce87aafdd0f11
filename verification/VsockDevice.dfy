/** The vsock device as an object: its methods take the steps of VsockRuns
    (emulator/plugin/vsock_goldfish/vsock.cpp, vsock_low_level.c). */
module VsockDevice {
  import opened Arithmetic
  import opened Bytes
  import opened PortIds
  import opened VsockStream
  import opened VsockPass
  import opened VsockRuns
  import opened VsockReceive

  class Device {
    const ids: UniqueIdAllocator
    var listeners: set<u32>
    var orphans: seq<Header>
    var streams: seq<Stream>
    var rx: seq<nat>
    var wire: seq<Packet>
    ghost var queued: seq<Header>
    ghost var small: bool

    ghost function View(): Dev
      reads this, ids
    {
      Dev(ids.View(), listeners, orphans, streams, rx, wire, queued, small)
    }

    constructor ()
      ensures View() == Start() && Inv(View(), true) && fresh(ids)
    {
      ids := new UniqueIdAllocator();
      listeners, orphans, streams, rx, wire := {}, [], [], [], [];
      queued, small := [], false;
      new;
      StartInv();
    }

    // ------------------------------------------------------------ the low level

    /** virtio_vsock_send_packet_host_to_guest. */
    method SendPacket(hdr: Header, data: seq<byte>) returns (full: bool, sent: u32)
      modifies this`rx, this`wire
      ensures var r := Send(old(rx), hdr, data);
              && rx == r.rx && wire == old(wire) + r.ps && full == r.full
              && sent == Reported(|Payload(r.ps)|)
    {
      var data8, more, bytes: nat := data, true, 0;
      ghost var done: seq<Packet> := [];
      full := false;
      while more
        invariant wire == old(wire) + done && bytes == |Payload(done)|
        invariant more ==> !full && Send(old(rx), hdr, data) == After(done, Send(rx, hdr, data8))
        invariant !more ==> Send(old(rx), hdr, data) == Sending(rx, done, full)
        decreases if more then |rx| + 1 else 0
      {
        SendStep(done, rx, hdr, data8);
        if rx == [] {
          full, more := true, false;
        } else if rx[0] < HEADER {
          rx := rx[1..];
          more := data8 != [];
        } else {
          var size := if |data8| < rx[0] - HEADER then |data8| else rx[0] - HEADER;
          var p := Packet(hdr, data8[..size]);
          wire := wire + [p];
          PayloadAppend(done, [p]);
          Regroup(old(wire), done, [p]);
          done := done + [p];
          rx, data8, bytes := rx[1..], data8[size..], bytes + size;
          more := data8 != [];
        }
      }
      sent := Reported(bytes);
    }

    // ------------------------------------------------------------------ sending

    /** The control operations of the k-th stream. */
    method SendControl(k: nat, avail: nat) returns (full: bool)
      requires k < |streams|
      modifies this`rx, this`wire, this`streams
      ensures var s0 := if avail == 0 then Ask(old(streams)[k], CreditRequest) else old(streams)[k];
              var t := SendOps(s0, old(rx), 0);
              && full == t.full && rx == t.rx && wire == old(wire) + t.ps
              && streams == old(streams)[k := t.s]
    {
      var s: Stream := if avail == 0 then Ask(streams[k], CreditRequest) else streams[k];
      ghost var s0: Stream := s;
      ghost var done: seq<Packet> := [];
      var i := 0;
      while i < |Order()|
        invariant i <= |Order()| && streams == old(streams) && wire == old(wire) + done
        invariant SendOps(s0, old(rx), 0) == Later(done, SendOps(s, rx, i))
      {
        var op := Order()[i];
        if op in s.mask {
          OpsStep(done, s, rx, i);
          var at, sent: u32 := |wire|, 0;
          ghost var r := Send(rx, HeaderOf(s, op), []);
          full, sent := SendPacket(HeaderOf(s, op), []);
          if full {
            streams := streams[k := s];
            return;
          }
          assert wire[at..] == r.ps;
          Regroup(old(wire), done, r.ps);
          s, done := SentOp(s, op, wire[at..]), done + r.ps;
        }
        i := i + 1;
      }
      streams := streams[k := s.(mask := {})];
      full := false;
    }

    /** One send of data. */
    method SendOne(s: Stream, avail: nat) returns (s1: Stream, left: nat, full: bool)
      modifies this`rx, this`wire
      ensures var r := SendChunk(s, old(rx), avail);
              && rx == r.rx && wire == old(wire) + r.ps && full == r.full
              && s1 == SentData(s, r.ps) && left == avail - Reported(|Payload(r.ps)|)
    {
      var data := Rest(s)[..if |Rest(s)| < avail then |Rest(s)| else avail];
      ghost var r := SendChunk(s, rx, avail);
      var at, sent: u32 := |wire|, 0;
      full, sent := SendPacket(HeaderOf(s, Rw), data);
      assert wire[at..] == r.ps;
      s1, left := SentData(s, wire[at..]), avail - sent;
    }

    /** The data of the k-th stream. */
    method SendBytes(k: nat, room: nat) returns (full: bool)
      requires k < |streams|
      modifies this`rx, this`wire, this`streams
      ensures var t := SendData(old(streams)[k], old(rx), room);
              && full == t.full && rx == t.rx && wire == old(wire) + t.ps
              && streams == old(streams)[k := t.s]
    {
      var s1;
      s1, full := SendWhileRoom(streams[k], room);
      streams := streams[k := s1];
    }

    /** One turn of the loop below: `whole` is what it comes to, `done` what it sent. */
    method SendMore(ghost whole: Turn, ghost done: seq<Packet>, s: Stream, avail: nat)
      returns (s1: Stream, left: nat, full: bool, ghost done1: seq<Packet>)
      requires avail > 0 && Rest(s) != [] && DataSoFar(whole, done, Turn(s, rx, [], false), avail)
      modifies this`rx, this`wire
      ensures DataSoFar(whole, done1, Turn(s1, rx, [], full), left)
      ensures done <= done1 && wire == old(wire) + done1[|done|..]
      ensures !full ==> |rx| < |old(rx)|
    {
      DataStep(whole, done, s, rx, avail);
      done1 := done + SendChunk(s, rx, avail).ps;
      s1, left, full := SendOne(s, avail);
    }

    method SendWhileRoom(s: Stream, room: nat) returns (s1: Stream, full: bool)
      modifies this`rx, this`wire
      ensures var t := SendData(s, old(rx), room);
              s1 == t.s && rx == t.rx && full == t.full && wire == old(wire) + t.ps
    {
      var avail: nat := room;
      ghost var done: seq<Packet> := [];
      ghost var whole := SendData(s, rx, room);
      DataStart(s, rx, room);
      s1, full := s, false;
      while avail > 0 && !full && Rest(s1) != []
        invariant wire == old(wire) + done && DataSoFar(whole, done, Turn(s1, rx, [], full), avail)
        decreases if full then 0 else |rx| + 1
      {
        ghost var before := done;
        s1, avail, full, done := SendMore(whole, done, s1, avail);
        Regroup(old(wire), before, done[|before|..]);
      }
      DataEnd(whole, done, Turn(s1, rx, [], full), avail);
    }

    /** The orphan packets. */
    method SendQueued() returns (full: bool)
      modifies this`rx, this`wire, this`orphans
      ensures var f := SendOrphans(old(orphans), old(rx));
              && rx == f.rx && wire == old(wire) + f.ps && orphans == f.left && (full <==> f.left != [])
    {
      ghost var done: seq<Packet> := [];
      full := false;
      while orphans != [] && !full
        invariant wire == old(wire) + done
        invariant full ==> orphans != [] && SendOrphans(old(orphans), old(rx)) == Flush(orphans, rx, done)
        invariant !full ==> var f := SendOrphans(orphans, rx);
                            SendOrphans(old(orphans), old(rx)) == Flush(f.left, f.rx, done + f.ps)
        decreases |orphans|, !full
      {
        ghost var r := Send(rx, orphans[0], []);
        ControlLost(rx, orphans[0]);
        var sent: u32;
        full, sent := SendPacket(orphans[0], []);
        Regroup(old(wire), done, r.ps);
        if !full {
          Regroup(done, r.ps, SendOrphans(orphans[1..], rx).ps);
          orphans := orphans[1..];
        }
        done := done + r.ps;
      }
    }

    /** The streams in turn. */
    method SendInTurn()
      modifies this`rx, this`wire, this`streams
      ensures var p := SendStreams(old(streams), 0, old(rx));
              rx == p.rx && wire == old(wire) + p.ps && streams == p.ss
    {
      ghost var done: seq<Packet> := [];
      ghost var whole := SendStreams(streams, 0, rx);
      var i, full := 0, false;
      while i < |streams| && !full
        invariant i <= |streams| && wire == old(wire) + done
        invariant PassSoFar(whole, done, Pass(streams, rx, [], full), i)
        decreases |streams| - i
      {
        PassStep(whole, done, streams, i, rx);
        ghost var t := SendStream(streams[i], rx);
        full := SendTurn(i);
        Regroup(old(wire), done, t.ps);
        done := done + t.ps;
        i := i + 1;
      }
      PassEnd(whole, done, Pass(streams, rx, [], full), i);
    }

    /** sendPacketsLocked. */
    method SendPackets()
      modifies this`rx, this`wire, this`streams, this`orphans
      ensures View() == SendAll(old(View()))
    {
      var full := SendQueued();
      if !full {
        ghost var f := SendOrphans(old(orphans), old(rx));
        Regroup(old(wire), f.ps, SendStreams(streams, 0, rx).ps);
        SendInTurn();
      }
    }

    /** The turn of the k-th stream. */
    method SendTurn(k: nat) returns (full: bool)
      requires k < |streams|
      modifies this`rx, this`wire, this`streams
      ensures var t := SendStream(old(streams)[k], old(rx));
              && full == t.full && rx == t.rx && wire == old(wire) + t.ps
              && streams == old(streams)[k := t.s]
    {
      var avail := Window(streams[k]);
      full := SendControl(k, avail);
      if !full {
        ghost var wire1 := wire;
        full := SendBytes(k, avail);
        ghost var s0 := if avail == 0 then Ask(old(streams)[k], CreditRequest) else old(streams)[k];
        ghost var t := SendOps(s0, old(rx), 0);
        Regroup(old(wire), t.ps, SendData(t.s, t.rx, avail).ps);
      }
    }

    // --------------------------------------------------------------- the host side

    /** connect. */
    method Connect(guest: u32, ghost honest: bool) returns (host: u32)
      requires Inv(View(), honest) && Allowed(View(), Event.Connect(guest))
      modifies this, ids
      ensures View() == Step(old(View()), Event.Connect(guest)) && Inv(View(), honest)
      ensures host >= DYNAMIC && Find(old(streams), guest, host) == |old(streams)|
    {
      StepKeeps(View(), Event.Connect(guest), honest);
      ConnectInserts(View(), guest);
      var id := ids.GetId();
      host := PortOf(id);
      streams := Insert(streams, Ask(NewStream(guest, host, |wire|), Request));
      SendPackets();
    }

    /** listen: false when the port has a listener already. */
    method Listen(host: u32, ghost honest: bool) returns (added: bool)
      requires Inv(View(), honest) && host < DYNAMIC
      modifies this`listeners
      ensures View() == Step(old(View()), Event.Listen(host)) && Inv(View(), honest)
      ensures added <==> host !in old(listeners)
    {
      StepKeeps(View(), Event.Listen(host), honest);
      added := host !in listeners;
      listeners := listeners + {host};
    }

    /** sendAsyncImpl. */
    method SendAsync(guest: u32, host: u32, data: seq<byte>, ghost honest: bool)
      requires Inv(View(), honest)
      modifies this
      ensures View() == Step(old(View()), Event.SendAsync(guest, host, data)) && Inv(View(), honest)
    {
      StepKeeps(View(), Event.SendAsync(guest, host, data), honest);
      var k := Find(streams, guest, host);
      if k < |streams| && streams[k].connected {
        streams := streams[k := Take(streams[k], data)];
        SendPackets();
      }
    }

    /** unplugFromDevice. */
    method Unplug(guest: u32, host: u32, ghost honest: bool)
      requires Inv(View(), honest)
      modifies this, ids
      ensures View() == Step(old(View()), Event.Unplug(guest, host)) && Inv(View(), honest)
    {
      StepKeeps(View(), Event.Unplug(guest, host), honest);
      var k := Find(streams, guest, host);
      if k < |streams| {
        RecycleStream(k, Shutdown);
        SendPackets();
      }
    }

    /** recycleStreamLocked, and the erase that follows it. */
    method RecycleStream(k: nat, op: Op)
      requires PortsOk(ids.View(), streams) && k < |streams|
      modifies this`orphans, this`queued, this`streams, ids
      ensures View() == Recycle(old(View()), k, op)
    {
      var s := streams[k];
      if IsOrphan(op) {
        QueueOrphan(HeaderOf(s, op));
      }
      if s.host >= DYNAMIC {
        HostLive(streams, k);
        ids.PutId(s.host - DYNAMIC, Live(Hosts(streams)));
      }
      streams := Erase(streams, k);
    }

    method QueueOrphan(hdr: Header)
      modifies this`orphans, this`queued
      ensures View() == Queue(old(View()), hdr)
    {
      orphans := orphans + [hdr];
      queued := queued + [hdr];
    }

    // -------------------------------------------------------------- the guest side

    /** onPacketReceiveControl. */
    method OnControl(hdr: Header, taken: nat, accept: bool, ghost honest: bool)
      requires Inv(View(), honest) && (honest ==> HonestAt(View(), Control(hdr, taken, accept)))
      modifies this, ids
      ensures View() == Step(old(View()), Control(hdr, taken, accept)) && Inv(View(), honest)
    {
      StepKeeps(View(), Control(hdr, taken, accept), honest);
      if hdr.op == Request {
        OnRequest(hdr, taken, accept);
      } else {
        OnOther(hdr, taken);
      }
    }

    /** The branches other than that of a request. */
    method OnOther(hdr: Header, taken: nat)
      requires PortsOk(ids.View(), streams)
      modifies this`orphans, this`queued, this`streams, ids
      ensures View() == Controls(old(View()), hdr, taken)
    {
      var k := Find(streams, hdr.src, hdr.dst);
      if k < |streams| {
        ghost var ss := streams;
        streams := streams[k := Update(streams[k], hdr, taken)];
        PassPorts(ids.View(), ss, streams);
        if hdr.op == Response || hdr.op == CreditUpdate || hdr.op == CreditRequest {
          streams := streams[k := Answered(streams[k], hdr.op)];
        } else {
          RecycleStream(k, Farewell(hdr.op));
        }
      } else if hdr.op != Rst {
        QueueOrphan(Reset(hdr));
      }
    }

    /** processPacketOpRequestLocked. */
    method OnRequest(hdr: Header, taken: nat, accept: bool)
      modifies this`orphans, this`queued, this`streams
      ensures View() == Requested(old(View()), hdr, taken, accept)
    {
      if hdr.dst !in listeners {
        QueueOrphan(Reset(hdr));
      } else if Find(streams, hdr.src, hdr.dst) == |streams| {
        if accept {
          var s: Stream := Update(NewStream(hdr.src, hdr.dst, |wire|), hdr, taken).(connected := true);
          streams := Insert(streams, Ask(s, Response));
        } else {
          QueueOrphan(Reset(hdr));
        }
      }
    }

    /** A data packet scattered over buffers: onPacketReceiveRwStart, a loop that skips
        the header and hands over each piece, onPacketReceiveRwEnd. */
    method OnData(hdr: Header, taken: nat, iov: seq<seq<byte>>, len: nat, accepted: nat, ghost honest: bool)
      requires var e := Data(hdr, taken, Sizes(Pieces(iov, HEADER, len)), accepted);
               Inv(View(), honest) && (honest ==> HonestAt(View(), e))
      modifies this, ids
      ensures var e := Data(hdr, taken, Sizes(Pieces(iov, HEADER, len)), accepted);
              View() == Step(old(View()), e) && Inv(View(), honest)
    {
      StepKeeps(View(), Data(hdr, taken, Sizes(Pieces(iov, HEADER, len)), accepted), honest);
      TakeData(hdr, taken, iov, len, accepted);
    }

    method TakeData(hdr: Header, taken: nat, iov: seq<seq<byte>>, len: nat, accepted: nat)
      requires PortsOk(ids.View(), streams)
      modifies this`orphans, this`queued, this`streams, ids
      ensures View() == Received(old(View()), hdr, taken, Sizes(Pieces(iov, HEADER, len)), accepted)
    {
      var k := Find(streams, hdr.src, hdr.dst);
      if k < |streams| {
        ghost var ss := streams;
        var s: Stream := Update(streams[k], hdr, taken);
        ReceiveSame(s, Sizes(Pieces(iov, HEADER, len)), accepted);
        var s1, gone := TakePieces(s, iov, len, accepted);
        streams := streams[k := s1];
        PassPorts(ids.View(), ss, streams);
        if gone {
          RecycleStream(k, Shutdown);
        }
      }
    }
  }

  /** The loop of virtio_vsock_parse_guest_to_host over the buffers of a packet. */
  method TakePieces(s: Stream, iov: seq<seq<byte>>, len: nat, accepted: nat) returns (s1: Stream, gone: bool)
    ensures (s1, gone) == Receive(s, Sizes(Pieces(iov, HEADER, len)), accepted)
  {
    var i: nat, size: nat, offset: nat, left: nat := 0, len, HEADER, accepted;
    ghost var whole := Receive(s, Sizes(Pieces(iov, HEADER, len)), accepted);
    s1, gone := s, false;
    assert iov[0..] == iov;
    while i < |iov| && size > 0 && !gone
      invariant i <= |iov| && TakenSoFar(whole, s1, gone, iov[i..], offset, size, left)
      decreases |iov| - i
    {
      PieceStep(whole, s1, iov, i, offset, size, left);
      var data := Cut(iov[i], offset, size);
      if data != [] {
        gone := !s1.connected || left == 0;
        if gone {
          return;
        }
        s1, left, size := TookPiece(s1, |data|), left - 1, size - |data|;
      }
      offset := offset - Smaller(offset, |iov[i]|);
      i := i + 1;
    }
    TakenEnd(whole, s1, iov[i..], offset, size, left);
  }

  ghost predicate TakenSoFar(whole: (Stream, bool), s: Stream, gone: bool, iov: seq<seq<byte>>,
                             skip: nat, size: nat, left: nat)
  {
    whole == if gone then (s, true) else Receive(s, Sizes(Pieces(iov, skip, size)), left)
  }

  lemma PieceStep(whole: (Stream, bool), s: Stream, iov: seq<seq<byte>>, i: nat, skip: nat, size: nat,
                  left: nat)
    requires i < |iov| && size > 0 && TakenSoFar(whole, s, false, iov[i..], skip, size, left)
    ensures var data := Cut(iov[i], skip, size);
            var skip1 := skip - Smaller(skip, |iov[i]|);
            if data == [] then TakenSoFar(whole, s, false, iov[i + 1..], skip1, size, left)
            else if !s.connected || left == 0 then whole == (s, true)
            else TakenSoFar(whole, TookPiece(s, |data|), false, iov[i + 1..], skip1, size - |data|, left - 1)
  {
    var data := Cut(iov[i], skip, size);
    assert iov[i..][1..] == iov[i + 1..];
    var rest := Pieces(iov[i + 1..], skip - Smaller(skip, |iov[i]|), size - |data|);
    if data != [] {
      assert ([data] + rest)[1..] == rest;
      assert Sizes([data] + rest)[1..] == Sizes(rest);
    }
  }

  lemma TakenEnd(whole: (Stream, bool), s: Stream, iov: seq<seq<byte>>, skip: nat, size: nat, left: nat)
    requires TakenSoFar(whole, s, false, iov, skip, size, left) && (iov == [] || size == 0)
    ensures whole == (s, false)
  {
  }

  // What is done so far, before what is left to do.

  function After(done: seq<Packet>, r: Sending): Sending {
    Sending(r.rx, done + r.ps, r.full)
  }

  function Later(done: seq<Packet>, t: Turn): Turn {
    Turn(t.s, t.rx, done + t.ps, t.full)
  }

  function Rejoin(done: seq<Packet>, p: Pass): Pass {
    Pass(p.ss, p.rx, done + p.ps, p.full)
  }

  lemma SendStep(done: seq<Packet>, rx: seq<nat>, hdr: Header, data: seq<byte>)
    ensures rx == [] ==> After(done, Send(rx, hdr, data)) == Sending([], done, true)
    ensures rx != [] && rx[0] < HEADER ==>
              After(done, Send(rx, hdr, data)) ==
              if data == [] then Sending(rx[1..], done, false) else After(done, Send(rx[1..], hdr, data))
    ensures rx != [] && rx[0] >= HEADER ==>
              var size := if |data| < rx[0] - HEADER then |data| else rx[0] - HEADER;
              var done1 := done + [Packet(hdr, data[..size])];
              After(done, Send(rx, hdr, data)) ==
              if size == |data| then Sending(rx[1..], done1, false)
              else After(done1, Send(rx[1..], hdr, data[size..]))
  {
    assert done + [] == done;
    if rx != [] && rx[0] >= HEADER {
      if |data| <= rx[0] - HEADER {
        assert data[..|data|] == data;
      } else {
        var size := rx[0] - HEADER;
        Regroup(done, [Packet(hdr, data[..size])], Send(rx[1..], hdr, data[size..]).ps);
      }
    }
  }

  lemma OpsStep(done: seq<Packet>, s: Stream, rx: seq<nat>, i: nat)
    requires i < |Order()| && Order()[i] in s.mask
    ensures var r := Send(rx, HeaderOf(s, Order()[i]), []);
            && (r.full ==> r.ps == [] && Later(done, SendOps(s, rx, i)) == Turn(s, r.rx, done, true))
            && (!r.full ==> Later(done, SendOps(s, rx, i)) ==
                            Later(done + r.ps, SendOps(SentOp(s, Order()[i], r.ps), r.rx, i + 1)))
  {
    ControlLost(rx, HeaderOf(s, Order()[i]));
    var r := Send(rx, HeaderOf(s, Order()[i]), []);
    assert done + [] == done;
    Regroup(done, r.ps, SendOps(SentOp(s, Order()[i], r.ps), r.rx, i + 1).ps);
  }

  /** The data sent so far, and what is left of the turn. */
  ghost predicate DataSoFar(whole: Turn, done: seq<Packet>, t: Turn, avail: nat) {
    whole == if t.full then Turn(t.s, t.rx, done, true) else Later(done, SendData(t.s, t.rx, avail))
  }

  lemma DataStart(s: Stream, rx: seq<nat>, avail: nat)
    ensures DataSoFar(SendData(s, rx, avail), [], Turn(s, rx, [], false), avail)
  {
    assert [] + SendData(s, rx, avail).ps == SendData(s, rx, avail).ps;
  }

  lemma DataStep(whole: Turn, done: seq<Packet>, s: Stream, rx: seq<nat>, avail: nat)
    requires avail > 0 && Rest(s) != [] && DataSoFar(whole, done, Turn(s, rx, [], false), avail)
    ensures var r := SendChunk(s, rx, avail);
            DataSoFar(whole, done + r.ps, Turn(SentData(s, r.ps), r.rx, [], r.full),
                      avail - Reported(|Payload(r.ps)|))
  {
    var r := SendChunk(s, rx, avail);
    Regroup(done, r.ps, SendData(SentData(s, r.ps), r.rx, avail - Reported(|Payload(r.ps)|)).ps);
  }

  lemma DataEnd(whole: Turn, done: seq<Packet>, t: Turn, avail: nat)
    requires DataSoFar(whole, done, t, avail) && (t.full || avail == 0 || Rest(t.s) == [])
    ensures whole == Turn(t.s, t.rx, done, t.full)
  {
    assert done + [] == done;
  }

  /** The streams that had their turn, and what is left of the pass. */
  ghost predicate PassSoFar(whole: Pass, done: seq<Packet>, p: Pass, i: nat) {
    && i <= |p.ss|
    && whole == if p.full then Pass(p.ss, p.rx, done, true) else Rejoin(done, SendStreams(p.ss, i, p.rx))
  }

  lemma PassStep(whole: Pass, done: seq<Packet>, ss: seq<Stream>, i: nat, rx: seq<nat>)
    requires i < |ss| && PassSoFar(whole, done, Pass(ss, rx, [], false), i)
    ensures var t := SendStream(ss[i], rx);
            PassSoFar(whole, done + t.ps, Pass(ss[i := t.s], t.rx, [], t.full), i + 1)
  {
    var t := SendStream(ss[i], rx);
    Regroup(done, t.ps, SendStreams(ss[i := t.s], i + 1, t.rx).ps);
  }

  lemma PassEnd(whole: Pass, done: seq<Packet>, p: Pass, i: nat)
    requires PassSoFar(whole, done, p, i) && (p.full || i == |p.ss|)
    ensures whole == Pass(p.ss, p.rx, done, p.full)
  {
    assert done + [] == done;
  }
}
