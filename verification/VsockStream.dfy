/** One vsock stream: what it has been asked to send, what has gone out, and how much
    the guest can take (emulator/plugin/vsock_goldfish/vsock.cpp, vsock_low_level.c;
    section 5.10.6.3 of the VIRTIO 1.1 specification). */
module VsockStream {
  import opened Arithmetic
  import opened Bytes

  const HEADER: nat := 44
  const HOST_BUF: nat := 0x1_0000

  /** A send reports its size in the upper 30 bits of a 32-bit result. */
  function Reported(n: nat): (r: u32)
    ensures r <= n && (r == n <==> n < 0x4000_0000)
  {
    n % 0x4000_0000
  }

  datatype Op = Request | Response | Rst | Shutdown | Rw | CreditUpdate | CreditRequest | Unknown

  datatype Header = Header(src: u32, dst: u32, op: Op, bufAlloc: u32, fwdCnt: u32)

  /** A packet in a receive buffer of the guest; its length field is |payload|. */
  datatype Packet = Packet(hdr: Header, payload: seq<byte>)

  // ----------------------------------------------------------- the low level

  /** What one send leaves: the receive buffers (their sizes), the packets placed, and
      whether it ran out of buffers. */
  datatype Sending = Sending(rx: seq<nat>, ps: seq<Packet>, full: bool)

  /** virtio_vsock_send_packet_host_to_guest: one packet per receive buffer until the
      data is gone. A buffer too small for a header is given back, and that ends the
      send when there is no data left. */
  function Send(rx: seq<nat>, hdr: Header, data: seq<byte>): Sending
    decreases |rx|
  {
    if rx == [] then Sending([], [], true)
    else if rx[0] < HEADER then
      if data == [] then Sending(rx[1..], [], false) else Send(rx[1..], hdr, data)
    else if |data| <= rx[0] - HEADER then Sending(rx[1..], [Packet(hdr, data)], false)
    else
      var size := rx[0] - HEADER;
      var r := Send(rx[1..], hdr, data[size..]);
      Sending(r.rx, [Packet(hdr, data[..size])] + r.ps, r.full)
  }

  function Payload(ps: seq<Packet>): seq<byte> {
    if ps == [] then [] else ps[0].payload + Payload(ps[1..])
  }

  /** Every packet carries this header. */
  ghost predicate Headed(ps: seq<Packet>, hdr: Header) {
    forall i :: 0 <= i < |ps| ==> ps[i].hdr == hdr
  }

  /** The guest's buffers hold a prefix of the data, in order, and all of it unless
      the buffers ran out. */
  lemma {:induction false} SendPlaces(rx: seq<nat>, hdr: Header, data: seq<byte>)
    ensures var r := Send(rx, hdr, data);
            && Headed(r.ps, hdr)
            && Payload(r.ps) <= data
            && (!r.full ==> Payload(r.ps) == data && |r.rx| < |rx|)
            && (r.full ==> r.rx == [])
    decreases |rx|
  {
    if rx != [] && rx[0] < HEADER && data != [] {
      SendPlaces(rx[1..], hdr, data);
    } else if rx != [] && rx[0] >= HEADER && |data| > rx[0] - HEADER {
      var size := rx[0] - HEADER;
      SendPlaces(rx[1..], hdr, data[size..]);
      assert data == data[..size] + data[size..];
      var r, r0 := Send(rx, hdr, data), Send(rx[1..], hdr, data[size..]);
      assert r.ps[1..] == r0.ps;
    }
  }

  ghost predicate RxOk(rx: seq<nat>) {
    forall i :: 0 <= i < |rx| ==> rx[i] >= HEADER
  }

  lemma {:induction false} SendKeepsRx(rx: seq<nat>, hdr: Header, data: seq<byte>)
    requires RxOk(rx)
    ensures RxOk(Send(rx, hdr, data).rx)
    decreases |rx|
  {
    if rx != [] && |data| > rx[0] - HEADER {
      SendKeepsRx(rx[1..], hdr, data[rx[0] - HEADER..]);
    }
  }

  /** A control packet is lost silently exactly when the next receive buffer is too
      small for a header. */
  lemma ControlLost(rx: seq<nat>, hdr: Header)
    ensures var r := Send(rx, hdr, []);
            && (r.full <==> rx == [])
            && ((!r.full && r.ps == []) <==> rx != [] && rx[0] < HEADER)
            && (r.ps == [] || r.ps == [Packet(hdr, [])])
            && (r.full ==> r.ps == [])
  {
  }

  // ------------------------------------------------------------- the history

  /** What happens to a stream, in order: a control operation is asked for, bytes are
      taken from the host side, a packet goes out. */
  datatype Item = Asked(op: Op) | Took(bytes: seq<byte>) | Out(p: Packet)

  /** The operations asked for and not sent since. */
  function Pending(log: seq<Item>): set<Op> {
    if log == [] then {}
    else
      var before, e := Pending(log[..|log| - 1]), log[|log| - 1];
      if e.Asked? then before + {e.op} else if e.Out? then before - {e.p.hdr.op} else before
  }

  /** The bytes taken. */
  function Taken(log: seq<Item>): seq<byte> {
    if log == [] then []
    else
      var before, e := Taken(log[..|log| - 1]), log[|log| - 1];
      if e.Took? then before + e.bytes else before
  }

  /** The packets gone out, and the bytes in them. */
  function Outs(log: seq<Item>): seq<Packet> {
    if log == [] then []
    else
      var before, e := Outs(log[..|log| - 1]), log[|log| - 1];
      if e.Out? then before + [e.p] else before
  }

  function Delivered(log: seq<Item>): seq<byte> {
    Payload(Outs(log))
  }

  /** The first packet opens the connection. */
  predicate Opens(ps: seq<Packet>) {
    ps != [] ==> ps[0].hdr.op == Request || ps[0].hdr.op == Response
  }

  function Emit(log: seq<Item>, ps: seq<Packet>): seq<Item> {
    log + seq(|ps|, (i: nat) requires i < |ps| => Out(ps[i]))
  }

  lemma Grow(log: seq<Item>, e: Item)
    requires !e.Out?
    ensures Pending(log + [e]) == if e.Asked? then Pending(log) + {e.op} else Pending(log)
    ensures Taken(log + [e]) == if e.Took? then Taken(log) + e.bytes else Taken(log)
    ensures Outs(log + [e]) == Outs(log)
  {
    assert (log + [e])[..|log|] == log;
  }

  lemma {:induction false} PayloadAppend(a: seq<Packet>, b: seq<Packet>)
    ensures Payload(a + b) == Payload(a) + Payload(b)
    decreases |a|
  {
    if a == [] {
      assert a + b == b;
    } else {
      PayloadAppend(a[1..], b);
      assert (a + b)[1..] == a[1..] + b;
      Regroup(a[0].payload, Payload(a[1..]), Payload(b));
    }
  }

  lemma {:induction false} EmitGrows(log: seq<Item>, ps: seq<Packet>, hdr: Header)
    requires Headed(ps, hdr)
    ensures Outs(Emit(log, ps)) == Outs(log) + ps
    ensures Taken(Emit(log, ps)) == Taken(log)
    ensures Pending(Emit(log, ps)) == if ps == [] then Pending(log) else Pending(log) - {hdr.op}
    decreases |ps|
  {
    if ps == [] {
      assert Emit(log, ps) == log;
    } else {
      var n := |ps| - 1;
      EmitGrows(log, ps[..n], hdr);
      assert Emit(log, ps)[..|log| + n] == Emit(log, ps[..n]);
      assert ps == ps[..n] + [ps[n]];
      Regroup(Outs(log), ps[..n], [ps[n]]);
    }
  }

  // --------------------------------------------------------------- the stream

  /** VsockStream, and beside it: its history, the length of the wire when it was
      made, the bytes the guest has taken out of its buffer, whether a send placed
      2^30 bytes or more, whether a control packet met a buffer too small, and whether
      the guest ever announced a buffer of 2^30 bytes or more. */
  datatype StreamState = Stream(
    guest: u32, host: u32,
    buf: seq<byte>, consumed: nat,
    bufAlloc: u32, fwdCnt: u32, sentCnt: u32, hostFwd: u32,
    mask: set<Op>, connected: bool,
    log: seq<Item>, since: nat, taken: nat, wide: bool, lost: bool, big: bool)

  /** The bytes consumed are a prefix of the buffer. */
  type Stream = s: StreamState | s.consumed <= |s.buf|
    witness Stream(0, 0, [], 0, 0, 0, 0, 0, {}, false, [], 0, 0, false, false, false)

  function NewStream(guest: u32, host: u32, since: nat): Stream {
    Stream(guest, host, [], 0, 0, 0, 0, 0, {}, false, [], since, 0, false, false, false)
  }

  /** SocketBuffer::peek. */
  function Rest(s: Stream): seq<byte> {
    s.buf[s.consumed..]
  }

  /** VsockStream::sendOp. */
  function Ask(s: Stream, op: Op): Stream {
    s.(mask := s.mask + {op}, log := s.log + [Asked(op)])
  }

  /** SocketBuffer::append. */
  function Take(s: Stream, data: seq<byte>): Stream {
    s.(buf := Rest(s) + data, consumed := 0, log := s.log + [Took(data)])
  }

  /** The order in which control operations go out. */
  function Order(): seq<Op> {
    [Request, Response, CreditUpdate, CreditRequest]
  }

  ghost predicate Conserved(s: Stream) {
    Taken(s.log) == Delivered(s.log) + Rest(s)
  }

  /** Nothing asked for is forgotten, and the first packet opens the connection. */
  ghost predicate Controlled(s: Stream) {
    && s.mask == Pending(s.log)
    && Opens(Outs(s.log))
    && (Outs(s.log) == [] ==> Request in s.mask || Response in s.mask)
  }

  /** What every stream keeps: its bytes are conserved exactly as long as no send
      overran its report, and its control operations as long as none was lost. */
  ghost predicate Sound(s: Stream) {
    && s.mask <= {Request, Response, CreditUpdate, CreditRequest}
    && (!s.wide ==> Conserved(s) && s.sentCnt == |Delivered(s.log)| % 0x1_0000_0000)
    && (s.wide ==> |Delivered(s.log)| + |Rest(s)| > |Taken(s.log)|)
    && (!s.lost ==> Controlled(s))
  }

  /** What it keeps towards a guest that counts honestly: the bytes in flight are
      within the window the guest announced. */
  ghost predicate InCredit(s: Stream) {
    && s.fwdCnt == s.taken % 0x1_0000_0000
    && (!s.wide ==> s.taken <= |Delivered(s.log)| <= s.taken + s.bufAlloc)
    && (!s.big ==> !s.wide && s.bufAlloc < 0x4000_0000)
  }

  lemma AskKeeps(s: Stream, op: Op)
    requires Sound(s) && op in {Request, Response, CreditUpdate, CreditRequest}
    ensures Sound(Ask(s, op)) && (InCredit(s) ==> InCredit(Ask(s, op)))
    ensures Outs(Ask(s, op).log) == Outs(s.log) && Taken(Ask(s, op).log) == Taken(s.log)
  {
    Grow(s.log, Asked(op));
  }

  lemma TakeKeeps(s: Stream, data: seq<byte>)
    requires Sound(s)
    ensures Sound(Take(s, data)) && (InCredit(s) ==> InCredit(Take(s, data)))
    ensures Outs(Take(s, data).log) == Outs(s.log)
    ensures Taken(Take(s, data).log) == Taken(s.log) + data
  {
    Grow(s.log, Took(data));
    Regroup(Delivered(s.log), Rest(s), data);
    var s1 := Take(s, data);
    assert s1.buf[0..] == s1.buf;
  }

  /** A new stream, once it has its first operation to send. */
  lemma OpenedSound(guest: u32, host: u32, since: nat, op: Op)
    requires op == Request || op == Response
    ensures var s := Ask(NewStream(guest, host, since), op); Sound(s) && InCredit(s) && Outs(s.log) == []
  {
    Grow([], Asked(op));
    assert [] + [Asked(op)] == [Asked(op)];
  }

  // ------------------------------------------------------------------- credit

  /** Subtraction and addition of 32-bit counters. */
  function Minus(a: u32, b: u32): u32 {
    if b <= a then a - b else a + 0x1_0000_0000 - b
  }

  function Plus(a: u32, b: u32): u32 {
    if a + b < 0x1_0000_0000 then a + b else a + b - 0x1_0000_0000
  }

  /** The free window as sendPacketsLocked computes it, in 32 bits. */
  function Window(s: Stream): u32 {
    Minus(s.bufAlloc, Minus(s.sentCnt, s.fwdCnt))
  }

  lemma WrappedDifference(a: nat, b: nat)
    requires b <= a < b + 0x1_0000_0000
    ensures Minus(a % 0x1_0000_0000, b % 0x1_0000_0000) == a - b
  {
    var d := a - b;
    var q, r := b / 0x1_0000_0000, b % 0x1_0000_0000;
    assert a == q * 0x1_0000_0000 + (r + d);
    if r + d < 0x1_0000_0000 {
      assert a % 0x1_0000_0000 == r + d;
    } else {
      assert a % 0x1_0000_0000 == r + d - 0x1_0000_0000;
    }
  }

  /** Counters that have wrapped any number of times still give the true window. */
  lemma WindowIsTrue(s: Stream)
    requires Sound(s) && InCredit(s) && !s.wide
    ensures Window(s) == s.taken + s.bufAlloc - |Delivered(s.log)|
  {
    WrappedDifference(|Delivered(s.log)|, s.taken);
  }

  /** A guest header that counts honestly: it acknowledges no more than was sent, and
      does not withdraw room that bytes in flight may need. */
  ghost predicate Honest(s: Stream, hdr: Header, taken: nat) {
    && hdr.fwdCnt == taken % 0x1_0000_0000
    && taken <= |Delivered(s.log)| <= taken + hdr.bufAlloc
  }

  /** Every guest packet carries the guest's counters. */
  function Update(s: Stream, hdr: Header, taken: nat): Stream {
    s.(bufAlloc := hdr.bufAlloc, fwdCnt := hdr.fwdCnt, taken := taken, big := s.big || hdr.bufAlloc >= 0x4000_0000)
  }

  // --------------------------------------------------------------- one turn

  /** What a turn of sending leaves of a stream. */
  datatype Turn = Turn(s: Stream, rx: seq<nat>, ps: seq<Packet>, full: bool)

  function HeaderOf(s: Stream, op: Op): Header {
    Header(s.host, s.guest, op, HOST_BUF, s.hostFwd)
  }

  /** The control operations from ops[i] on; a full queue leaves the others pending. */
  function SendOps(s: Stream, rx: seq<nat>, i: nat): Turn
    requires i <= |Order()|
    decreases |Order()| - i, |rx|
  {
    if i == |Order()| then Turn(s.(mask := {}), rx, [], false)
    else if Order()[i] !in s.mask then SendOps(s, rx, i + 1)
    else
      var r := Send(rx, HeaderOf(s, Order()[i]), []);
      if r.full then Turn(s, r.rx, [], true)
      else
        var t := SendOps(SentOp(s, Order()[i], r.ps), r.rx, i + 1);
        Turn(t.s, t.rx, r.ps + t.ps, t.full)
  }

  function SentOp(s: Stream, op: Op, ps: seq<Packet>): Stream {
    s.(mask := s.mask - {op}, log := Emit(s.log, ps), lost := s.lost || ps == [])
  }

  /** One send of data: as much as is there and the guest has room for. */
  function SendChunk(s: Stream, rx: seq<nat>, avail: nat): (r: Sending)
    ensures Payload(r.ps) <= Rest(s) && |Payload(r.ps)| <= avail
    ensures Headed(r.ps, HeaderOf(s, Rw)) && (!r.full ==> |r.rx| < |rx|)
  {
    var chunk := Rest(s)[..if |Rest(s)| < avail then |Rest(s)| else avail];
    SendPlaces(rx, HeaderOf(s, Rw), chunk);
    Send(rx, HeaderOf(s, Rw), chunk)
  }

  /** The data, while the guest has room; the caller learns the size of a send through
      Reported. */
  function SendData(s: Stream, rx: seq<nat>, avail: nat): (t: Turn)
    decreases |rx|
  {
    if avail == 0 || Rest(s) == [] then Turn(s, rx, [], false)
    else
      var r := SendChunk(s, rx, avail);
      var s1 := SentData(s, r.ps);
      if r.full then Turn(s1, r.rx, r.ps, true)
      else
        var t := SendData(s1, r.rx, avail - Reported(|Payload(r.ps)|));
        Turn(t.s, t.rx, r.ps + t.ps, t.full)
  }

  function SentData(s: Stream, ps: seq<Packet>): (s1: Stream)
    requires s.consumed + |Payload(ps)| <= |s.buf|
  {
    var n := |Payload(ps)|;
    s.(consumed := s.consumed + Reported(n), sentCnt := Plus(s.sentCnt, Reported(n)),
       log := Emit(s.log, ps), wide := s.wide || n >= 0x4000_0000)
  }

  /** The turn of one stream in sendPacketsLocked. */
  function SendStream(s: Stream, rx: seq<nat>): (t: Turn) {
    var avail := Window(s);
    var s0 := if avail == 0 then Ask(s, CreditRequest) else s;
    var t := SendOps(s0, rx, 0);
    OpsSame(s0, rx, 0);
    if t.full then t
    else
      var u := SendData(t.s, t.rx, avail);
      Turn(u.s, u.rx, t.ps + u.ps, u.full)
  }

  /** What a turn does not touch. */
  predicate Same(s: Stream, s1: Stream) {
    && s1.guest == s.guest && s1.host == s.host && s1.since == s.since
    && s1.bufAlloc == s.bufAlloc && s1.fwdCnt == s.fwdCnt && s1.taken == s.taken && s1.big == s.big
    && s1.connected == s.connected && s1.hostFwd == s.hostFwd
  }

  lemma {:induction false} OpsSame(s: Stream, rx: seq<nat>, i: nat)
    requires i <= |Order()|
    ensures var t := SendOps(s, rx, i);
            Same(s, t.s) && t.s.buf == s.buf && t.s.consumed == s.consumed &&
            t.s.sentCnt == s.sentCnt && t.s.wide == s.wide
    decreases |Order()| - i
  {
    if i < |Order()| {
      if Order()[i] !in s.mask {
        OpsSame(s, rx, i + 1);
      } else {
        var r := Send(rx, HeaderOf(s, Order()[i]), []);
        OpsSame(SentOp(s, Order()[i], r.ps), r.rx, i + 1);
      }
    }
  }

  /** The packets are those of this stream, and tell the guest the host's buffer size and
      what the stream has received. */
  ghost predicate Mine(ps: seq<Packet>, s: Stream) {
    forall i :: 0 <= i < |ps| ==> IsMine(ps[i], s.guest, s.host) && Tells(ps[i].hdr, s.hostFwd)
  }

  predicate Tells(hdr: Header, received: u32) {
    hdr.bufAlloc == 0x1_0000 && hdr.fwdCnt == received
  }

  predicate IsMine(p: Packet, guest: u32, host: u32) {
    p.hdr.src == host && p.hdr.dst == guest && p.hdr.op != Rst && p.hdr.op != Shutdown
  }

  /** What a piece of a turn keeps. */
  ghost predicate Advance(s: Stream, s1: Stream, ps: seq<Packet>, honest: bool) {
    && Same(s, s1) && Sound(s1) && Mine(ps, s)
    && Outs(s1.log) == Outs(s.log) + ps && Taken(s1.log) == Taken(s.log)
    && (honest ==> InCredit(s1))
  }

  lemma AdvanceTwice(s: Stream, s1: Stream, s2: Stream, ps: seq<Packet>, qs: seq<Packet>, honest: bool)
    requires Advance(s, s1, ps, honest) && Advance(s1, s2, qs, honest)
    ensures Advance(s, s2, ps + qs, honest)
  {
    Regroup(Outs(s.log), ps, qs);
  }

  /** A control packet goes out, or is lost. */
  lemma SentOpKeeps(s: Stream, i: nat, ps: seq<Packet>, honest: bool)
    requires Sound(s) && (honest ==> InCredit(s)) && i < |Order()| && Order()[i] in s.mask
    requires ps == [] || ps == [Packet(HeaderOf(s, Order()[i]), [])]
    requires forall j :: 0 <= j < i ==> Order()[j] !in s.mask
    ensures var s1 := SentOp(s, Order()[i], ps);
            Advance(s, s1, ps, honest) && (forall j :: 0 <= j < i + 1 ==> Order()[j] !in s1.mask)
  {
    var s1 := SentOp(s, Order()[i], ps);
    EmitGrows(s.log, ps, HeaderOf(s, Order()[i]));
    PayloadAppend(Outs(s.log), ps);
    assert Payload(ps) == [];
    assert Delivered(s1.log) == Delivered(s.log);
    assert Order()[0] == Request && Order()[1] == Response;
  }

  /** What the control operations from the i-th on keep. */
  ghost predicate OpsKept(s: Stream, rx: seq<nat>, i: nat, honest: bool)
    requires i <= |Order()|
  {
    var t := SendOps(s, rx, i);
    && Advance(s, t.s, t.ps, honest)
    && (!t.full ==> t.s.mask == {})
    && (RxOk(rx) ==> t.s.lost == s.lost && RxOk(t.rx))
  }

  lemma {:induction false} OpsKeep(s: Stream, rx: seq<nat>, i: nat, honest: bool)
    requires Sound(s) && (honest ==> InCredit(s)) && i <= |Order()|
    requires forall j :: 0 <= j < i ==> Order()[j] !in s.mask
    ensures OpsKept(s, rx, i, honest)
    decreases |Order()| - i
  {
    if i == |Order()| {
      assert Order()[0] == Request && Order()[1] == Response;
      assert Order()[2] == CreditUpdate && Order()[3] == CreditRequest;
      assert s.mask == {};
    } else if Order()[i] !in s.mask {
      OpsKeep(s, rx, i + 1, honest);
    } else {
      var hdr := HeaderOf(s, Order()[i]);
      var r := Send(rx, hdr, []);
      ControlLost(rx, hdr);
      if !r.full {
        SentOpKeeps(s, i, r.ps, honest);
        OpsKeep(SentOp(s, Order()[i], r.ps), r.rx, i + 1, honest);
      }
      OpsNext(s, rx, i, honest);
    }
  }

  lemma OpsNext(s: Stream, rx: seq<nat>, i: nat, honest: bool)
    requires Sound(s) && (honest ==> InCredit(s)) && i < |Order()| && Order()[i] in s.mask
    requires var r := Send(rx, HeaderOf(s, Order()[i]), []);
             var s1 := SentOp(s, Order()[i], r.ps);
             r.full || (Advance(s, s1, r.ps, honest) && (RxOk(rx) ==> s1.lost == s.lost && RxOk(r.rx))
                        && OpsKept(s1, r.rx, i + 1, honest))
    ensures OpsKept(s, rx, i, honest)
  {
    var r := Send(rx, HeaderOf(s, Order()[i]), []);
    ControlLost(rx, HeaderOf(s, Order()[i]));
    if !r.full {
      var s1 := SentOp(s, Order()[i], r.ps);
      var t := SendOps(s1, r.rx, i + 1);
      AdvanceTwice(s, s1, t.s, r.ps, t.ps, honest);
    }
  }

  /** The guest, if it counts honestly, has at least this much room. */
  ghost predicate Room(s: Stream, avail: nat, honest: bool) {
    honest ==> InCredit(s) && (!s.wide ==> |Delivered(s.log)| + avail <= s.taken + s.bufAlloc)
  }

  /** Nothing goes out before the stream is open. */
  ghost predicate Opened(s: Stream) {
    !s.lost ==> Outs(s.log) != []
  }

  lemma WrappedSum(a: nat, b: u32)
    ensures Plus(a % 0x1_0000_0000, b) == (a + b) % 0x1_0000_0000
  {
    var q, r := a / 0x1_0000_0000, a % 0x1_0000_0000;
    assert a + b == q * 0x1_0000_0000 + (r + b);
  }

  lemma MovePrefix(all: seq<byte>, out: seq<byte>, buf: seq<byte>, from: nat, p: seq<byte>)
    requires from <= |buf| && all == out + buf[from..] && p <= buf[from..]
    ensures all == out + p + buf[from + |p|..]
  {
    assert buf[from..] == p + buf[from + |p|..];
    Regroup(out, p, buf[from + |p|..]);
  }

  lemma SentDataLog(s: Stream, ps: seq<Packet>)
    requires Sound(s) && Headed(ps, HeaderOf(s, Rw)) && Payload(ps) <= Rest(s)
    ensures var s1 := SentData(s, ps);
            && Delivered(s1.log) == Delivered(s.log) + Payload(ps)
            && Taken(s1.log) == Taken(s.log)
  {
    EmitGrows(s.log, ps, HeaderOf(s, Rw));
    PayloadAppend(Outs(s.log), ps);
  }

  lemma SentNarrow(s: Stream, ps: seq<Packet>)
    requires Sound(s) && Headed(ps, HeaderOf(s, Rw)) && Payload(ps) <= Rest(s)
    requires !SentData(s, ps).wide
    ensures var s1 := SentData(s, ps); Conserved(s1) && s1.sentCnt == |Delivered(s1.log)| % 0x1_0000_0000
  {
    SentCount(s, ps);
    SentDataLog(s, ps);
    MovePrefix(Taken(s.log), Delivered(s.log), s.buf, s.consumed, Payload(ps));
  }

  lemma SentCount(s: Stream, ps: seq<Packet>)
    requires Sound(s) && Headed(ps, HeaderOf(s, Rw)) && Payload(ps) <= Rest(s)
    requires !SentData(s, ps).wide
    ensures var s1 := SentData(s, ps); s1.sentCnt == |Delivered(s1.log)| % 0x1_0000_0000
  {
    SentDataLog(s, ps);
    WrappedSum(|Delivered(s.log)|, |Payload(ps)|);
  }

  lemma SentWide(s: Stream, ps: seq<Packet>)
    requires Sound(s) && Headed(ps, HeaderOf(s, Rw)) && Payload(ps) <= Rest(s)
    requires SentData(s, ps).wide
    ensures var s1 := SentData(s, ps); |Delivered(s1.log)| + |Rest(s1)| > |Taken(s1.log)|
  {
    SentDataLog(s, ps);
  }

  lemma SentDataKeeps(s: Stream, ps: seq<Packet>, avail: nat, honest: bool)
    requires Sound(s) && Headed(ps, HeaderOf(s, Rw)) && Opened(s) && Room(s, avail, honest)
    requires Payload(ps) <= Rest(s) && |Payload(ps)| <= avail
    ensures var s1 := SentData(s, ps);
            Advance(s, s1, ps, honest) && Opened(s1) && Room(s1, avail - Reported(|Payload(ps)|), honest)
  {
    SentDataLog(s, ps);
    if SentData(s, ps).wide {
      SentWide(s, ps);
    } else {
      SentNarrow(s, ps);
    }
    EmitGrows(s.log, ps, HeaderOf(s, Rw));
    assert Rw !in s.mask;
  }

  lemma ChunkKeepsRx(s: Stream, rx: seq<nat>, avail: nat)
    requires RxOk(rx)
    ensures RxOk(SendChunk(s, rx, avail).rx)
  {
    SendKeepsRx(rx, HeaderOf(s, Rw), Rest(s)[..if |Rest(s)| < avail then |Rest(s)| else avail]);
  }

  /** What some sends of data, started on these buffers, leave of a stream. */
  ghost predicate DataKept(s: Stream, rx: seq<nat>, t: Turn, honest: bool) {
    Advance(s, t.s, t.ps, honest) && t.s.lost == s.lost && (RxOk(rx) ==> RxOk(t.rx))
  }

  lemma DataJoin(s: Stream, s1: Stream, rx: seq<nat>, r: Sending, t: Turn, honest: bool)
    requires Advance(s, s1, r.ps, honest) && s1.lost == s.lost && (RxOk(rx) ==> RxOk(r.rx))
    requires DataKept(s1, r.rx, t, honest)
    ensures DataKept(s, rx, Turn(t.s, t.rx, r.ps + t.ps, t.full), honest)
  {
    AdvanceTwice(s, s1, t.s, r.ps, t.ps, honest);
  }

  /** One send of data, and what the next one starts from. */
  lemma ChunkKeeps(s: Stream, rx: seq<nat>, avail: nat, honest: bool)
    requires Sound(s) && Opened(s) && Room(s, avail, honest)
    ensures var r := SendChunk(s, rx, avail);
            var s1 := SentData(s, r.ps);
            && Advance(s, s1, r.ps, honest) && s1.lost == s.lost && (RxOk(rx) ==> RxOk(r.rx))
            && Opened(s1) && Room(s1, avail - Reported(|Payload(r.ps)|), honest)
  {
    var r := SendChunk(s, rx, avail);
    SentDataKeeps(s, r.ps, avail, honest);
    if RxOk(rx) {
      ChunkKeepsRx(s, rx, avail);
    }
  }

  lemma {:induction false} DataKeeps(s: Stream, rx: seq<nat>, avail: nat, honest: bool)
    requires Sound(s) && Opened(s) && Room(s, avail, honest)
    ensures DataKept(s, rx, SendData(s, rx, avail), honest)
    decreases |rx|
  {
    if avail != 0 && Rest(s) != [] {
      ChunkKeeps(s, rx, avail, honest);
      var r := SendChunk(s, rx, avail);
      if !r.full {
        var s1, left: nat := SentData(s, r.ps), avail - Reported(|Payload(r.ps)|);
        DataKeeps(s1, r.rx, left, honest);
        DataJoin(s, s1, rx, r, SendData(s1, r.rx, left), honest);
      }
    }
  }

  /** A turn keeps all that a stream keeps, whatever the receive buffers. */
  lemma StreamKeeps(s: Stream, rx: seq<nat>, honest: bool)
    requires Sound(s) && (honest ==> InCredit(s))
    ensures var t := SendStream(s, rx);
            && Advance(s, t.s, t.ps, honest)
            && (RxOk(rx) ==> t.s.lost == s.lost && RxOk(t.rx))
  {
    var avail := Window(s);
    var s0 := if avail == 0 then Ask(s, CreditRequest) else s;
    if avail == 0 {
      AskKeeps(s, CreditRequest);
    }
    assert Outs(s.log) + [] == Outs(s.log);
    assert Advance(s, s0, [], honest);
    OpsKeep(s0, rx, 0, honest);
    OpsSame(s0, rx, 0);
    var t := SendOps(s0, rx, 0);
    AdvanceTwice(s, s0, t.s, [], t.ps, honest);
    assert [] + t.ps == t.ps;
    if !t.full {
      RoomAtFirst(s, t.s, t.ps, honest);
      DataKeeps(t.s, t.rx, avail, honest);
      var u := SendData(t.s, t.rx, avail);
      AdvanceTwice(s, t.s, u.s, t.ps, u.ps, honest);
    }
  }

  lemma RoomAtFirst(s: Stream, s1: Stream, ps: seq<Packet>, honest: bool)
    requires Sound(s) && Advance(s, s1, ps, honest) && s1.mask == {}
    requires s1.wide == s.wide && s1.sentCnt == s.sentCnt
    ensures Opened(s1) && Room(s1, Window(s), honest)
  {
    if honest && !s1.wide {
      WindowIsTrue(s1);
      assert Window(s1) == Window(s);
    }
  }

  lemma WindowShrinks(s: Stream, n: nat)
    requires n <= Window(s)
    ensures Window(s.(sentCnt := Plus(s.sentCnt, n))) == Window(s) - n
  {
  }

  /** Everything has gone out that the guest has room for. */
  predicate Drained(s: Stream) {
    Rest(s) == [] || Window(s) == 0
  }

  lemma ChunkWindow(s: Stream, rx: seq<nat>)
    ensures var r := SendChunk(s, rx, Window(s));
            Window(SentData(s, r.ps)) == Window(s) - Reported(|Payload(r.ps)|)
  {
    var r := SendChunk(s, rx, Window(s));
    WindowShrinks(s, Reported(|Payload(r.ps)|));
  }

  lemma {:induction false} DataDrains(s: Stream, rx: seq<nat>)
    ensures var t := SendData(s, rx, Window(s));
            t.s.mask == s.mask && (!t.full ==> Drained(t.s))
    decreases |rx|
  {
    var avail := Window(s);
    if avail != 0 && Rest(s) != [] {
      var r := SendChunk(s, rx, avail);
      var s1 := SentData(s, r.ps);
      ChunkWindow(s, rx);
      if !r.full {
        DataDrains(s1, r.rx);
      }
    }
  }

  /** A turn that does not run out of receive buffers leaves nothing to send. */
  lemma StreamDrains(s: Stream, rx: seq<nat>)
    requires Sound(s)
    ensures var t := SendStream(s, rx);
            (!t.full ==> t.s.mask == {} && Drained(t.s))
  {
    var s0 := if Window(s) == 0 then Ask(s, CreditRequest) else s;
    if Window(s) == 0 {
      AskKeeps(s, CreditRequest);
    }
    OpsSame(s0, rx, 0);
    OpsKeep(s0, rx, 0, false);
    var t := SendOps(s0, rx, 0);
    if !t.full {
      DataDrains(t.s, t.rx);
    }
  }

  // --------------------------------------------------------------- wide sends

  /** The bytes of data that the receive buffers can hold. */
  function Capacity(rx: seq<nat>): nat {
    if rx == [] then 0 else (if rx[0] < HEADER then 0 else rx[0] - HEADER) + Capacity(rx[1..])
  }

  /** A send of data fills the receive buffers or places all of it. */
  lemma {:induction false} SendFills(rx: seq<nat>, hdr: Header, data: seq<byte>)
    requires data != []
    ensures |Payload(Send(rx, hdr, data).ps)| == if |data| < Capacity(rx) then |data| else Capacity(rx)
    decreases |rx|
  {
    if rx != [] {
      if rx[0] < HEADER {
        SendFills(rx[1..], hdr, data);
      } else if |data| > rx[0] - HEADER {
        SendFills(rx[1..], hdr, data[rx[0] - HEADER..]);
        assert Send(rx, hdr, data).ps[1..] == Send(rx[1..], hdr, data[rx[0] - HEADER..]).ps;
      }
    }
  }

  lemma {:induction false} WideStays(s: Stream, rx: seq<nat>, avail: nat)
    requires s.wide
    ensures SendData(s, rx, avail).s.wide
    decreases |rx|
  {
    if avail != 0 && Rest(s) != [] {
      var r := SendChunk(s, rx, avail);
      if !r.full {
        WideStays(SentData(s, r.ps), r.rx, avail - Reported(|Payload(r.ps)|));
      }
    }
  }

  lemma ChunkWide(s: Stream, rx: seq<nat>, avail: nat)
    requires !s.wide && avail != 0 && Rest(s) != []
    ensures var r := SendChunk(s, rx, avail);
            var s1 := SentData(s, r.ps);
            && (s1.wide <==> |Rest(s)| >= 0x4000_0000 && avail >= 0x4000_0000 && Capacity(rx) >= 0x4000_0000)
            && (!s1.wide && !r.full ==> Rest(s1) == [] || Reported(|Payload(r.ps)|) == avail)
  {
    var chunk := Rest(s)[..if |Rest(s)| < avail then |Rest(s)| else avail];
    SendFills(rx, HeaderOf(s, Rw), chunk);
    SendPlaces(rx, HeaderOf(s, Rw), chunk);
  }

  lemma DataWide(s: Stream, rx: seq<nat>, avail: nat)
    requires !s.wide
    ensures SendData(s, rx, avail).s.wide <==>
            |Rest(s)| >= 0x4000_0000 && avail >= 0x4000_0000 && Capacity(rx) >= 0x4000_0000
  {
    if avail != 0 && Rest(s) != [] {
      ChunkWide(s, rx, avail);
      var r := SendChunk(s, rx, avail);
      var s1, left: nat := SentData(s, r.ps), avail - Reported(|Payload(r.ps)|);
      if s1.wide {
        WideStays(s1, r.rx, left);
      }
    }
  }

  /** Each control operation takes one receive buffer, and the turn runs out when there
      are fewer. */
  lemma {:induction false} OpsBuffers(s: Stream, rx: seq<nat>, i: nat)
    requires i <= |Order()| && s.mask <= {Request, Response, CreditUpdate, CreditRequest}
    requires forall j :: 0 <= j < i ==> Order()[j] !in s.mask
    ensures var t := SendOps(s, rx, i);
            && (t.full <==> |rx| < |s.mask|)
            && (!t.full ==> t.rx == rx[|s.mask|..])
    decreases |Order()| - i
  {
    if i == |Order()| {
      assert Order()[0] == Request && Order()[1] == Response;
      assert Order()[2] == CreditUpdate && Order()[3] == CreditRequest;
      assert s.mask == {};
    } else if Order()[i] !in s.mask {
      OpsBuffers(s, rx, i + 1);
    } else if rx != [] {
      var r := Send(rx, HeaderOf(s, Order()[i]), []);
      OpsBuffers(SentOp(s, Order()[i], r.ps), rx[1..], i + 1);
      assert |s.mask| == 1 + |s.mask - {Order()[i]}|;
    }
  }

  /** A turn overruns the reported size exactly when the stream has 2^30 bytes to send, the
      guest's window is as wide, and so are the receive buffers that its pending control
      operations leave. */
  lemma WideExactly(s: Stream, rx: seq<nat>)
    requires Sound(s) && !s.wide
    ensures SendStream(s, rx).s.wide <==>
            && |Rest(s)| >= 0x4000_0000 && Window(s) >= 0x4000_0000
            && |s.mask| <= |rx| && Capacity(rx[|s.mask|..]) >= 0x4000_0000
  {
    var s0 := if Window(s) == 0 then Ask(s, CreditRequest) else s;
    OpsSame(s0, rx, 0);
    OpsBuffers(s0, rx, 0);
    var t := SendOps(s0, rx, 0);
    if !t.full {
      DataWide(t.s, t.rx, Window(s));
    }
  }
}
