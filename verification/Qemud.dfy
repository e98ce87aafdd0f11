/** The qemud framing: a four-byte size and a payload, cut anywhere by the transport
    (emulator/devices/qemud.cpp). */
module Qemud {
  import opened Arithmetic
  import opened Bytes

  type Message = seq<byte>

  function HexDigit(n: nat): byte
    requires n < 16
  {
    if n < 10 then 48 + n else 65 + (n - 10)
  }

  /** parseHex1. */
  function ParseHex1(c: byte): nat {
    if 48 <= c <= 57 then c - 48
    else if 65 <= c <= 70 then c - 65 + 10
    else if 97 <= c <= 102 then c - 97 + 10
    else 0
  }

  /** encodeRequestSize, for a 32-bit size. */
  function EncodeSize(size: nat): (d: seq<byte>)
    requires size < 0x1_0000_0000
    ensures |d| == 4
  {
    if size <= 0xFFFF then
      [HexDigit(size / 0x1000), HexDigit(size / 0x100 % 16), HexDigit(size / 0x10 % 16),
       HexDigit(size % 16)]
    else
      var top := size / 0x100_0000;
      [if top < 128 then top + 128 else top, size / 0x1_0000 % 256, size / 0x100 % 256, size % 256]
  }

  /** decodeRequestSize. */
  function DecodeSize(d: seq<byte>): nat
    requires |d| >= 4
  {
    if d[0] >= 128 then
      (d[0] - 128) * 0x100_0000 + d[1] * 0x1_0000 + d[2] * 0x100 + d[3]
    else
      ParseHex1(d[0]) * 0x1000 + ParseHex1(d[1]) * 0x100 + ParseHex1(d[2]) * 0x10 + ParseHex1(d[3])
  }

  lemma HexDigits(size: nat)
    requires size <= 0xFFFF
    ensures size / 0x1000 < 16
    ensures size == size / 0x1000 * 0x1000 + size / 0x100 % 16 * 0x100 + size / 0x10 % 16 * 0x10 + size % 16
  {
    NestedDiv(size, 0x10, 0x10);
    NestedDiv(size, 0x100, 0x10);
  }

  lemma BinaryDigits(size: nat)
    requires size < 0x1_0000_0000
    ensures size / 0x100_0000 < 256
    ensures size == size / 0x100_0000 * 0x100_0000 + size / 0x1_0000 % 256 * 0x1_0000
                    + size / 0x100 % 256 * 0x100 + size % 256
  {
    NestedDiv(size, 0x100, 0x100);
    NestedDiv(size, 0x1_0000, 0x100);
  }

  lemma HexRoundTrip(n: nat)
    requires n < 16
    ensures ParseHex1(HexDigit(n)) == n && HexDigit(n) < 128
  {
  }

  /** A size survives the header exactly when it has 31 bits. */
  lemma SizeRoundTrip(size: nat)
    requires size < 0x1_0000_0000
    ensures DecodeSize(EncodeSize(size)) == size <==> size < 0x8000_0000
  {
    if size <= 0xFFFF {
      HexDigits(size);
      HexRoundTrip(size / 0x1000);
      HexRoundTrip(size / 0x100 % 16);
      HexRoundTrip(size / 0x10 % 16);
      HexRoundTrip(size % 16);
    } else {
      BinaryDigits(size);
    }
  }

  /** The character is the hexadecimal digit v, in either case. */
  predicate IsHex(c: byte, v: nat) {
    v < 16 && (c as char == "0123456789abcdef"[v] || c as char == "0123456789ABCDEF"[v])
  }

  /** Four hexadecimal digits, in either case, are their number; a first byte from 128 on
      marks a number of four bytes without that bit. */
  lemma HeaderMeaning(d: seq<byte>, v: seq<nat>)
    requires |d| == 4
    ensures |v| == 4 && (forall i :: 0 <= i < 4 ==> IsHex(d[i], v[i])) ==>
              DecodeSize(d) == ((v[0] * 16 + v[1]) * 16 + v[2]) * 16 + v[3]
    ensures d[0] >= 128 ==> DecodeSize(d) == BigEndian(d) - 0x8000_0000
  {
    BigEndianFour(d);
    if |v| == 4 && forall i :: 0 <= i < 4 ==> IsHex(d[i], v[i]) {
      HexValue(d[0], v[0]);
      HexValue(d[1], v[1]);
      HexValue(d[2], v[2]);
      HexValue(d[3], v[3]);
    }
  }

  /** Any other character counts as 0. */
  lemma NoHexValue(c: byte)
    ensures ParseHex1(c) == 0 || IsHex(c, ParseHex1(c))
  {
    if 48 <= c <= 57 {
      assert c as char == "0123456789abcdef"[c - 48];
    } else if 65 <= c <= 70 {
      assert c as char == "0123456789ABCDEF"[c - 55];
    } else if 97 <= c <= 102 {
      assert c as char == "0123456789abcdef"[c - 87];
    }
  }

  lemma HexValue(c: byte, v: nat)
    requires IsHex(c, v)
    ensures ParseHex1(c) == v && c < 128
  {
  }

  /** A size of up to 16 bits is sent in upper-case digits, a larger one with the top bit
      of its first byte set. */
  lemma EncodedForm(size: nat)
    requires size < 0x1_0000_0000
    ensures size <= 0xFFFF ==>
              forall i :: 0 <= i < 4 ==> EncodeSize(size)[i] as char in "0123456789ABCDEF"
    ensures size > 0xFFFF ==> EncodeSize(size)[0] >= 128
  {
    if size <= 0xFFFF {
      HexDigits(size);
      UpperDigit(size / 0x1000);
      UpperDigit(size / 0x100 % 16);
      UpperDigit(size / 0x10 % 16);
      UpperDigit(size % 16);
    }
  }

  lemma UpperDigit(n: nat)
    requires n < 16
    ensures HexDigit(n) as char in "0123456789ABCDEF"
  {
    assert HexDigit(n) as char == "0123456789ABCDEF"[n];
  }

  // ------------------------------------------------------------ what a stream says

  /** The first message is complete. */
  predicate Complete(s: seq<byte>) {
    |s| >= 4 && |s| >= 4 + DecodeSize(s)
  }

  /** The complete messages of a stream, in order. */
  function Messages(s: seq<byte>): seq<Message>
    decreases |s|
  {
    if !Complete(s) then []
    else [s[4..4 + DecodeSize(s)]] + Messages(s[4 + DecodeSize(s)..])
  }

  /** What follows them. */
  function Rest(s: seq<byte>): (r: seq<byte>)
    ensures !Complete(r) && |r| <= |s|
    decreases |s|
  {
    if !Complete(s) then s else Rest(s[4 + DecodeSize(s)..])
  }

  lemma SameSize(a: seq<byte>, s: seq<byte>)
    requires |a| >= 4 && a <= s
    ensures DecodeSize(s) == DecodeSize(a)
  {
    assert s[0] == a[0] && s[1] == a[1] && s[2] == a[2] && s[3] == a[3];
  }

  /** A stream that starts with a header and its payload. */
  lemma FirstMessage(s: seq<byte>, m: Message, tail: seq<byte>)
    requires |s| >= 4 && DecodeSize(s) == |m| && s[4..] == m + tail
    ensures Messages(s) == [m] + Messages(tail) && Rest(s) == Rest(tail)
  {
    assert |s| == 4 + |m| + |tail|;
    assert s[4..4 + |m|] == s[4..][..|m|] == m;
    assert s[4 + |m|..] == s[4..][|m|..] == tail;
  }

  /** More bytes only add messages, and only the rest matters for them. */
  lemma {:induction false} MessagesGrow(a: seq<byte>, b: seq<byte>)
    ensures Messages(a + b) == Messages(a) + Messages(Rest(a) + b)
    ensures Rest(a + b) == Rest(Rest(a) + b)
    decreases |a|
  {
    if Complete(a) {
      var k := 4 + DecodeSize(a);
      SameSize(a, a + b);
      assert (a + b)[4..] == a[4..k] + (a[k..] + b);
      FirstMessage(a + b, a[4..k], a[k..] + b);
      MessagesGrow(a[k..], b);
      assert [a[4..k]] + (Messages(a[k..]) + Messages(Rest(a[k..]) + b))
          == [a[4..k]] + Messages(a[k..]) + Messages(Rest(a[k..]) + b);
    } else {
      assert [] + Messages(a + b) == Messages(a + b);
    }
  }

  // ------------------------------------------------------------------ the parser

  /** What the parser can be holding back: nothing, part of a size, or a size with
      part of its payload. */
  predicate Held(buf: seq<byte>) {
    |buf| <= 4 || |buf| < 4 + DecodeSize(buf)
  }

  /** Parser::onReceive: what is delivered and what is held back. */
  function Feed(buf: seq<byte>, data: seq<byte>): (r: (seq<Message>, seq<byte>))
    requires Held(buf)
    ensures Held(r.1)
    decreases |data|, |buf|
  {
    if data == [] then ([], buf)
    else if buf == [] then (Messages(data), Rest(data))
    else if |buf| < 4 then
      var c := if 4 - |buf| < |data| then 4 - |buf| else |data|;
      Feed(buf + data[..c], data[c..])
    else
      var size := DecodeSize(buf);
      if |buf| == 4 then
        if |data| >= size then
          var (ms, b) := Feed([], data[size..]);
          ([data[..size]] + ms, b)
        else ([], buf + data)
      else
        var c := if 4 + size - |buf| < |data| then 4 + size - |buf| else |data|;
        if |buf| + c == 4 + size then
          var (ms, b) := Feed([], data[c..]);
          ([(buf + data[..c])[4..]] + ms, b)
        else ([], buf + data)
  }

  /** A held-back buffer holds no message but possibly one: a lone header that
      announces an empty payload. */
  lemma HeldMessages(buf: seq<byte>)
    requires Held(buf)
    ensures Complete(buf) <==> |buf| == 4 && DecodeSize(buf) == 0
    ensures Messages(buf) == if Complete(buf) then [[]] else []
    ensures Rest(buf) == if Complete(buf) then [] else buf
  {
    if Complete(buf) {
      assert buf[4..] == [] && buf[4..4] == [];
      assert Messages([]) == [];
    }
  }

  /** Delivered and held back together are what the bytes say. */
  lemma {:induction false} FeedMeaning(buf: seq<byte>, data: seq<byte>)
    requires Held(buf)
    ensures var (ms, b) := Feed(buf, data);
            ms + Messages(b) == Messages(buf + data) && Rest(b) == Rest(buf + data)
    decreases |data|, |buf|
  {
    if data == [] {
      assert buf + data == buf;
      assert [] + Messages(buf) == Messages(buf);
    } else if buf == [] {
      assert buf + data == data;
      RestIsRest(data);
    } else if |buf| < 4 {
      var c := if 4 - |buf| < |data| then 4 - |buf| else |data|;
      assert buf + data[..c] + data[c..] == buf + data;
      FeedMeaning(buf + data[..c], data[c..]);
    } else {
      FeedPayload(buf, data);
    }
  }

  lemma RestIsRest(data: seq<byte>)
    ensures Messages(data) + Messages(Rest(data)) == Messages(data)
    ensures Rest(Rest(data)) == Rest(data)
  {
    assert Messages(Rest(data)) == [];
  }

  /** One step of the parser when the announced payload is there: after a lone size,
      and with part of the payload held. */
  lemma FeedWhole(buf: seq<byte>, data: seq<byte>)
    requires Held(buf) && |buf| >= 4 && data != [] && |buf| + |data| >= 4 + DecodeSize(buf)
    ensures var c := 4 + DecodeSize(buf) - |buf|;
            var next := Feed([], data[c..]);
            Feed(buf, data) == ([(buf + data[..c])[4..]] + next.0, next.1)
    ensures |buf| == 4 ==> (buf + data[..DecodeSize(buf)])[4..] == data[..DecodeSize(buf)]
  {
    if |buf| == 4 {
      FeedAfterSize(buf, data);
      DropHeader(buf, data[..DecodeSize(buf)]);
    } else {
      FeedAfterPart(buf, data);
    }
  }

  lemma FeedAfterSize(buf: seq<byte>, data: seq<byte>)
    requires |buf| == 4 && data != [] && |data| >= DecodeSize(buf)
    ensures var size := DecodeSize(buf);
            var next := Feed([], data[size..]);
            Feed(buf, data) == ([(buf + data[..size])[4..]] + next.0, next.1)
  {
    DropHeader(buf, data[..DecodeSize(buf)]);
  }

  lemma FeedAfterPart(buf: seq<byte>, data: seq<byte>)
    requires Held(buf) && |buf| > 4 && data != [] && |buf| + |data| >= 4 + DecodeSize(buf)
    ensures var c := 4 + DecodeSize(buf) - |buf|;
            var next := Feed([], data[c..]);
            Feed(buf, data) == ([(buf + data[..c])[4..]] + next.0, next.1)
  {
    var c := 4 + DecodeSize(buf) - |buf|;
    assert 0 < c <= |data|;
  }

  lemma DropHeader(buf: seq<byte>, m: seq<byte>)
    requires |buf| == 4
    ensures (buf + m)[4..] == m
  {
  }

  /** One step when it is not. */
  lemma FeedShort(buf: seq<byte>, data: seq<byte>)
    requires Held(buf) && |buf| >= 4 && data != [] && |buf| + |data| < 4 + DecodeSize(buf)
    ensures Held(buf + data)
    ensures Feed(buf, data) == ([] + Feed(buf + data, []).0, Feed(buf + data, []).1)
  {
    SameSize(buf, buf + data);
    assert Feed(buf + data, []) == ([], buf + data);
    assert [] + Feed(buf + data, []).0 == [];
  }

  /** One step while the size is incomplete. */
  lemma FeedSize(buf: seq<byte>, data: seq<byte>)
    requires 0 < |buf| < 4 && data != []
    ensures var c := if 4 - |buf| < |data| then 4 - |buf| else |data|;
            var next := Feed(buf + data[..c], data[c..]);
            Feed(buf, data) == ([] + next.0, next.1)
  {
    var c := if 4 - |buf| < |data| then 4 - |buf| else |data|;
    assert [] + Feed(buf + data[..c], data[c..]).0 == Feed(buf + data[..c], data[c..]).0;
  }

  /** The stream that the buffer and the data make up in that case. */
  lemma WholeMessage(buf: seq<byte>, data: seq<byte>)
    requires Held(buf) && |buf| >= 4 && |buf| + |data| >= 4 + DecodeSize(buf)
    ensures var c := 4 + DecodeSize(buf) - |buf|;
            var m := (buf + data[..c])[4..];
            && Messages(buf + data) == [m] + Messages(data[c..])
            && Rest(buf + data) == Rest(data[c..])
  {
    var c := 4 + DecodeSize(buf) - |buf|;
    var m := (buf + data[..c])[4..];
    SameSize(buf, buf + data);
    assert (buf + data)[4..] == m + data[c..];
    FirstMessage(buf + data, m, data[c..]);
  }

  lemma {:induction false} FeedPayload(buf: seq<byte>, data: seq<byte>)
    requires Held(buf) && |buf| >= 4 && data != []
    ensures var (ms, b) := Feed(buf, data);
            ms + Messages(b) == Messages(buf + data) && Rest(b) == Rest(buf + data)
    decreases |data|, |buf|, 0
  {
    var c := 4 + DecodeSize(buf) - |buf|;
    if |data| >= c {
      FeedMeaning([], data[c..]);
      assert [] + data[c..] == data[c..];
      PayloadWhole(buf, data);
    } else {
      PayloadShort(buf, data);
    }
  }

  lemma PayloadWhole(buf: seq<byte>, data: seq<byte>)
    requires Held(buf) && |buf| >= 4 && data != [] && |buf| + |data| >= 4 + DecodeSize(buf)
    requires var tail := data[4 + DecodeSize(buf) - |buf|..];
             var (ms, b) := Feed([], tail);
             ms + Messages(b) == Messages(tail) && Rest(b) == Rest(tail)
    ensures var (ms, b) := Feed(buf, data);
            ms + Messages(b) == Messages(buf + data) && Rest(b) == Rest(buf + data)
  {
    var c := 4 + DecodeSize(buf) - |buf|;
    var m, next := (buf + data[..c])[4..], Feed([], data[c..]);
    FeedWhole(buf, data);
    WholeMessage(buf, data);
    Regroup([m], next.0, Messages(next.1));
  }

  lemma PayloadShort(buf: seq<byte>, data: seq<byte>)
    requires Held(buf) && |buf| >= 4 && data != [] && |buf| + |data| < 4 + DecodeSize(buf)
    ensures var (ms, b) := Feed(buf, data);
            ms + Messages(b) == Messages(buf + data) && Rest(b) == Rest(buf + data)
  {
    SameSize(buf, buf + data);
    assert Feed(buf, data) == ([], buf + data);
    assert [] + Messages(buf + data) == Messages(buf + data);
  }

  // -------------------------------------------------------------- cut anywhere

  /** Everything a parser delivers over a sequence of calls. */
  function FeedAll(buf: seq<byte>, chunks: seq<seq<byte>>): (r: (seq<Message>, seq<byte>))
    requires Held(buf)
    ensures Held(r.1)
    decreases |chunks|
  {
    if chunks == [] then ([], buf)
    else
      var (ms, b) := Feed(buf, chunks[0]);
      var (ms', b') := FeedAll(b, chunks[1..]);
      (ms + ms', b')
  }

  /** However a stream is cut into pieces, what has been delivered and what is still
      held back make up the messages of the stream. */
  lemma {:induction false} ChunkIndependent(buf: seq<byte>, chunks: seq<seq<byte>>)
    requires Held(buf)
    ensures FeedAll(buf, chunks).0 + Messages(FeedAll(buf, chunks).1) == Messages(buf + Join(chunks))
    ensures Rest(FeedAll(buf, chunks).1) == Rest(buf + Join(chunks))
    decreases |chunks|
  {
    if chunks == [] {
      assert buf + [] == buf;
      assert [] + Messages(buf) == Messages(buf);
    } else {
      var r := Feed(buf, chunks[0]);
      var r' := FeedAll(r.1, chunks[1..]);
      var s, tail := buf + chunks[0], Join(chunks[1..]);
      FeedMeaning(buf, chunks[0]);
      ChunkIndependent(r.1, chunks[1..]);
      ThenMore(s, tail, r.0, r.1, r'.0, r'.1);
      Regroup(buf, chunks[0], tail);
    }
  }

  /** Two stretches of a stream, one after the other. */
  lemma ThenMore(s: seq<byte>, tail: seq<byte>, ms: seq<Message>, b: seq<byte>, ms': seq<Message>,
                 b': seq<byte>)
    requires ms + Messages(b) == Messages(s) && Rest(b) == Rest(s)
    requires ms' + Messages(b') == Messages(b + tail) && Rest(b') == Rest(b + tail)
    ensures ms + ms' + Messages(b') == Messages(s + tail) && Rest(b') == Rest(s + tail)
  {
    MessagesGrow(b, tail);
    MessagesGrow(s, tail);
    Chain(ms, Messages(b), ms', Messages(b'), Messages(Rest(b) + tail));
  }

  lemma Chain<T>(ms: seq<T>, mb: seq<T>, ms': seq<T>, mb': seq<T>, more: seq<T>)
    requires ms' + mb' == mb + more
    ensures ms + ms' + mb' == ms + mb + more
  {
    Regroup(ms, ms', mb');
    Regroup(ms, mb, more);
  }

  /** sendAsync: the bytes of one message. */
  function Frame(m: Message): seq<byte>
    requires |m| < 0x1_0000_0000
  {
    EncodeSize(|m|) + m
  }

  function FrameAll(ms: seq<Message>): seq<byte>
    requires forall i :: 0 <= i < |ms| ==> |ms[i]| < 0x8000_0000
  {
    if ms == [] then [] else Frame(ms[0]) + FrameAll(ms[1..])
  }

  lemma {:induction false} FramesParse(ms: seq<Message>)
    requires forall i :: 0 <= i < |ms| ==> |ms[i]| < 0x8000_0000
    ensures Messages(FrameAll(ms)) == ms && Rest(FrameAll(ms)) == []
  {
    if ms != [] {
      FrameFirst(ms[0], FrameAll(ms[1..]));
      FramesParse(ms[1..]);
    }
  }

  lemma FrameFirst(m: Message, tail: seq<byte>)
    requires |m| < 0x8000_0000
    ensures Messages(Frame(m) + tail) == [m] + Messages(tail) && Rest(Frame(m) + tail) == Rest(tail)
  {
    var header := EncodeSize(|m|);
    var s := Frame(m) + tail;
    SizeRoundTrip(|m|);
    assert s == header + (m + tail);
    SameSize(header, s);
    DropHeader(header, m + tail);
    FirstMessage(s, m, tail);
  }

  /** Messages sent with sendAsync and received in any pieces arrive as sent; only a
      last, empty message can still be waiting for the next byte. */
  lemma SentIsReceived(sent: seq<Message>, chunks: seq<seq<byte>>)
    requires forall i :: 0 <= i < |sent| ==> |sent[i]| < 0x8000_0000
    requires Join(chunks) == FrameAll(sent)
    ensures var (ms, b) := FeedAll([], chunks);
            || (b == [] && ms == sent)
            || (|b| == 4 && DecodeSize(b) == 0 && ms + [[]] == sent)
  {
    FramesParse(sent);
    ChunkIndependent([], chunks);
    assert [] + Join(chunks) == Join(chunks);
    var (ms, b) := FeedAll([], chunks);
    HeldMessages(b);
    assert ms + [] == ms;
  }

  // ------------------------------------------------------------- as it runs

  class Parser {
    const sink: Message -> bool
    var buffer: seq<byte>

    constructor (sink: Message -> bool)
      ensures buffer == [] && this.sink == sink
    {
      this.sink, this.buffer := sink, [];
    }

    /** The sink accepts every one of these. */
    ghost predicate Accepted(ms: seq<Message>) {
      forall m :: m in ms ==> sink(m)
    }

    /** What is delivered by now and what the rest will add make up the whole. */
    ghost predicate Heading(goal: (seq<Message>, seq<byte>), delivered: seq<Message>, left: seq<byte>)
      requires Held(buffer)
      reads this
    {
      goal == (delivered + Feed(buffer, left).0, Feed(buffer, left).1)
    }

    /** Parser::onReceive. `delivered` is what the sink was called with; the result
        says whether it accepted all of it. */
    method OnReceive(data: seq<byte>) returns (result: bool, delivered: seq<Message>)
      requires Held(buffer)
      modifies this`buffer
      ensures (delivered, buffer) == Feed(old(buffer), data)
      ensures result <==> Accepted(delivered)
      ensures Held(buffer)
    {
      result, delivered := true, [];
      ghost var goal := Feed(buffer, data);
      var left := data;
      assert [] + goal.0 == goal.0;
      while left != []
        invariant Held(buffer) && Heading(goal, delivered, left)
        invariant result <==> Accepted(delivered)
        decreases |left|, |buffer|
      {
        var ok, ms;
        if buffer == [] {
          ok, ms, left := Drain(left);
          buffer := left;
          result, delivered := ok && result, delivered + ms;
          return;
        }
        ok, ms, left := Consume(left);
        assert delivered + ms + Feed(buffer, left).0 == delivered + (ms + Feed(buffer, left).0);
        result, delivered := ok && result, delivered + ms;
      }
      assert delivered + [] == delivered;
    }

    /** One turn of the loop with something held back: the buffer and the data move
        one step on, and at most one message is delivered. */
    method Consume(data: seq<byte>) returns (ok: bool, ms: seq<Message>, left: seq<byte>)
      requires Held(buffer) && buffer != [] && data != []
      modifies this`buffer
      ensures Held(buffer)
      ensures Feed(old(buffer), data) == (ms + Feed(buffer, left).0, Feed(buffer, left).1)
      ensures |left| < |data| || (|left| == |data| && |buffer| < |old(buffer)|)
      ensures ok <==> Accepted(ms)
    {
      var bufSize, size := |buffer|, |data|;
      if bufSize < 4 {
        FeedSize(buffer, data);
        ok, ms := true, [];
        var consume := if 4 - bufSize < size then 4 - bufSize else size;
        buffer := buffer + data[..consume];
        left := data[consume..];
      } else {
        ok, ms, left := ConsumePayload(data);
      }
    }

    method ConsumePayload(data: seq<byte>) returns (ok: bool, ms: seq<Message>, left: seq<byte>)
      requires Held(buffer) && |buffer| >= 4 && data != []
      modifies this`buffer
      ensures Held(buffer)
      ensures Feed(old(buffer), data) == (ms + Feed(buffer, left).0, Feed(buffer, left).1)
      ensures |left| < |data| || (|left| == |data| && |buffer| < |old(buffer)|)
      ensures ok <==> Accepted(ms)
    {
      ok, ms := true, [];
      var requestSize := DecodeSize(buffer);
      var bufSize, size := |buffer|, |data|;
      if bufSize + size < 4 + requestSize {
        FeedShort(buffer, data);
        buffer, left := buffer + data, [];
        return;
      }
      FeedWhole(buffer, data);
      var consume := 4 + requestSize - bufSize;
      // a payload that is still all in the data is delivered from there
      var m;
      if bufSize == 4 {
        m := data[..requestSize];
      } else {
        m := (buffer + data[..consume])[4..];
      }
      ok, ms := sink(m), [m];
      buffer, left := [], data[consume..];
    }

    /** The inner loop of onReceive, with an empty buffer: complete messages are
        delivered straight from the data. */
    method Drain(data: seq<byte>) returns (result: bool, delivered: seq<Message>, left: seq<byte>)
      ensures delivered == Messages(data) && left == Rest(data)
      ensures result <==> Accepted(delivered)
    {
      result, delivered, left := true, [], data;
      assert [] + Messages(data) == Messages(data);
      while |left| >= 4
        invariant Drained(data, delivered, left)
        invariant result <==> Accepted(delivered)
        decreases |left|
      {
        var requestSize := DecodeSize(left);
        if |left| < 4 + requestSize {
          break;
        }
        DrainNext(data, delivered, left);
        var m := left[4..4 + requestSize];
        result := sink(m) && result;
        delivered := delivered + [m];
        left := left[4 + requestSize..];
      }
      DrainEnd(data, delivered, left);
    }
  }

  /** The messages delivered so far, and those still to come. */
  ghost predicate Drained(data: seq<byte>, delivered: seq<Message>, left: seq<byte>) {
    Messages(data) == delivered + Messages(left) && Rest(data) == Rest(left)
  }

  lemma DrainNext(data: seq<byte>, delivered: seq<Message>, left: seq<byte>)
    requires Drained(data, delivered, left) && Complete(left)
    ensures var k := 4 + DecodeSize(left);
            Drained(data, delivered + [left[4..k]], left[k..])
  {
    var k := 4 + DecodeSize(left);
    Regroup(delivered, [left[4..k]], Messages(left[k..]));
  }

  lemma DrainEnd(data: seq<byte>, delivered: seq<Message>, left: seq<byte>)
    requires Drained(data, delivered, left) && !Complete(left)
    ensures delivered == Messages(data) && left == Rest(data)
  {
    assert delivered + [] == delivered;
  }
}
