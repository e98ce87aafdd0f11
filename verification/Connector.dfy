/** The Connector: it collects a request up to its zero byte and hands the socket
    over to the device the request names (emulator/devices/Connector.cpp). */
module Connector {
  import opened Bytes
  import opened Qemud

  /** "pipe:", "qemud:". */
  const PIPE: seq<byte> := [112, 105, 112, 101, 58]
  const QEMUD: seq<byte> := [113, 101, 109, 117, 100, 58]
  const COLON: byte := 58

  /** The names in the device table: 'q' or '-', then the device name. The
      terminating zero of the C string is not part of it. */
  type Table = seq<seq<byte>>

  predicate NoZero(s: seq<byte>) {
    forall i :: 0 <= i < |s| ==> s[i] != 0
  }

  // ------------------------------------------------------------------ names

  /** Character i of a zero-terminated string. */
  function CharAt(s: seq<byte>, i: nat): byte
    requires i <= |s|
  {
    if i < |s| then s[i] else 0
  }

  /** strncmp(name, qname + 1, |name|) == 0, from character k on. The comparison
      never reads past the end of qname. */
  function SameChars(name: seq<byte>, qname: seq<byte>, k: nat): bool
    requires NoZero(name) && k <= |name| && (k < |name| ==> k + 1 <= |qname|)
    decreases |name| - k
  {
    if k == |name| then true
    else if name[k] != CharAt(qname, k + 1) then false
    else k + 1 == |name| || SameChars(name, qname, k + 1)
  }

  /** qnameEquals. */
  predicate QnameEquals(q: byte, name: seq<byte>, qname: seq<byte>)
    requires q != 0 && NoZero(name)
  {
    && q == CharAt(qname, 0)
    && SameChars(name, qname, 0)
    && (SameCharsFits(name, qname, 0); CharAt(qname, |name| + 1) == 0)
  }

  lemma {:induction false} SameCharsFits(name: seq<byte>, qname: seq<byte>, k: nat)
    requires NoZero(name) && k <= |name| && k + 1 <= |qname| && SameChars(name, qname, k)
    ensures |name| + 1 <= |qname|
    ensures forall i :: k <= i < |name| ==> qname[i + 1] == name[i]
    decreases |name| - k
  {
    if k + 1 < |name| {
      SameCharsFits(name, qname, k + 1);
    }
  }

  lemma {:induction false} SameCharsHolds(name: seq<byte>, qname: seq<byte>, k: nat)
    requires NoZero(name) && k <= |name| && |name| + 1 <= |qname|
    requires forall i :: k <= i < |name| ==> qname[i + 1] == name[i]
    ensures SameChars(name, qname, k)
    decreases |name| - k
  {
    if k + 1 < |name| {
      SameCharsHolds(name, qname, k + 1);
    }
  }

  /** qnameEquals compares the whole name. */
  lemma QnameMeaning(q: byte, name: seq<byte>, qname: seq<byte>)
    requires q != 0 && NoZero(name) && NoZero(qname)
    ensures QnameEquals(q, name, qname) <==> qname == [q] + name
  {
    if QnameEquals(q, name, qname) {
      SameCharsFits(name, qname, 0);
      assert |qname| == |name| + 1;
      assert qname == [q] + name;
    }
    if qname == [q] + name {
      SameCharsHolds(name, qname, 0);
    }
  }

  // ---------------------------------------------------------------- requests

  datatype Request = Bad | Good(isQemud: bool, device: seq<byte>, args: seq<byte>)

  /** The position of the first x at or after i, or the end. */
  function FindFrom<T(==)>(s: seq<T>, x: T, i: nat): (n: nat)
    requires i <= |s|
    ensures i <= n <= |s| && (n < |s| ==> s[n] == x) && forall j :: i <= j < n ==> s[j] != x
    decreases |s| - i
  {
    if i == |s| || s[i] == x then i else FindFrom(s, x, i + 1)
  }

  /** The position of the first x, or the end. */
  function Find<T(==)>(s: seq<T>, x: T): (n: nat)
    ensures n <= |s| && (n < |s| ==> s[n] == x) && forall j :: 0 <= j < n ==> s[j] != x
  {
    FindFrom(s, x, 0)
  }

  /** processRequest up to the dispatch. */
  function ParseRequest(request: seq<byte>): Request {
    if !(PIPE <= request) then Bad
    else
      var r := request[|PIPE|..];
      var isQemud := QEMUD <= r;
      var name := if isQemud then r[|QEMUD|..] else r;
      var colon := Find(name, COLON);
      if colon == 0 then Bad
      else Good(isQemud, name[..colon], if colon < |name| then name[colon + 1..] else [])
  }

  function Tag(isQemud: bool): byte {
    if isQemud then 113 else 45
  }

  /** What a byte stream asks for. */
  datatype Dispatch =
    | Waiting
    | Refused
    | Opened(device: nat, isQemud: bool, args: seq<byte>, payload: seq<byte>)

  function DispatchRequest(table: Table, request: seq<byte>, payload: seq<byte>): Dispatch {
    match ParseRequest(request)
    case Bad => Refused
    case Good(isQemud, device, args) =>
      var n := Find(table, [Tag(isQemud)] + device);
      if n < |table| then Opened(n, isQemud, args, payload) else Refused
  }

  /** The device, flag and arguments are decided by the bytes before the first zero
      alone, and the device gets exactly the bytes after it. */
  function DispatchStream(table: Table, bytes: seq<byte>): Dispatch {
    var z := Find(bytes, 0);
    if z == |bytes| then Waiting else DispatchRequest(table, bytes[..z], bytes[z + 1..])
  }

  /** The request "pipe:<device>" or "pipe:qemud:<device>", with or without ":<args>". A
      plain request does not go on with "qemud:". */
  ghost predicate Asks(request: seq<byte>, isQemud: bool, device: seq<byte>, args: seq<byte>) {
    && device != [] && 58 !in device
    && exists body :: NameAndArgs(body, device, args) &&
         if isQemud then request == [112, 105, 112, 101, 58, 113, 101, 109, 117, 100, 58] + body
         else request == [112, 105, 112, 101, 58] + body && !([113, 101, 109, 117, 100, 58] <= body)
  }

  predicate NameAndArgs(body: seq<byte>, device: seq<byte>, args: seq<byte>) {
    (body == device && args == []) || body == device + [58] + args
  }

  /** A request is taken for what it asks for, and is bad when it has no such form. */
  lemma RequestMeaning(request: seq<byte>, isQemud: bool, device: seq<byte>, args: seq<byte>)
    ensures ParseRequest(request) == Good(isQemud, device, args) <==> Asks(request, isQemud, device, args)
  {
    if ParseRequest(request) == Good(isQemud, device, args) {
      GoodAsks(request);
    }
    if Asks(request, isQemud, device, args) {
      var body :| NameAndArgs(body, device, args) &&
        if isQemud then request == [112, 105, 112, 101, 58, 113, 101, 109, 117, 100, 58] + body
        else request == [112, 105, 112, 101, 58] + body && !([113, 101, 109, 117, 100, 58] <= body);
      BodyParsed(request, isQemud, body);
      NameParsed(body, device, args);
    }
  }

  lemma GoodAsks(request: seq<byte>)
    requires ParseRequest(request).Good?
    ensures var g := ParseRequest(request); Asks(request, g.isQemud, g.device, g.args)
  {
    var isQemud, body := Cut(request);
    BodyParsed(request, isQemud, body);
    NameCut(body);
  }

  /** The prefixes and what follows them. */
  lemma Cut(request: seq<byte>) returns (isQemud: bool, body: seq<byte>)
    requires PIPE <= request
    ensures if isQemud then request == [112, 105, 112, 101, 58, 113, 101, 109, 117, 100, 58] + body
            else request == [112, 105, 112, 101, 58] + body && !([113, 101, 109, 117, 100, 58] <= body)
  {
    var r := request[5..];
    isQemud := QEMUD <= r;
    body := if isQemud then r[6..] else r;
    assert request == PIPE + r;
    if isQemud {
      assert r == QEMUD + body;
      BothPrefixes(body);
    }
  }

  lemma NameCut(body: seq<byte>)
    ensures var colon := Find(body, COLON);
            NameAndArgs(body, body[..colon], if colon < |body| then body[colon + 1..] else [])
  {
    var colon := Find(body, COLON);
    if colon < |body| {
      assert body == body[..colon] + [58] + body[colon + 1..];
    }
  }

  lemma BodyParsed(request: seq<byte>, isQemud: bool, body: seq<byte>)
    requires if isQemud then request == [112, 105, 112, 101, 58, 113, 101, 109, 117, 100, 58] + body
             else request == [112, 105, 112, 101, 58] + body && !([113, 101, 109, 117, 100, 58] <= body)
    ensures var colon := Find(body, COLON);
            ParseRequest(request) ==
            if colon == 0 then Bad
            else Good(isQemud, body[..colon], if colon < |body| then body[colon + 1..] else [])
  {
    var r := if isQemud then QEMUD + body else body;
    if isQemud {
      BothPrefixes(body);
      DropPrefix(QEMUD, body);
    }
    assert request == PIPE + r;
    DropPrefix(PIPE, r);
  }

  lemma DropPrefix(p: seq<byte>, s: seq<byte>)
    ensures p <= p + s && (p + s)[|p|..] == s
  {
  }

  lemma BothPrefixes(body: seq<byte>)
    ensures [112, 105, 112, 101, 58, 113, 101, 109, 117, 100, 58] + body == PIPE + (QEMUD + body)
  {
    assert [112, 105, 112, 101, 58, 113, 101, 109, 117, 100, 58] == PIPE + QEMUD;
  }

  lemma NameParsed(body: seq<byte>, device: seq<byte>, args: seq<byte>)
    requires NameAndArgs(body, device, args) && 58 !in device
    ensures Find(body, COLON) == |device| && body[..|device|] == device
    ensures args == if |device| < |body| then body[|device| + 1..] else []
  {
    FindUnique(body, COLON, |device|);
  }

  /** A request opens the first entry of the table that is 'q' or '-' and the device, and
      is refused when it has no form or there is no such entry. */
  lemma DispatchMeaning(table: Table, request: seq<byte>, payload: seq<byte>, isQemud: bool, device: seq<byte>,
                        args: seq<byte>)
    requires Asks(request, isQemud, device, args)
    ensures var d, qname := DispatchRequest(table, request, payload), [if isQemud then 113 else 45] + device;
            && (d.Opened? <==> qname in table)
            && (d.Opened? ==> && d == Opened(d.device, isQemud, args, payload)
                              && d.device < |table| && table[d.device] == qname && qname !in table[..d.device])
            && (!d.Opened? ==> d == Refused)
  {
    RequestMeaning(request, isQemud, device, args);
  }

  lemma FormlessRefused(table: Table, request: seq<byte>, payload: seq<byte>)
    requires forall isQemud, device, args :: !Asks(request, isQemud, device, args)
    ensures DispatchRequest(table, request, payload) == Refused
  {
    if ParseRequest(request).Good? {
      GoodAsks(request);
    }
  }

  // -------------------------------------------------------------- a connection

  /** Who is plugged into the socket. */
  datatype Plug =
    | Connecting(buffer: seq<byte>)
    | Device(device: nat, isQemud: bool, args: seq<byte>, received: seq<seq<byte>>)
    | ErrorPlug

  function Switched(d: Dispatch): Plug
    requires !d.Waiting?
  {
    match d
    case Refused => ErrorPlug
    case Opened(n, q, args, payload) => Device(n, q, args, [payload])
  }

  /** One delivery of bytes to whoever is plugged in. */
  function Receive(table: Table, plug: Plug, data: seq<byte>): Plug {
    match plug
    case ErrorPlug => plug
    case Device(n, q, args, received) => Device(n, q, args, received + [data])
    case Connecting(buffer) =>
      var z := Find(data, 0);
      if z == |data| then Connecting(buffer + data)
      else Switched(DispatchRequest(table, buffer + data[..z], data[z + 1..]))
  }

  function ReceiveAll(table: Table, plug: Plug, chunks: seq<seq<byte>>): Plug
    decreases |chunks|
  {
    if chunks == [] then plug else ReceiveAll(table, Receive(table, plug, chunks[0]), chunks[1..])
  }

  /** The plug is what the bytes received so far ask for, and a connector holds back
      no zero byte. */
  ghost predicate Faithful(table: Table, bytes: seq<byte>, plug: Plug) {
    match DispatchStream(table, bytes)
    case Waiting => plug == Connecting(bytes) && NoZero(bytes)
    case Refused => plug == ErrorPlug
    case Opened(n, q, args, payload) =>
      plug.Device? && plug.device == n && plug.isQemud == q && plug.args == args &&
      Join(plug.received) == payload
  }

  lemma FindUnique<T>(s: seq<T>, x: T, n: nat)
    requires n <= |s| && (n < |s| ==> s[n] == x) && forall i :: 0 <= i < n ==> s[i] != x
    ensures Find(s, x) == n
  {
  }

  lemma FindConcat(a: seq<byte>, b: seq<byte>, c: byte)
    ensures Find(a + b, c) == if Find(a, c) < |a| then Find(a, c) else |a| + Find(b, c)
  {
    FindUnique(a + b, c, if Find(a, c) < |a| then Find(a, c) else |a| + Find(b, c));
  }

  /** More bytes after the zero only add to the payload. */
  lemma DispatchGrows(table: Table, bytes: seq<byte>, data: seq<byte>)
    requires !DispatchStream(table, bytes).Waiting?
    ensures var d, d1 := DispatchStream(table, bytes), DispatchStream(table, bytes + data);
            d1 == match d
                  case Opened(n, q, args, payload) => Opened(n, q, args, payload + data)
                  case other => other
  {
    var z := Find(bytes, 0);
    FindConcat(bytes, data, 0);
    assert (bytes + data)[..z] == bytes[..z];
    assert (bytes + data)[z + 1..] == bytes[z + 1..] + data;
  }

  lemma ReceiveFaithful(table: Table, bytes: seq<byte>, plug: Plug, data: seq<byte>)
    requires Faithful(table, bytes, plug)
    ensures Faithful(table, bytes + data, Receive(table, plug, data))
  {
    match plug
    case ErrorPlug =>
      DispatchGrows(table, bytes, data);
    case Device(n, q, args, received) =>
      DispatchGrows(table, bytes, data);
      JoinAppend(received, data);
    case Connecting(buffer) =>
      DispatchStarts(table, bytes, data);
      var z := Find(data, 0);
      if z < |data| {
        JoinAppend([], data[z + 1..]);
        assert [] + [data[z + 1..]] == [data[z + 1..]];
        assert [] + data[z + 1..] == data[z + 1..];
      }
  }

  /** The first zero byte completes the request. */
  lemma DispatchStarts(table: Table, bytes: seq<byte>, data: seq<byte>)
    requires NoZero(bytes)
    ensures DispatchStream(table, bytes + data) ==
              var z := Find(data, 0);
              if z == |data| then Waiting else DispatchRequest(table, bytes + data[..z], data[z + 1..])
    ensures Find(data, 0) == |data| ==> NoZero(bytes + data)
  {
    CutAtZero(bytes, data);
  }

  lemma CutAtZero(bytes: seq<byte>, data: seq<byte>)
    requires NoZero(bytes)
    ensures var z := Find(data, 0);
            && Find(bytes + data, 0) == |bytes| + z
            && (bytes + data)[..|bytes| + z] == bytes + data[..z]
            && (z < |data| ==> (bytes + data)[|bytes| + z + 1..] == data[z + 1..])
            && (z == |data| ==> NoZero(bytes + data))
  {
    FindUnique(bytes, 0, |bytes|);
    FindConcat(bytes, data, 0);
  }

  /** However the stream is cut: the device, the flag, the arguments and the bytes
      that the device gets depend on the stream alone. */
  lemma {:induction false} ChunkFree(table: Table, bytes: seq<byte>, plug: Plug, chunks: seq<seq<byte>>)
    requires Faithful(table, bytes, plug)
    ensures Faithful(table, bytes + Join(chunks), ReceiveAll(table, plug, chunks))
    decreases |chunks|
  {
    if chunks == [] {
      assert bytes + Join(chunks) == bytes;
    } else {
      ReceiveFaithful(table, bytes, plug, chunks[0]);
      ChunkFree(table, bytes + chunks[0], Receive(table, plug, chunks[0]), chunks[1..]);
      Regroup(bytes, chunks[0], Join(chunks[1..]));
    }
  }

  /** From the first byte of a connection to the messages of a qemud device: the
      messages delivered and held back are those of the stream after its first
      zero, however both were cut. */
  lemma ConnectionMessages(table: Table, chunks: seq<seq<byte>>)
    ensures var plug := ReceiveAll(table, Connecting([]), chunks);
            var d := DispatchStream(table, Join(chunks));
            && Faithful(table, Join(chunks), plug)
            && (d.Opened? && d.isQemud ==>
                  var (ms, b) := FeedAll([], plug.received);
                  ms + Messages(b) == Messages(d.payload) && Rest(b) == Rest(d.payload))
  {
    assert [] + Join(chunks) == Join(chunks);
    ChunkFree(table, [], Connecting([]), chunks);
    var plug := ReceiveAll(table, Connecting([]), chunks);
    if plug.Device? {
      ChunkIndependent([], plug.received);
      assert [] + Join(plug.received) == Join(plug.received);
    }
  }

  // ------------------------------------------------------------- as it runs

  class Connector {
    const table: Table
    var buffer: seq<byte>

    constructor (table: Table)
      ensures this.table == table && buffer == []
    {
      this.table, this.buffer := table, [];
    }

    /** Connector::onReceive: what is plugged in afterwards. */
    method OnReceive(data: seq<byte>) returns (plug: Plug)
      requires NoZero(buffer) && forall i :: 0 <= i < |table| ==> NoZero(table[i])
      modifies this`buffer
      ensures plug == Receive(table, Connecting(old(buffer)), data)
      ensures plug.Connecting? ==> buffer == plug.buffer && NoZero(buffer)
    {
      var zero := 0;
      while zero < |data| && data[zero] != 0
        invariant 0 <= zero <= |data| && forall i :: 0 <= i < zero ==> data[i] != 0
      {
        zero := zero + 1;
      }
      FindUnique(data, 0, zero);
      if zero < |data| {
        var request, unconsumed;
        if buffer == [] {
          request, unconsumed := data[..zero], data[zero + 1..];
        } else {
          buffer := buffer + data;
          var requestSize := |buffer| - (|data| - zero);
          request, unconsumed := buffer[..requestSize], buffer[requestSize + 1..];
        }
        assert request == old(buffer) + data[..zero] && unconsumed == data[zero + 1..];
        plug := ProcessRequest(request, unconsumed);
      } else {
        buffer := buffer + data;
        plug := Connecting(buffer);
      }
    }

    /** processRequest and switchTo. */
    method ProcessRequest(request: seq<byte>, unconsumed: seq<byte>) returns (plug: Plug)
      requires NoZero(request) && forall i :: 0 <= i < |table| ==> NoZero(table[i])
      ensures plug == Switched(DispatchRequest(table, request, unconsumed))
    {
      var r := ParseRequest(request);
      if r.Bad? {
        return ErrorPlug;
      }
      var n := 0;
      while n < |table|
        invariant 0 <= n <= |table|
        invariant forall i :: 0 <= i < n ==> table[i] != [Tag(r.isQemud)] + r.device
      {
        QnameMeaning(Tag(r.isQemud), r.device, table[n]);
        if QnameEquals(Tag(r.isQemud), r.device, table[n]) {
          break;
        }
        n := n + 1;
      }
      FindUnique(table, [Tag(r.isQemud)] + r.device, n);
      plug := if n < |table| then Device(n, r.isQemud, r.args, [unconsumed]) else ErrorPlug;
    }
  }
}
