/** Data from the guest: a packet arrives scattered over buffers, and its payload goes
    to the plug piece by piece (emulator/plugin/vsock_goldfish/vsock_low_level.c,
    vsock.cpp). */
module VsockReceive {
  import opened Bytes
  import opened VsockStream
  import opened VsockRuns

  function Smaller(a: nat, b: nat): nat {
    if a < b then a else b
  }

  /** The part of one buffer that lies within `size` bytes after the first `skip`. */
  function Cut(buf: seq<byte>, skip: nat, size: nat): seq<byte> {
    var from := Smaller(skip, |buf|);
    buf[from..from + Smaller(size, |buf| - from)]
  }

  /** The pieces of the buffers that hold `size` bytes after the first `skip`. */
  function Pieces(iov: seq<seq<byte>>, skip: nat, size: nat): seq<seq<byte>> {
    if iov == [] || size == 0 then []
    else
      var piece := Cut(iov[0], skip, size);
      var rest := Pieces(iov[1..], skip - Smaller(skip, |iov[0]|), size - |piece|);
      if piece == [] then rest else [piece] + rest
  }

  lemma CutAcross(a: seq<byte>, b: seq<byte>, skip: nat, size: nat)
    requires skip + size <= |a| + |b|
    ensures var skip1, size1 := skip - Smaller(skip, |a|), size - |Cut(a, skip, size)|;
            skip1 + size1 <= |b| && (a + b)[skip..skip + size] == Cut(a, skip, size) + b[skip1..skip1 + size1]
  {
  }

  /** However the guest cuts a packet into buffers, the pieces make up its payload. */
  lemma {:induction false} PiecesMakePayload(iov: seq<seq<byte>>, skip: nat, size: nat)
    requires skip + size <= |Join(iov)|
    ensures Join(Pieces(iov, skip, size)) == Join(iov)[skip..skip + size]
    decreases |iov|
  {
    if iov != [] && size > 0 {
      CutAcross(iov[0], Join(iov[1..]), skip, size);
      var piece := Cut(iov[0], skip, size);
      var rest := Pieces(iov[1..], skip - Smaller(skip, |iov[0]|), size - |piece|);
      PiecesMakePayload(iov[1..], skip - Smaller(skip, |iov[0]|), size - |piece|);
      if piece == [] {
        assert piece + Join(rest) == Join(rest);
      } else {
        assert ([piece] + rest)[1..] == rest;
      }
    }
  }

  function Sizes(pieces: seq<seq<byte>>): seq<nat> {
    if pieces == [] then [] else [|pieces[0]|] + Sizes(pieces[1..])
  }

  function Total(sizes: seq<nat>): nat {
    if sizes == [] then 0 else sizes[0] + Total(sizes[1..])
  }

  lemma {:induction false} SizesTotal(pieces: seq<seq<byte>>)
    ensures Total(Sizes(pieces)) == |Join(pieces)| && |Sizes(pieces)| == |pieces|
    decreases |pieces|
  {
    if pieces != [] {
      SizesTotal(pieces[1..]);
      assert Sizes(pieces)[1..] == Sizes(pieces[1..]);
    }
  }

  /** A stream stays exactly when the plug takes every piece; then the bytes it has
      received grow by the whole payload, modulo 2^32, and the guest is told. */
  lemma {:induction false} ReceiveCounts(s: Stream, sizes: seq<nat>, accepted: nat)
    ensures var (s1, gone) := Receive(s, sizes, accepted);
            && (!gone <==> sizes == [] || (s.connected && |sizes| <= accepted))
            && (!gone ==> s1.hostFwd == (s.hostFwd + Total(sizes)) % 0x1_0000_0000)
            && (!gone && sizes != [] ==> CreditUpdate in s1.mask)
    decreases accepted
  {
    if sizes != [] && s.connected && accepted > 0 {
      ReceiveCounts(TookPiece(s, sizes[0]), sizes[1..], accepted - 1);
      Wrapped(s.hostFwd + sizes[0], Total(sizes[1..]));
      if sizes[1..] == [] {
        assert Total(sizes[1..]) == 0;
      }
    }
  }

  lemma Wrapped(a: nat, b: nat)
    ensures (a % 0x1_0000_0000 + b) % 0x1_0000_0000 == (a + b) % 0x1_0000_0000
  {
  }
}
