/** Bytes, and streams that arrive in pieces. */
module Bytes {
  type byte = x: int | 0 <= x < 256

  /** The stream that a sequence of pieces makes up. */
  function Join(chunks: seq<seq<byte>>): seq<byte> {
    if chunks == [] then [] else chunks[0] + Join(chunks[1..])
  }

  lemma {:induction false} JoinAppend(chunks: seq<seq<byte>>, data: seq<byte>)
    ensures Join(chunks + [data]) == Join(chunks) + data
    decreases |chunks|
  {
    if chunks == [] {
      assert [data][1..] == [];
      assert data + [] == data;
    } else {
      assert (chunks + [data])[1..] == chunks[1..] + [data];
      JoinAppend(chunks[1..], data);
    }
  }

  /** Bytes as one number, the most significant first. */
  function BigEndian(d: seq<byte>): nat {
    if d == [] then 0 else BigEndian(d[..|d| - 1]) * 256 + d[|d| - 1]
  }

  lemma BigEndianFour(d: seq<byte>)
    requires |d| == 4
    ensures BigEndian(d) == d[0] as int * 0x100_0000 + d[1] as int * 0x1_0000 + d[2] as int * 0x100 + d[3]
  {
    BigEndianFourMore([], d);
    assert [] + d == d && BigEndian([]) == 0;
  }

  /** Four more bytes. */
  lemma BigEndianFourMore(a: seq<byte>, b: seq<byte>)
    requires |b| == 4
    ensures BigEndian(a + b) == BigEndian(a) * 0x1_0000_0000
              + (b[0] as int * 0x100_0000 + b[1] as int * 0x1_0000 + b[2] as int * 0x100 + b[3])
  {
    BigEndianNext(a, b, 0);
    BigEndianNext(a, b, 1);
    BigEndianNext(a, b, 2);
    BigEndianNext(a, b, 3);
    assert a + b[..0] == a && b[..4] == b;
  }

  lemma BigEndianNext(a: seq<byte>, b: seq<byte>, k: nat)
    requires k < |b|
    ensures BigEndian(a + b[..k + 1]) == BigEndian(a + b[..k]) * 256 + b[k]
  {
    assert (a + b[..k + 1])[..|a| + k] == a + b[..k];
  }

  lemma Regroup<T>(a: seq<T>, b: seq<T>, c: seq<T>)
    ensures a + b + c == a + (b + c)
  {
  }
}
