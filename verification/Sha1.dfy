/** Streaming SHA-1 against its one-shot definition, for any compression function
    (android/ext4_utils/src/sha1.c; padding as in section 5.1.1 of FIPS 180-4). */
module Sha1 {
  import opened Arithmetic
  import opened Bytes

  type Word = x: int | 0 <= x < 0x1_0000_0000
  type Hash = h: seq<Word> | |h| == 5 witness [0, 0, 0, 0, 0]
  type Compress = (Hash, seq<byte>) -> Hash

  const INITIAL: Hash := [0x67452301, 0xEFCDAB89, 0x98BADCFE, 0x10325476, 0xC3D2E1F0]

  // ----------------------------------------------------------------- one shot

  /** The compression function over all complete 64-byte blocks. */
  function Fold(f: Compress, h: Hash, m: seq<byte>): Hash
    decreases |m|
  {
    if |m| < 64 then h else Fold(f, f(h, m[..64]), m[64..])
  }

  /** What follows the last complete block. */
  function Tail(m: seq<byte>): (t: seq<byte>)
    ensures |t| == |m| % 64
  {
    m[|m| - |m| % 64..]
  }

  /** A word as four bytes, the most significant first. */
  function WordBytes(w: Word): (d: seq<byte>)
    ensures |d| == 4
  {
    [w / 0x100_0000, w / 0x1_0000 % 256, w / 0x100 % 256, w % 256]
  }

  function Zeros(k: nat): (z: seq<byte>)
    ensures |z| == k && forall i :: 0 <= i < k ==> z[i] == 0
  {
    if k == 0 then [] else Zeros(k - 1) + [0]
  }

  /** The number of zero bytes between the 0x80 and the length. */
  function ZeroCount(n: nat): (k: nat)
    ensures k < 64 && (n + 1 + k) % 64 == 56
  {
    (119 - n % 64) % 64
  }

  /** The length of n bytes in bits, as a 64-bit number in two words. */
  function HighBits(n: nat): Word {
    n / 0x2000_0000 % 0x1_0000_0000
  }

  function LowBits(n: nat): Word {
    n % 0x2000_0000 * 8
  }

  lemma BitLength(n: nat)
    ensures HighBits(n) * 0x1_0000_0000 + LowBits(n) == 8 * n % 0x1_0000_0000_0000_0000
  {
    var q, r := n / 0x2000_0000, n % 0x2000_0000;
    assert 8 * n == q * 0x1_0000_0000 + r * 8;
    TwoWords(q, r * 8);
  }

  /** The padded message. */
  function Pad(m: seq<byte>): seq<byte> {
    PadWith(m, HighBits(|m|))
  }

  /** The message padded with this high word of the count. */
  function PadWith(m: seq<byte>, high: Word): seq<byte> {
    m + [0x80] + Zeros(ZeroCount(|m|)) + (WordBytes(high) + WordBytes(LowBits(|m|)))
  }

  /** Padding fills the last block: after the 0x80 come fewer than 64 zeros. */
  lemma PadAligned(m: seq<byte>)
    ensures |Pad(m)| == |m| + 9 + ZeroCount(|m|) && |Pad(m)| % 64 == 0
  {
    NextBlock(|m| + 1 + ZeroCount(|m|));
  }

  lemma NextBlock(k: nat)
    requires k % 64 == 56
    ensures (k + 8) % 64 == 0
  {
  }

  function Digest(h: Hash): (d: seq<byte>)
    ensures |d| == 20
  {
    WordBytes(h[0]) + WordBytes(h[1]) + WordBytes(h[2]) + WordBytes(h[3]) + WordBytes(h[4])
  }

  function OneShot(f: Compress, m: seq<byte>): seq<byte> {
    Digest(Fold(f, INITIAL, Pad(m)))
  }

  function Value(d: seq<byte>): int
    requires |d| == 4
  {
    d[0] as int * 0x100_0000 + d[1] as int * 0x1_0000 + d[2] as int * 0x100 + d[3] as int
  }

  lemma WordOfBytes(w: Word)
    ensures Value(WordBytes(w)) == w
  {
    NestedDiv(w, 256, 256);
    NestedDiv(w, 0x1_0000, 256);
    Divides(w, 256);
    Divides(w / 256, 256);
    Divides(w / 0x1_0000, 256);
  }

  /** Section 5.1.1 of FIPS 180-4: the message, a one bit, the fewest zeros that leave room
      for the length in the last block, and the length in bits as 64-bit number, the most
      significant byte first. */
  lemma PadMeaning(m: seq<byte>)
    ensures var p, n := Pad(m), |m|;
            && |p| % 64 == 0 && n + 9 <= |p| < n + 9 + 64
            && p[..n] == m && p[n] == 0x80
            && (forall i :: n < i < |p| - 8 ==> p[i] == 0)
            && BigEndian(p[|p| - 8..]) == 8 * n % 0x1_0000_0000_0000_0000
  {
    PadAligned(m);
    var n, k := |m|, ZeroCount(|m|);
    var front := m + [0x80] + Zeros(k);
    var len := WordBytes(HighBits(n)) + WordBytes(LowBits(n));
    assert Pad(m)[|front|..] == len;
    WordIsBytes(HighBits(n));
    WordIsBytes(LowBits(n));
    BigEndianFour(WordBytes(LowBits(n)));
    BigEndianFourMore(WordBytes(HighBits(n)), WordBytes(LowBits(n)));
    BitLength(n);
  }

  lemma WordIsBytes(w: Word)
    ensures BigEndian(WordBytes(w)) == w
  {
    WordOfBytes(w);
    BigEndianFour(WordBytes(w));
  }

  /** Section 6.1.2 of FIPS 180-4: the digest is the five words, the most significant byte
      of each first. */
  lemma DigestMeaning(h: Hash, i: nat)
    requires i < 5
    ensures |Digest(h)| == 20 && BigEndian(Digest(h)[4 * i..4 * i + 4]) == h[i]
  {
    WordIsBytes(h[i]);
    assert Digest(h)[4 * i..4 * i + 4] == WordBytes(h[i]);
  }

  /** Section 5.3.1 of FIPS 180-4: the state that hashing starts from, as bytes. */
  lemma InitialMeaning()
    ensures Digest(INITIAL) == [0x67, 0x45, 0x23, 0x01, 0xEF, 0xCD, 0xAB, 0x89, 0x98, 0xBA, 0xDC, 0xFE,
                                0x10, 0x32, 0x54, 0x76, 0xC3, 0xD2, 0xE1, 0xF0]
  {
    assert WordBytes(INITIAL[0]) == [0x67, 0x45, 0x23, 0x01];
    assert WordBytes(INITIAL[1]) == [0xEF, 0xCD, 0xAB, 0x89];
    assert WordBytes(INITIAL[2]) == [0x98, 0xBA, 0xDC, 0xFE];
    assert WordBytes(INITIAL[3]) == [0x10, 0x32, 0x54, 0x76];
    assert WordBytes(INITIAL[4]) == [0xC3, 0xD2, 0xE1, 0xF0];
  }

  /** The padding is that of the standard exactly with the right high word. */
  lemma PadExactly(m: seq<byte>, high: Word)
    ensures PadWith(m, high) == Pad(m) <==> high == HighBits(|m|)
  {
    var front := m + [0x80] + Zeros(ZeroCount(|m|));
    WordOfBytes(high);
    WordOfBytes(HighBits(|m|));
    if PadWith(m, high) == Pad(m) {
      assert PadWith(m, high)[|front|..][..4] == WordBytes(high);
      assert Pad(m)[|front|..][..4] == WordBytes(HighBits(|m|));
    }
  }

  lemma {:induction false} FoldAppend(f: Compress, h: Hash, a: seq<byte>, b: seq<byte>)
    ensures Fold(f, h, a + b) == Fold(f, Fold(f, h, a), Tail(a) + b)
    decreases |a|
  {
    if |a| < 64 {
      assert Tail(a) == a;
    } else {
      assert (a + b)[..64] == a[..64] && (a + b)[64..] == a[64..] + b;
      assert Tail(a[64..]) == Tail(a);
      FoldAppend(f, f(h, a[..64]), a[64..], b);
    }
  }

  lemma TailAppend(a: seq<byte>, b: seq<byte>)
    ensures Tail(a + b) == Tail(Tail(a) + b)
  {
    var t := Tail(a) + b;
    assert (|a| + |b|) % 64 == |t| % 64;
  }

  // ---------------------------------------------------------------- the count

  /** The bit count after len more bytes, as SHA1Update computes it. */
  function Counted(c0: Word, c1: Word, len: nat): (Word, Word) {
    var low := (c0 + 8 * len % 0x1_0000_0000) % 0x1_0000_0000;
    (low, if low < c0 then (c1 + len / 0x2000_0000 + 1) % 0x1_0000_0000 else c1)
  }

  /** For any 32-bit length the count is right exactly when the length is below
      2^29 or the low word carries: the high bits of a longer length are only added
      in the carrying branch. */
  lemma CountExact(c0: Word, c1: Word, len: Word)
    ensures var (d0, d1) := Counted(c0, c1, len);
            d1 * 0x1_0000_0000 + d0 == (c1 * 0x1_0000_0000 + c0 + 8 * len) % 0x1_0000_0000_0000_0000
            <==> len < 0x2000_0000 || c0 + 8 * len % 0x1_0000_0000 >= 0x1_0000_0000
  {
    var k, low := len / 0x2000_0000, len % 0x2000_0000 * 8;
    ShiftedLength(len);
    if c0 + low >= 0x1_0000_0000 {
      CountCarries(c0, c1, k, low);
    } else {
      CountDoesNotCarry(c0, c1, k, low);
    }
  }

  lemma CountCarries(c0: Word, c1: Word, k: nat, low: Word)
    requires c0 + low >= 0x1_0000_0000
    ensures (c0 + low) % 0x1_0000_0000 == c0 + low - 0x1_0000_0000 < c0
    ensures (c1 + k + 1) % 0x1_0000_0000 * 0x1_0000_0000 + (c0 + low - 0x1_0000_0000) ==
            (c1 * 0x1_0000_0000 + c0 + (k * 0x1_0000_0000 + low)) % 0x1_0000_0000_0000_0000
  {
    TwoWords(c1 + k + 1, c0 + low - 0x1_0000_0000);
  }

  lemma CountDoesNotCarry(c0: Word, c1: Word, k: nat, low: Word)
    requires c0 + low < 0x1_0000_0000 && k < 8
    ensures (c0 + low) % 0x1_0000_0000 == c0 + low
    ensures var all := c1 * 0x1_0000_0000 + c0 + (k * 0x1_0000_0000 + low);
            (c1 * 0x1_0000_0000 + (c0 + low) == all % 0x1_0000_0000_0000_0000) <==> k == 0
  {
    TwoWords(c1 + k, c0 + low);
  }

  lemma ShiftedLength(len: nat)
    ensures 8 * len % 0x1_0000_0000 == len % 0x2000_0000 * 8
    ensures 8 * len == len / 0x2000_0000 * 0x1_0000_0000 + len % 0x2000_0000 * 8
  {
  }

  lemma TwoWords(hi: nat, lo: Word)
    ensures (hi * 0x1_0000_0000 + lo) % 0x1_0000_0000_0000_0000 == hi % 0x1_0000_0000 * 0x1_0000_0000 + lo
  {
  }

  /** The low word is right for any length, and it carries when the byte counts do. */
  lemma LowGrows(n: nat, len: nat)
    ensures (LowBits(n) + 8 * len % 0x1_0000_0000) % 0x1_0000_0000 == LowBits(n + len)
    ensures LowBits(n) + 8 * len % 0x1_0000_0000 >= 0x1_0000_0000 <==>
            n % 0x2000_0000 + len % 0x2000_0000 >= 0x2000_0000
  {
    var q, r := n / 0x2000_0000, n % 0x2000_0000;
    var k, l := len / 0x2000_0000, len % 0x2000_0000;
    Divides(n, 0x2000_0000);
    Divides(len, 0x2000_0000);
    ShiftedLength(len);
    if r + l < 0x2000_0000 {
      DivModUnique(q + k, r + l, 0x2000_0000);
      DivModUnique(0, (r + l) * 8, 0x1_0000_0000);
    } else {
      DivModUnique(q + k + 1, r + l - 0x2000_0000, 0x2000_0000);
      DivModUnique(1, (r + l - 0x2000_0000) * 8, 0x1_0000_0000);
    }
  }

  /** The high word of the count of n bytes has lost so much. */
  predicate Behind(n: nat, high: Word, lost: nat) {
    HighBits(n) == (high + lost) % 0x1_0000_0000
  }

  lemma NothingCounted()
    ensures LowBits(0) == 0 && Behind(0, 0, 0)
  {
  }

  /** The high bits of a length that get lost: all of them unless the low word carries. */
  function LostBits(n: nat, len: nat): nat {
    if LowBits(n) + 8 * len % 0x1_0000_0000 >= 0x1_0000_0000 then 0 else len / 0x2000_0000
  }

  /** The high word falls behind by what is lost. */
  lemma HighGrows(n: nat, high: Word, lost: nat, len: nat)
    requires Behind(n, high, lost)
    ensures var (low1, high1) := Counted(LowBits(n), high, len);
            && low1 == LowBits(n + len)
            && Behind(n + len, high1, lost + LostBits(n, len))
  {
    LowGrows(n, len);
    var q, r := n / 0x2000_0000, n % 0x2000_0000;
    var k, l := len / 0x2000_0000, len % 0x2000_0000;
    Divides(n, 0x2000_0000);
    Divides(len, 0x2000_0000);
    if r + l < 0x2000_0000 {
      DivModUnique(q + k, r + l, 0x2000_0000);
      SumWords(q, high + lost, k);
      CarryWord(LowBits(n), 8 * len % 0x1_0000_0000);
    } else {
      DivModUnique(q + k + 1, r + l - 0x2000_0000, 0x2000_0000);
      HighCarries(q, high, lost, k);
      CarryWord(LowBits(n), 8 * len % 0x1_0000_0000);
    }
  }

  lemma HighCarries(q: nat, high: Word, lost: nat, k: nat)
    requires q % 0x1_0000_0000 == (high + lost) % 0x1_0000_0000
    ensures (q + k + 1) % 0x1_0000_0000 == ((high + k + 1) % 0x1_0000_0000 + lost) % 0x1_0000_0000
  {
    SumWords(q, high + lost, k + 1);
    SumWords(high + k + 1, (high + k + 1) % 0x1_0000_0000, lost);
  }

  /** The test for a carry: the sum is smaller than what was added to. */
  lemma CarryWord(a: Word, b: Word)
    ensures (a + b) % 0x1_0000_0000 < a <==> a + b >= 0x1_0000_0000
  {
  }

  lemma SumWords(a: nat, b: nat, c: nat)
    requires a % 0x1_0000_0000 == b % 0x1_0000_0000
    ensures (a + c) % 0x1_0000_0000 == (b + c) % 0x1_0000_0000
  {
  }

  /** Bits 3 to 8 of the low word are the number of buffered bytes. */
  lemma BufferedBytes(n: nat)
    ensures LowBits(n) / 8 % 64 == n % 64
  {
    var q, r := n / 0x2000_0000, n % 0x2000_0000;
    DivModUnique(r, 0, 8);
    assert n == (0x80_0000 * q + r / 64) * 64 + r % 64;
    DivModUnique(0x80_0000 * q + r / 64, r % 64, 64);
  }

  // ------------------------------------------------------------- the streaming

  class Context {
    const f: Compress
    var state: Hash
    var count0: Word
    var count1: Word
    const buffer: array<byte>
    /** Everything hashed so far, and what the high word of its count has lost. */
    ghost var msg: seq<byte>
    ghost var lost: nat

    ghost predicate Valid()
      reads this, buffer
    {
      && buffer.Length == 64
      && state == Fold(f, INITIAL, msg)
      && buffer[..|msg| % 64] == Tail(msg)
      && count0 == LowBits(|msg|)
      && Behind(|msg|, count1, lost)
    }

    /** SHA1Init. */
    constructor (f: Compress)
      ensures Valid() && msg == [] && lost == 0 && this.f == f && fresh(buffer)
    {
      this.f := f;
      state, count0, count1 := INITIAL, 0, 0;
      buffer := new byte[64](_ => 0);
      msg, lost := [], 0;
      new;
      NothingCounted();
    }

    /** memcpy into the buffer. */
    method Copy(at: nat, data: seq<byte>)
      requires at + |data| <= buffer.Length
      modifies buffer
      ensures buffer[..] == old(buffer[..at]) + data + old(buffer[at + |data|..])
    {
      var i := 0;
      while i < |data|
        invariant 0 <= i <= |data|
        invariant buffer[..at] == old(buffer[..at])
        invariant forall k :: at <= k < at + i ==> buffer[k] == data[k - at]
        invariant buffer[at + |data|..] == old(buffer[at + |data|..])
      {
        buffer[at + i] := data[i];
        i := i + 1;
      }
    }

    /** SHA1Update. The bytes in the buffer and those of the update must not add up to 2^32. */
    method Update(data: seq<byte>)
      requires Valid() && SumFits(|msg|, |data|)
      modifies this`state, this`count0, this`count1, this`msg, this`lost, buffer
      ensures Valid() && msg == old(msg) + data
      ensures lost == old(lost) + LostBits(|old(msg)|, |data|)
    {
      HighGrows(|msg|, count1, lost, |data|);
      BufferedBytes(|msg|);
      FoldAppend(f, INITIAL, msg, data);
      TailAppend(msg, data);
      var j := count0 / 8 % 64;
      count0, count1 := Counted(count0, count1, |data|).0, Counted(count0, count1, |data|).1;
      Absorb(j, data);
      lost := lost + LostBits(|msg|, |data|);
      msg := msg + data;
    }

    /** The blocks of SHA1Update: j bytes are buffered, and data follows. */
    method Absorb(j: nat, data: seq<byte>)
      requires buffer.Length == 64 && j < 64
      modifies this`state, buffer
      ensures state == Fold(f, old(state), old(buffer[..j]) + data)
      ensures buffer[..(j + |data|) % 64] == Tail(old(buffer[..j]) + data)
    {
      ghost var whole := buffer[..j] + data;
      if j + |data| > 63 {
        var i := 64 - j;
        Copy(j, data[..i]);
        assert buffer[..] == whole[..64] && data[i..] == whole[64..];
        state := f(state, buffer[..]);
        i := Blocks(data, i);
        assert data[i..] == Tail(whole);
        Copy(0, data[i..]);
      } else {
        Copy(j, data);
        assert whole == Tail(whole);
      }
    }

    /** The whole blocks of data from i on. */
    method Blocks(data: seq<byte>, from: nat) returns (i: nat)
      requires from <= |data|
      modifies this`state
      ensures state == Fold(f, old(state), data[from..])
      ensures from <= i <= |data| && |data| - i < 64 && (i - from) % 64 == 0
    {
      i := from;
      while i + 63 < |data|
        invariant from <= i <= |data| && (i - from) % 64 == 0
        invariant Fold(f, state, data[i..]) == Fold(f, old(state), data[from..])
      {
        assert data[i..][..64] == data[i..i + 64] && data[i..][64..] == data[i + 64..];
        state := f(state, data[i..i + 64]);
        i := i + 64;
      }
    }

    /** The padding loop of SHA1Final: zeros until 56 bytes of a block are used. */
    method PadZeros(ghost n: nat)
      requires Valid() && |msg| == n + 1
      modifies this`state, this`count0, this`count1, this`msg, this`lost, buffer
      ensures Valid() && msg == old(msg) + Zeros(ZeroCount(n))
    {
      ghost var zeros := 0;
      BufferedBytes(|msg|);
      while count0 / 8 % 64 * 8 != 448
        invariant Valid() && zeros <= ZeroCount(n) && msg == old(msg) + Zeros(zeros)
        invariant count0 / 8 % 64 == |msg| % 64
        decreases ZeroCount(n) - zeros
      {
        NotYetAligned(n, zeros);
        Regroup(old(msg), Zeros(zeros), [0]);
        Update([0]);
        zeros := zeros + 1;
        BufferedBytes(|msg|);
      }
      AlignedOnce(n, zeros);
    }

    /** SHA1Final. */
    method Final(digest: array<byte>)
      requires Valid() && digest.Length == 20 && digest != buffer
      modifies this`state, this`count0, this`count1, this`msg, this`lost, buffer, digest
      ensures digest[..] == Digest(Fold(f, INITIAL, PadWith(old(msg), old(count1))))
    {
      var finalcount := WordBytes(count1) + WordBytes(count0);
      Update([0x80]);
      PadZeros(|old(msg)|);
      Update(finalcount);
      assert msg == PadWith(old(msg), old(count1));
      WriteDigest(digest);
    }

    method WriteDigest(digest: array<byte>)
      requires digest.Length == 20
      modifies digest
      ensures digest[..] == Digest(state)
    {
      var i := 0;
      while i < 20
        invariant 0 <= i <= 20
        invariant forall k :: 0 <= k < i ==> digest[k] == Digest(state)[k]
      {
        digest[i] := WordBytes(state[i / 4])[i % 4];
        i := i + 1;
      }
    }
  }

  /** The 32-bit sum of the bytes in the buffer and those of the update does not wrap. */
  predicate SumFits(n: nat, len: nat) {
    n % 64 + len < 0x1_0000_0000
  }

  /** The sum decides where SHA1Update copies: with less than a block, it copies the whole
      update behind the bytes in the buffer. The copy stays inside the buffer exactly when
      the sum does not wrap; the test of the loop over blocks at position i then does not
      wrap either. */
  lemma SumExactly(n: nat, len: nat, i: nat)
    requires len < 0x1_0000_0000
    ensures var sum := (n % 64 + len) % 0x1_0000_0000;
            (sum <= 63 ==> n % 64 + len <= 64) <==> SumFits(n, len)
    ensures SumFits(n, len) && i <= len && (n % 64 + i) % 64 == 0 ==> i + 63 < 0x1_0000_0000
  {
    var j := n % 64;
    if j + len < 0x1_0000_0000 {
      DivModUnique(0, j + len, 0x1_0000_0000);
    } else {
      DivModUnique(1, j + len - 0x1_0000_0000, 0x1_0000_0000);
    }
  }

  lemma NotYetAligned(n: nat, zeros: nat)
    requires zeros <= ZeroCount(n) && (n + 1 + zeros) % 64 != 56
    ensures zeros < ZeroCount(n)
  {
  }

  lemma AlignedOnce(n: nat, zeros: nat)
    requires zeros <= ZeroCount(n) && (n + 1 + zeros) % 64 == 56
    ensures zeros == ZeroCount(n)
  {
    var k := ZeroCount(n);
    assert (n + 1 + k) - (n + 1 + zeros) == k - zeros;
  }

  /** What the high word of the count loses over a sequence of updates. */
  function Lost(chunks: seq<seq<byte>>): nat {
    if chunks == [] then 0
    else
      var n := |chunks| - 1;
      Lost(chunks[..n]) + LostBits(|Join(chunks[..n])|, |chunks[n]|)
  }

  lemma NextChunk(chunks: seq<seq<byte>>, i: nat)
    requires i < |chunks|
    ensures Join(chunks[..i + 1]) == Join(chunks[..i]) + chunks[i]
    ensures Lost(chunks[..i + 1]) == Lost(chunks[..i]) + LostBits(|Join(chunks[..i])|, |chunks[i]|)
  {
    assert chunks[..i + 1][..i] == chunks[..i] && chunks[..i + 1] == chunks[..i] + [chunks[i]];
    JoinAppend(chunks[..i], chunks[i]);
  }

  lemma {:induction false} ShortChunks(chunks: seq<seq<byte>>)
    requires forall i :: 0 <= i < |chunks| ==> |chunks[i]| < 0x2000_0000
    ensures Lost(chunks) == 0
    decreases |chunks|
  {
    if chunks != [] {
      ShortChunks(chunks[..|chunks| - 1]);
      DivModUnique(0, |chunks[|chunks| - 1]|, 0x2000_0000);
    }
  }

  /** Any sequence of updates hashes their concatenation, padded as in the standard
      exactly when the high word of the count has lost nothing modulo 2^32, as it has
      when all updates are below 2^29 bytes; then the digest is that of one shot. */
  method HashPieces(f: Compress, chunks: seq<seq<byte>>) returns (digest: array<byte>, ghost high: Word)
    requires forall i :: 0 <= i < |chunks| ==> SumFits(|Join(chunks[..i])|, |chunks[i]|)
    ensures digest[..] == Digest(Fold(f, INITIAL, PadWith(Join(chunks), high)))
    ensures PadWith(Join(chunks), high) == Pad(Join(chunks)) <==> Lost(chunks) % 0x1_0000_0000 == 0
    ensures (forall i :: 0 <= i < |chunks| ==> |chunks[i]| < 0x2000_0000) ==> digest[..] == OneShot(f, Join(chunks))
  {
    var c := HashUpdates(f, chunks);
    digest := new byte[20](_ => 0);
    high := c.count1;
    HighExactly(chunks, high);
    c.Final(digest);
  }

  method HashUpdates(f: Compress, chunks: seq<seq<byte>>) returns (c: Context)
    requires forall i :: 0 <= i < |chunks| ==> SumFits(|Join(chunks[..i])|, |chunks[i]|)
    ensures fresh(c) && fresh(c.buffer) && c.Valid() && c.f == f
    ensures c.msg == Join(chunks) && c.lost == Lost(chunks)
  {
    c := new Context(f);
    var i := 0;
    while i < |chunks|
      invariant 0 <= i <= |chunks|
      invariant c.Valid() && c.msg == Join(chunks[..i]) && c.lost == Lost(chunks[..i]) && c.f == f
      invariant fresh(c) && fresh(c.buffer)
    {
      NextChunk(chunks, i);
      c.Update(chunks[i]);
      i := i + 1;
    }
    assert chunks[..|chunks|] == chunks;
  }

  lemma HighExactly(chunks: seq<seq<byte>>, high: Word)
    requires Behind(|Join(chunks)|, high, Lost(chunks))
    ensures PadWith(Join(chunks), high) == Pad(Join(chunks)) <==> Lost(chunks) % 0x1_0000_0000 == 0
    ensures (forall i :: 0 <= i < |chunks| ==> |chunks[i]| < 0x2000_0000) ==>
              PadWith(Join(chunks), high) == Pad(Join(chunks))
  {
    PadExactly(Join(chunks), high);
    BehindExactly(|Join(chunks)|, high, Lost(chunks));
    if forall k :: 0 <= k < |chunks| ==> |chunks[k]| < 0x2000_0000 {
      ShortChunks(chunks);
    }
  }

  lemma BehindExactly(n: nat, high: Word, lost: nat)
    requires Behind(n, high, lost)
    ensures high == HighBits(n) <==> lost % 0x1_0000_0000 == 0
    ensures lost == 0 ==> high == HighBits(n)
  {
    LostExactly(high, lost);
    DivModUnique(0, high, 0x1_0000_0000);
  }

  lemma LostExactly(high: Word, lost: nat)
    ensures (high + lost) % 0x1_0000_0000 == high <==> lost % 0x1_0000_0000 == 0
  {
    Divides(lost, 0x1_0000_0000);
    var q, r := lost / 0x1_0000_0000, lost % 0x1_0000_0000;
    if high + r < 0x1_0000_0000 {
      DivModUnique(q, high + r, 0x1_0000_0000);
    } else {
      DivModUnique(q + 1, high + r - 0x1_0000_0000, 0x1_0000_0000);
    }
  }

  /** One update of 2^29 bytes is lost to the high word. */
  lemma CountLost(chunks: seq<seq<byte>>)
    requires |chunks| == 1 && |chunks[0]| == 0x2000_0000
    ensures Lost(chunks) == 1
  {
    assert chunks[..0] == [];
    assert Lost([]) == 0 && Join([]) == [];
  }
}
