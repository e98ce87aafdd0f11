/** A block group and its block bitmap, set and cleared in place
    (android/ext4_utils/src/allocate.c). */
module BlockGroups {
  import opened Arithmetic

  /** 1 << k. */
  function Mask(k: nat): bv8
    requires k < 8
  {
    if k == 0 then 1 else if k == 1 then 2 else if k == 2 then 4 else if k == 3 then 8
    else if k == 4 then 16 else if k == 5 then 32 else if k == 6 then 64 else 128
  }

  predicate Bit(b: bv8, k: nat)
    requires k < 8
  {
    b & Mask(k) != 0
  }

  /** Block i of the group is taken. */
  predicate Used(bytes: seq<bv8>, i: nat)
    requires i < 8 * |bytes|
  {
    Bit(bytes[i / 8], i % 8)
  }

  lemma OrBit(b: bv8, k: nat, j: nat)
    requires k < 8 && j < 8
    ensures Bit(b | Mask(k), j) <==> Bit(b, j) || j == k
  {
  }

  lemma AndNotBit(b: bv8, k: nat, j: nat)
    requires k < 8 && j < 8
    ensures Bit(b & !Mask(k), j) <==> Bit(b, j) && j != k
  {
  }

  lemma WholeByte(b: bv8)
    ensures forall k :: 0 <= k < 8 ==> Bit(0xFF, k)
    ensures b == 0 <==> forall k :: 0 <= k < 8 ==> !Bit(b, k)
  {
    if b != 0 {
      assert Bit(b, 0) || Bit(b, 1) || Bit(b, 2) || Bit(b, 3) || Bit(b, 4) || Bit(b, 5) || Bit(b, 6)
          || Bit(b, 7);
    }
  }

  /** Setting bits lo..hi of a bitmap. */
  ghost predicate Sets(bytes: seq<bv8>, bytes1: seq<bv8>, lo: nat, hi: nat) {
    |bytes1| == |bytes| &&
    forall i :: 0 <= i < 8 * |bytes| ==> (Used(bytes1, i) <==> Used(bytes, i) || lo <= i < hi)
  }

  /** Clearing bits lo..hi of a bitmap. */
  ghost predicate Clears(bytes: seq<bv8>, bytes1: seq<bv8>, lo: nat, hi: nat) {
    |bytes1| == |bytes| &&
    forall i :: 0 <= i < 8 * |bytes| ==> (Used(bytes1, i) <==> Used(bytes, i) && !(lo <= i < hi))
  }

  lemma SetOne(bytes: seq<bv8>, block: nat)
    requires block < 8 * |bytes|
    ensures Sets(bytes, bytes[block / 8 := bytes[block / 8] | Mask(block % 8)], block, block + 1)
  {
    var bytes1 := bytes[block / 8 := bytes[block / 8] | Mask(block % 8)];
    forall i | 0 <= i < 8 * |bytes|
      ensures Used(bytes1, i) <==> Used(bytes, i) || i == block
    {
      OrBit(bytes[block / 8], block % 8, i % 8);
    }
  }

  lemma AlreadySet(bytes: seq<bv8>, block: nat)
    requires block < 8 * |bytes| && Used(bytes, block)
    ensures Sets(bytes, bytes, block, block + 1)
  {
  }

  lemma SetEight(bytes: seq<bv8>, block: nat)
    requires block % 8 == 0 && block + 8 <= 8 * |bytes|
    ensures Sets(bytes, bytes[block / 8 := 0xFF], block, block + 8)
    ensures bytes[block / 8] == 0 <==> forall i :: block <= i < block + 8 ==> !Used(bytes, i)
  {
    WholeByte(bytes[block / 8]);
    if bytes[block / 8] != 0 {
      var k :| 0 <= k < 8 && Bit(bytes[block / 8], k);
      assert Used(bytes, block + k);
    }
  }

  lemma ClearOne(bytes: seq<bv8>, block: nat)
    requires block < 8 * |bytes|
    ensures Clears(bytes, bytes[block / 8 := bytes[block / 8] & !Mask(block % 8)], block, block + 1)
  {
    var bytes1 := bytes[block / 8 := bytes[block / 8] & !Mask(block % 8)];
    forall i | 0 <= i < 8 * |bytes|
      ensures Used(bytes1, i) <==> Used(bytes, i) && i != block
    {
      AndNotBit(bytes[block / 8], block % 8, i % 8);
    }
  }

  // ------------------------------------------------------ the bytes on the disk

  function Pow2(k: nat): nat {
    if k == 0 then 1 else 2 * Pow2(k - 1)
  }

  /** A byte whose bits from k on are clear is a number below 2^k. */
  function LowBits(b: bv8, k: nat): nat
    requires k <= 8
  {
    if k == 0 then 0 else LowBits(b, k - 1) + if Bit(b, k - 1) then Pow2(k - 1) else 0
  }

  lemma ByteIsBits(b: bv8)
    ensures b as int == LowBits(b, 8)
  {
    Weights();
    assert LowBits(b, 1) == if Bit(b, 0) then 1 else 0;
    assert LowBits(b, 2) == LowBits(b, 1) + if Bit(b, 1) then 2 else 0;
    assert LowBits(b, 3) == LowBits(b, 2) + if Bit(b, 2) then 4 else 0;
    assert LowBits(b, 4) == LowBits(b, 3) + if Bit(b, 3) then 8 else 0;
    assert LowBits(b, 5) == LowBits(b, 4) + if Bit(b, 4) then 16 else 0;
    assert LowBits(b, 6) == LowBits(b, 5) + if Bit(b, 5) then 32 else 0;
    assert LowBits(b, 7) == LowBits(b, 6) + if Bit(b, 6) then 64 else 0;
    assert LowBits(b, 8) == LowBits(b, 7) + if Bit(b, 7) then 128 else 0;
  }

  lemma Weights()
    ensures Pow2(0) == 1 && Pow2(1) == 2 && Pow2(2) == 4 && Pow2(3) == 8
    ensures Pow2(4) == 16 && Pow2(5) == 32 && Pow2(6) == 64 && Pow2(7) == 128
  {
    assert Pow2(1) == 2 * Pow2(0);
    assert Pow2(2) == 2 * Pow2(1);
    assert Pow2(3) == 2 * Pow2(2);
    assert Pow2(4) == 2 * Pow2(3);
    assert Pow2(5) == 2 * Pow2(4);
    assert Pow2(6) == 2 * Pow2(5);
  }

  lemma {:induction false} LowBelow(b: bv8, k: nat)
    requires k <= 8
    ensures LowBits(b, k) < Pow2(k)
  {
    if k > 0 {
      LowBelow(b, k - 1);
    }
  }

  /** Digit k of the sum of the bits below n. */
  lemma {:induction false} DigitIsBit(b: bv8, n: nat, k: nat)
    requires k < n <= 8
    ensures Pow2(k) > 0 && (LowBits(b, n) / Pow2(k) % 2 == 1 <==> Bit(b, k))
    decreases n
  {
    LowBelow(b, k);
    var q := DigitFrom(b, n, k);
    DivModUnique(q, LowBits(b, k), Pow2(k));
  }

  /** The bits from k on are a multiple of 2^k, odd exactly when bit k is set. */
  lemma {:induction false} DigitFrom(b: bv8, n: nat, k: nat) returns (q: nat)
    requires k < n <= 8
    ensures LowBits(b, n) == q * Pow2(k) + LowBits(b, k) && (q % 2 == 1 <==> Bit(b, k))
    decreases n
  {
    if n == k + 1 {
      q := if Bit(b, k) then 1 else 0;
    } else {
      q := DigitFrom(b, n - 1, k);
      if Bit(b, n - 1) {
        var more := 2 * Pow2(n - 2 - k);
        PowSum(n - 1, k);
        Joined(q, more, Pow2(k), LowBits(b, k), LowBits(b, n - 1), Pow2(n - 1));
        q := q + more;
      }
    }
  }

  lemma Joined(q: nat, more: nat, p: nat, low: nat, sum: nat, top: nat)
    requires sum == q * p + low && more * p == top
    ensures sum + top == (q + more) * p + low
  {
  }

  lemma {:induction false} PowSum(n: nat, k: nat)
    requires k < n
    ensures 2 * Pow2(n - k - 1) * Pow2(k) == Pow2(n)
    decreases n
  {
    if n > k + 1 {
      PowSum(n - 1, k);
    }
  }

  /** Block i is taken when the byte of its eight, as a number, has the binary digit of
      weight 2^(i % 8). */
  lemma UsedMeaning(bytes: seq<bv8>, i: nat)
    requires i < 8 * |bytes|
    ensures Pow2(i % 8) > 0
    ensures Used(bytes, i) <==> bytes[i / 8] as int / Pow2(i % 8) % 2 == 1
  {
    ByteIsBits(bytes[i / 8]);
    DigitIsBit(bytes[i / 8], 8, i % 8);
  }

  /** The bytes of a group whose first h blocks alone are taken: whole bytes of ones, one
      of 2^(h % 8) - 1, and zeros. */
  lemma HeaderBytes(bytes: seq<bv8>, h: nat, j: nat)
    requires j < |bytes| && forall i :: 0 <= i < 8 * |bytes| ==> (Used(bytes, i) <==> i < h)
    ensures bytes[j] as int == if 8 * j + 8 <= h then 255 else if h <= 8 * j then 0 else Pow2(h - 8 * j) - 1
  {
    forall k | 0 <= k < 8 ensures Bit(bytes[j], k) <==> 8 * j + k < h {
      assert Used(bytes, 8 * j + k) <==> Bit(bytes[j], k);
    }
    ByteIsBits(bytes[j]);
    FirstOnes(bytes[j], if h <= 8 * j then 0 else if 8 * j + 8 <= h then 8 else h - 8 * j, 8);
    Weights();
  }

  lemma {:induction false} FirstOnes(b: bv8, h: nat, n: nat)
    requires h <= 8 && n <= 8 && forall k :: 0 <= k < 8 ==> (Bit(b, k) <==> k < h)
    ensures LowBits(b, n) == Pow2(if n < h then n else h) - 1
    decreases n
  {
    if n > 0 {
      FirstOnes(b, h, n - 1);
    }
  }

  /** struct block_group_info, as far as blocks are concerned. */
  class BlockGroup {
    const firstBlock: nat
    const bitmap: array<bv8>
    /** Blocks in a group, and the range of those the group can hand out. */
    const perGroup: nat
    const header: nat
    const limit: nat
    var freeBlocks: nat
    var firstFree: nat
    var dataBlocksUsed: nat

    /** The bitmap is clear exactly on the free range. */
    ghost predicate Valid()
      reads this, bitmap
    {
      && perGroup <= 8 * bitmap.Length
      && 0 < header <= firstFree && limit <= perGroup
      && (firstFree + freeBlocks == limit ||
          (freeBlocks == 0 && header == limit && firstFree == perGroup))
      && forall i :: 0 <= i < perGroup ==>
           (Used(bitmap[..], i) <==> !(firstFree <= i < firstFree + freeBlocks))
    }

    /** init_bg: the header is reserved, and in a short last group everything
        past the end of the image. */
    constructor (firstBlock: nat, perGroup: nat, bytes: nat, header: nat, overrun: nat)
      requires perGroup <= 8 * bytes && 0 < header && header + overrun <= perGroup
      ensures Valid() && fresh(bitmap)
      ensures this.firstBlock == firstBlock && this.perGroup == perGroup
      ensures this.header == header && limit == perGroup - overrun
      ensures freeBlocks == perGroup - overrun - header
      ensures freeBlocks > 0 ==> firstFree == header
      ensures dataBlocksUsed == 0 && bitmap.Length == bytes
      ensures forall i :: 0 <= i < 8 * bytes ==>
                (Used(bitmap[..], i) <==> i < header || perGroup - overrun <= i < perGroup)
    {
      this.firstBlock, this.perGroup := firstBlock, perGroup;
      this.header, this.limit := header, perGroup - overrun;
      var b := new bv8[bytes](_ => 0);
      bitmap := b;
      freeBlocks, firstFree, dataBlocksUsed := perGroup, 0, 0;
      new;
      assert forall i :: 0 <= i < 8 * bytes ==> !Used(bitmap[..], i);
      var ok := ReserveBlocks(0, header);
      if overrun > 0 {
        ok := ReserveBlocks(perGroup - overrun, overrun);
      }
    }

    /** bitmap_set_bit. */
    method SetBit(block: nat) returns (was: bool)
      requires block < 8 * bitmap.Length
      modifies bitmap
      ensures was == old(Used(bitmap[..], block))
      ensures Sets(old(bitmap[..]), bitmap[..], block, block + 1)
    {
      was := TestBit(block);
      if was {
        AlreadySet(bitmap[..], block);
      } else {
        OrMask(block);
      }
    }

    method TestBit(block: nat) returns (was: bool)
      requires block < 8 * bitmap.Length
      ensures was == Used(bitmap[..], block)
    {
      was := bitmap[block / 8] & Mask(block % 8) != 0;
    }

    method OrMask(block: nat)
      requires block < 8 * bitmap.Length
      modifies bitmap
      ensures Sets(old(bitmap[..]), bitmap[..], block, block + 1)
    {
      SetOne(bitmap[..], block);
      bitmap[block / 8] := bitmap[block / 8] | Mask(block % 8);
      assert bitmap[..] == old(bitmap[..])[block / 8 := old(bitmap[block / 8]) | Mask(block % 8)];
    }

    /** bitmap_set_8_bits. */
    method SetEightBits(block: nat) returns (were: bool)
      requires block % 8 == 0 && block + 8 <= 8 * bitmap.Length
      modifies bitmap
      ensures were <==> exists i :: block <= i < block + 8 && old(Used(bitmap[..], i))
      ensures Sets(old(bitmap[..]), bitmap[..], block, block + 8)
    {
      SetEight(bitmap[..], block);
      were := bitmap[block / 8] != 0;
      bitmap[block / 8] := 0xFF;
      assert bitmap[..] == old(bitmap[..])[block / 8 := 0xFF];
    }

    /** reserve_blocks, with its byte-wide middle loop. */
    method ReserveBlocks(start: nat, num: nat) returns (ok: bool)
      requires start + num <= 8 * bitmap.Length
      modifies this`freeBlocks, this`firstFree, bitmap
      ensures ok <==> num <= old(freeBlocks) &&
                      forall i :: start <= i < start + num ==> !old(Used(bitmap[..], i))
      ensures ok ==> Sets(old(bitmap[..]), bitmap[..], start, start + num)
      ensures ok ==> freeBlocks == old(freeBlocks) - num
      ensures ok ==> firstFree == if start == old(firstFree) then start + num else old(firstFree)
      ensures !ok ==> freeBlocks == old(freeBlocks) && firstFree == old(firstFree)
      ensures forall i :: 0 <= i < 8 * bitmap.Length && !(start <= i < start + num) ==>
                (Used(bitmap[..], i) <==> old(Used(bitmap[..], i)))
    {
      if num > freeBlocks {
        return false;
      }
      ghost var was := bitmap[..];
      var i;
      ok, i := ReserveHead(start, num, was);
      if !ok {
        return;
      }
      ok, i := ReserveBytes(start, num, i, was);
      if !ok {
        return;
      }
      ok := ReserveTail(start, num, i, was);
      if !ok {
        return;
      }
      freeBlocks := freeBlocks - num;
      if start == firstFree {
        firstFree := start + num;
      }
    }

    /** Blocks start..block were clear and have been set, and nothing else. */
    ghost predicate Progress(was: seq<bv8>, start: nat, block: nat)
      reads this, bitmap
    {
      && start <= block <= 8 * |was|
      && Sets(was, bitmap[..], start, block)
      && forall i :: start <= i < block ==> !Used(was, i)
    }

    /** A block of start..start+num was taken, and no other block has changed. */
    ghost predicate Clash(was: seq<bv8>, start: nat, num: nat)
      requires start + num <= 8 * |was|
      reads this, bitmap
    {
      && bitmap.Length == |was|
      && (exists i :: start <= i < start + num && Used(was, i))
      && forall i :: 0 <= i < 8 * |was| && !(start <= i < start + num) ==>
           (Used(bitmap[..], i) <==> Used(was, i))
    }

    /** Bit by bit up to a byte boundary. */
    method ReserveHead(start: nat, num: nat, ghost was: seq<bv8>) returns (ok: bool, i: nat)
      requires start + num <= 8 * bitmap.Length && was == bitmap[..]
      modifies bitmap
      ensures ok ==> i <= num && Progress(was, start, start + i)
      ensures ok ==> i == num || (start + i) % 8 == 0
      ensures !ok ==> Clash(was, start, num)
    {
      i := 0;
      var block := start;
      while i < num && block % 8 != 0
        invariant i <= num && block == start + i && Progress(was, start, block)
      {
        var taken := SetBit(block);
        if taken {
          return false, i;
        }
        i, block := i + 1, block + 1;
      }
      ok := true;
    }

    /** Eight blocks at a time. */
    method ReserveBytes(start: nat, num: nat, i0: nat, ghost was: seq<bv8>) returns (ok: bool, i: nat)
      requires i0 <= num && start + num <= 8 * bitmap.Length && Progress(was, start, start + i0)
      requires i0 == num || (start + i0) % 8 == 0
      modifies bitmap
      ensures ok ==> i <= num && Progress(was, start, start + i)
      ensures !ok ==> Clash(was, start, num)
    {
      i := i0;
      var block := start + i0;
      // the largest multiple of 8 up to num
      var whole := num - num % 8;
      while i + 8 <= whole
        invariant i <= num && block == start + i && (block % 8 == 0 || i == num)
        invariant Progress(was, start, block)
      {
        var taken := SetEightBits(block);
        if taken {
          return false, i;
        }
        i, block := i + 8, block + 8;
      }
      ok := true;
    }

    /** Bit by bit to the end. */
    method ReserveTail(start: nat, num: nat, i0: nat, ghost was: seq<bv8>) returns (ok: bool)
      requires i0 <= num && start + num <= 8 * bitmap.Length && Progress(was, start, start + i0)
      modifies bitmap
      ensures ok ==> Progress(was, start, start + num)
      ensures !ok ==> Clash(was, start, num)
    {
      var i, block := i0, start + i0;
      while i < num
        invariant i <= num && block == start + i && Progress(was, start, block)
      {
        var taken := SetBit(block);
        if taken {
          return false;
        }
        i, block := i + 1, block + 1;
      }
      ok := true;
    }

    /** free_blocks: the last blocks handed out go back. */
    method FreeBlocks(num: nat)
      requires num <= firstFree <= 8 * bitmap.Length
      modifies this`freeBlocks, this`firstFree, bitmap
      ensures Clears(old(bitmap[..]), bitmap[..], old(firstFree) - num, old(firstFree))
      ensures freeBlocks == old(freeBlocks) + num && firstFree == old(firstFree) - num
    {
      var i := 0;
      while i < num
        invariant i <= num
        invariant Clears(old(bitmap[..]), bitmap[..], firstFree - i, firstFree)
        modifies bitmap
      {
        var block := firstFree - 1 - i;
        ghost var was := bitmap[..];
        ClearOne(was, block);
        bitmap[block / 8] := bitmap[block / 8] & !Mask(block % 8);
        assert bitmap[..] == was[block / 8 := was[block / 8] & !Mask(block % 8)];
        i := i + 1;
      }
      freeBlocks, firstFree := freeBlocks + num, firstFree - num;
    }

    /** ext4_allocate_blocks_from_block_group: fails exactly when the group is too
        full; the reservation itself never does. */
    method Allocate(len: nat) returns (ok: bool, block: nat)
      requires Valid()
      modifies this`freeBlocks, this`firstFree, this`dataBlocksUsed, bitmap
      ensures Valid()
      ensures ok <==> len <= old(freeBlocks)
      ensures ok ==> block == firstBlock + old(firstFree)
      ensures ok ==> firstFree == old(firstFree) + len && freeBlocks == old(freeBlocks) - len
      ensures ok ==> dataBlocksUsed == old(dataBlocksUsed) + len
      ensures !ok ==> unchanged(this) && unchanged(bitmap)
    {
      ok, block := false, 0;
      if freeBlocks < len {
        return;
      }
      block := firstFree;
      ok := ReserveBlocks(firstFree, len);
      dataBlocksUsed := dataBlocksUsed + len;
      block := firstBlock + block;
    }

    /** The tail of the last allocation goes back (reduce_allocation). */
    method Release(num: nat)
      requires Valid() && header + num <= firstFree <= limit
      modifies this`freeBlocks, this`firstFree, bitmap
      ensures Valid()
      ensures firstFree == old(firstFree) - num && freeBlocks == old(freeBlocks) + num
    {
      FreeBlocks(num);
    }
  }
}
