/** How many index blocks a file without extents needs
    (android/ext4_utils/src/indirect.c). */
module Indirect {
  import opened Arithmetic

  const NDIR_BLOCKS: nat := 12

  /** DIV_ROUND_UP. */
  function CeilDiv(x: nat, y: nat): nat
    requires y > 0
  {
    (x + y - 1) / y
  }

  /** The sizes of the index ranges, in 32 bits. The third is the square of the second
      and not its product with the first. */
  function DoubleRange(perInd: nat): u32 {
    perInd * perInd % 0x1_0000_0000
  }

  function TripleRange(perInd: nat): u32 {
    DoubleRange(perInd) * DoubleRange(perInd) % 0x1_0000_0000
  }

  /** With pointers of four bytes and blocks of whole KiB the third is 0. */
  lemma TripleIsZero(perInd: nat)
    requires perInd % 256 == 0 && perInd < 0x1_0000
    ensures TripleRange(perInd) == 0
  {
    DoubleExact(perInd);
    var m := perInd / 256;
    Divides(perInd, 256);
    assert perInd * perInd == m * m * 0x1_0000;
    var q := m * m;
    assert DoubleRange(perInd) * DoubleRange(perInd) == q * q * 0x1_0000_0000;
    DivModUnique(q * q, 0, 0x1_0000_0000);
  }

  lemma DoubleExact(perInd: nat)
    requires perInd < 0x1_0000
    ensures DoubleRange(perInd) == perInd * perInd
  {
    SquareFits(perInd);
    Small(perInd * perInd);
  }

  lemma SquareFits(n: nat)
    requires n < 0x1_0000
    ensures n * n < 0x1_0000_0000
  {
    MulUp(n, 0x1_0000, n);
  }

  lemma Small(n: nat)
    requires n < 0x1_0000_0000
    ensures n % 0x1_0000_0000 == n
  {
  }

  /** indirect_blocks_needed. It stops the program for a length beyond the
      double-indirect range when blocks are of whole KiB: it divides by zero. */
  method IndirectBlocksNeeded(total: nat, perInd: nat) returns (ind: nat, stopped: bool)
    requires 0 < perInd < 0x1_0000
    ensures total <= NDIR_BLOCKS + perInd + perInd * perInd ==> !stopped && ind == IndexBlocks(total, perInd)
    ensures total > NDIR_BLOCKS + perInd + perInd * perInd && perInd % 256 == 0 ==> stopped
    ensures total > NDIR_BLOCKS + perInd + perInd * perInd ==>
              var rest := total - NDIR_BLOCKS - perInd - perInd * perInd;
              var third := TripleRange(perInd);
              && (stopped <==> rest > third || third == 0)
              && (!stopped ==> ind == PointerBlocks(total - NDIR_BLOCKS, perInd)
                                      + PointerBlocks(total - NDIR_BLOCKS - perInd, perInd * perInd)
                                      + PointerBlocks(rest, third))
  {
    ind, stopped := 0, false;
    var len := total;
    if len <= NDIR_BLOCKS {
      return;
    }
    len := len - NDIR_BLOCKS;
    ind := ind + CeilDiv(len, perInd);
    if len <= perInd {
      CeilOne(len, perInd);
      return;
    }
    CeilStep(len, perInd);
    CeilIsCount(len, perInd);
    len := len - perInd;
    DoubleExact(perInd);
    assert perInd * perInd > 0;
    CeilIsCount(len, perInd * perInd);
    ind := ind + CeilDiv(len, DoubleRange(perInd));
    if len <= DoubleRange(perInd) {
      CeilOne(len, perInd * perInd);
      return;
    }
    len := len - DoubleRange(perInd);
    if perInd % 256 == 0 {
      TripleIsZero(perInd);
    }
    if TripleRange(perInd) == 0 {
      stopped := true;
      return;
    }
    CeilIsCount(len, TripleRange(perInd));
    ind := ind + CeilDiv(len, TripleRange(perInd));
    stopped := len > TripleRange(perInd);
  }

  /** One block of pointers for every perInd data blocks or part of it. */
  function PointerBlocks(len: nat, perInd: nat): nat
    requires perInd > 0
    decreases len
  {
    if len == 0 then 0 else if len <= perInd then 1 else 1 + PointerBlocks(len - perInd, perInd)
  }

  /** The index blocks of a file: none for the direct blocks, one for the first
      perInd blocks after them, and for the rest a block of pointers to blocks of
      pointers. */
  function IndexBlocks(total: nat, perInd: nat): nat
    requires perInd > 0
  {
    if total <= 12 then 0
    else if total <= 12 + perInd then 1
    else 1 + 1 + PointerBlocks(total - 12 - perInd, perInd)
  }

  lemma CeilOne(len: nat, y: nat)
    requires 0 < len <= y
    ensures CeilDiv(len, y) == 1
  {
    DivModUnique(1, len - 1, y);
  }

  lemma {:induction false} CeilIsCount(len: nat, y: nat)
    requires y > 0
    ensures CeilDiv(len, y) == PointerBlocks(len, y)
    decreases len
  {
    if len == 0 {
      DivModUnique(0, y - 1, y);
    } else if len <= y {
      CeilOne(len, y);
    } else {
      CeilIsCount(len - y, y);
      var q, r := (len - 1) / y, (len - 1) % y;
      assert len - 1 == q * y + r;
      assert len + y - 1 == (q + 1) * y + r;
      DivModUnique(q + 1, r, y);
    }
  }

  lemma CeilStep(len: nat, y: nat)
    requires 0 < y < len
    ensures CeilDiv(len, y) == 1 + PointerBlocks(len - y, y)
  {
    CeilIsCount(len, y);
  }

  /** The blocks that reserve_all_indirect_blocks sets aside, one reserve_oob_blocks
      call at a time. */
  class Reservation {
    var reserved: nat

    constructor ()
      ensures reserved == 0
    {
      reserved := 0;
    }

    /** reserve_indirect_block. */
    method ReserveIndirect()
      modifies this
      ensures reserved == old(reserved) + 1
    {
      reserved := reserved + 1;
    }

    /** reserve_dindirect_block. */
    method ReserveDindirect(total: nat, perInd: nat)
      requires perInd > 0
      modifies this
      ensures reserved == old(reserved) + 1 + PointerBlocks(total, perInd)
    {
      reserved := reserved + 1;
      var len := total;
      while len > 0
        invariant 0 <= len <= total
        invariant reserved + PointerBlocks(len, perInd)
                    == old(reserved) + 1 + PointerBlocks(total, perInd)
      {
        var indBlockLen := if perInd < len then perInd else len;
        ReserveIndirect();
        len := len - indBlockLen;
      }
    }

    /** reserve_tindirect_block. */
    method ReserveTindirect(total: nat, perInd: nat)
      requires 0 < perInd < 0x1_0000
      modifies this
      ensures reserved == old(reserved) + TripleBlocks(total, perInd)
    {
      reserved := reserved + 1;
      var len := total;
      DoubleExact(perInd);
      while len > 0
        invariant 0 <= len <= total
        invariant reserved + TripleBlocks(len, perInd) == old(reserved) + 1 + TripleBlocks(total, perInd)
      {
        TripleStep(len, perInd);
        var dindBlockLen := if DoubleRange(perInd) < len then DoubleRange(perInd) else len;
        ReserveDindirect(dindBlockLen, perInd);
        len := len - dindBlockLen;
      }
    }

    /** reserve_all_indirect_blocks, for every length. Up to the double-indirect range it
        sets aside as many blocks as were counted; beyond it, as many as the computed size
        of the triple range allows, and the rest of the file is left without. */
    method ReserveAll(total: nat, perInd: nat) returns (left: nat)
      requires 0 < perInd < 0x1_0000
      modifies this
      ensures var (blocks, rest) := AllBlocks(total, perInd);
              reserved == old(reserved) + blocks && left == rest
    {
      left := 0;
      if total <= NDIR_BLOCKS {
        return;
      }
      var len := total - NDIR_BLOCKS;
      var indBlockLen := if perInd < len then perInd else len;
      ReserveIndirect();
      len := len - indBlockLen;
      if len == 0 {
        return;
      }
      DoubleExact(perInd);
      var dindBlockLen := if DoubleRange(perInd) < len then DoubleRange(perInd) else len;
      ReserveDindirect(dindBlockLen, perInd);
      len := len - dindBlockLen;
      if len == 0 {
        return;
      }
      var tindBlockLen := if TripleRange(perInd) < len then TripleRange(perInd) else len;
      ReserveTindirect(tindBlockLen, perInd);
      left := len - tindBlockLen;
    }
  }

  /** A block of pointers to double-indirect blocks, and what they take. */
  function TripleBlocks(len: nat, perInd: nat): nat
    requires perInd > 0
  {
    1 + PointerBlocks(len, perInd * perInd) + PointerBlocks(len, perInd)
  }

  /** The index blocks of a file of any length, and the data blocks without one. */
  function AllBlocks(total: nat, perInd: nat): (nat, nat)
    requires perInd > 0
  {
    var twice := 12 + perInd + perInd * perInd;
    if total <= twice then (IndexBlocks(total, perInd), 0)
    else
      var third := if total - twice < TripleRange(perInd) then total - twice else TripleRange(perInd);
      (IndexBlocks(twice, perInd) + TripleBlocks(third, perInd), total - twice - third)
  }

  /** With blocks of whole KiB the triple-indirect block points to nothing, and all blocks
      beyond the double-indirect range are left without an index block. */
  lemma NothingTriple(total: nat, perInd: nat)
    requires 0 < perInd < 0x1_0000 && perInd % 256 == 0 && total > NDIR_BLOCKS + perInd + perInd * perInd
    ensures AllBlocks(total, perInd) == (3 + perInd, total - (NDIR_BLOCKS + perInd + perInd * perInd))
  {
    TripleIsZero(perInd);
    ManyBlocks(perInd, perInd);
  }

  lemma {:induction false} ManyBlocks(n: nat, perInd: nat)
    requires perInd > 0
    ensures PointerBlocks(n * perInd, perInd) == n
  {
    if n > 0 {
      MulStep(n - 1, n, perInd);
      assert n * perInd - perInd == (n - 1) * perInd;
      ManyBlocks(n - 1, perInd);
    }
  }

  /** Whole blocks of pointers can be counted first. */
  lemma {:induction false} PointerSplit(n: nat, len: nat, perInd: nat)
    requires perInd > 0 && n * perInd <= len
    ensures PointerBlocks(len, perInd) == n + PointerBlocks(len - n * perInd, perInd)
    decreases n
  {
    if n > 0 {
      MulStep(n - 1, n, perInd);
      assert n * perInd - perInd == (n - 1) * perInd;
      PointerSplit(n - 1, len - perInd, perInd);
    }
  }

  lemma TripleStep(len: nat, perInd: nat)
    requires perInd > 0 && len > 0
    ensures var d := if perInd * perInd < len then perInd * perInd else len;
            TripleBlocks(len, perInd) == TripleBlocks(len - d, perInd) + 1 + PointerBlocks(d, perInd)
  {
    if perInd * perInd < len {
      PointerSplit(perInd, len, perInd);
      ManyBlocks(perInd, perInd);
    }
  }
}
