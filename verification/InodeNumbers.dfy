/** Inode numbers, the slots they address, and the renumbering that changes the
    number of inodes per block group (android/ext4_utils/src/ext4fixup.c). */
module InodeNumbers {
  import opened Arithmetic

  /** The high bit that marks a directory entry as "still to be renumbered". */
  const MARK: nat := 0x8000_0000

  /** The place of an inode: a block group and an index into its inode table. */
  datatype Slot = Slot(group: nat, offset: nat)

  /** `inum - 1` on a 32-bit unsigned number. */
  function Pred(inum: u32): u32 {
    (inum + 0xFFFF_FFFF) % 0x1_0000_0000
  }

  /** The slot that read_inode fetches for an inode number. */
  function SlotOf(inum: u32, ipg: nat): Slot
    requires ipg > 0
  {
    Slot(Pred(inum) / ipg, Pred(inum) % ipg)
  }

  /** compute_new_inum, in unsigned 32-bit arithmetic. */
  function NewInum(inum: u32, ipg0: nat, ipg1: nat): u32
    requires ipg0 > 0
  {
    (Pred(inum) / ipg0 * ipg1 + Pred(inum) % ipg0 + 1) % 0x1_0000_0000
  }

  /** ALIGN(n, a). */
  function Align(n: nat, a: nat): nat
    requires a > 0
  {
    a * ((n + a - 1) / a)
  }

  /** The number and its successor both leave the marker bit free. */
  predicate Fits(inum: u32, ipg0: nat, ipg1: nat)
    requires ipg0 > 0
  {
    1 <= inum < MARK && (inum - 1) / ipg0 * ipg1 + (inum - 1) % ipg0 + 1 < MARK
  }

  /** Renumbering keeps the slot: the new number read with the new group size
      is the inode that the old number was with the old group size. */
  lemma NewInumKeepsSlot(inum: u32, ipg0: nat, ipg1: nat)
    requires 0 < ipg0 <= ipg1 && Fits(inum, ipg0, ipg1)
    ensures 1 <= NewInum(inum, ipg0, ipg1) < MARK
    ensures SlotOf(NewInum(inum, ipg0, ipg1), ipg1) == SlotOf(inum, ipg0)
  {
    var g, o := (inum - 1) / ipg0, (inum - 1) % ipg0;
    assert Pred(inum) == inum - 1;
    assert g * ipg1 >= 0;
    var n := NewInum(inum, ipg0, ipg1);
    assert n == g * ipg1 + o + 1;
    assert Pred(n) == g * ipg1 + o;
    DivModUnique(g, o, ipg1);
  }

  lemma SlotInjective(a: u32, b: u32, ipg: nat)
    requires 0 < ipg && 1 <= a && 1 <= b && SlotOf(a, ipg) == SlotOf(b, ipg)
    ensures a == b
  {
    var x, y := Pred(a), Pred(b);
    assert x == ipg * (x / ipg) + x % ipg;
    assert y == ipg * (y / ipg) + y % ipg;
  }

  /** No two inodes are given the same new number. */
  lemma NewInumInjective(a: u32, b: u32, ipg0: nat, ipg1: nat)
    requires 0 < ipg0 <= ipg1 && Fits(a, ipg0, ipg1) && Fits(b, ipg0, ipg1)
    ensures NewInum(a, ipg0, ipg1) == NewInum(b, ipg0, ipg1) <==> a == b
  {
    if NewInum(a, ipg0, ipg1) == NewInum(b, ipg0, ipg1) {
      NewInumKeepsSlot(a, ipg0, ipg1);
      NewInumKeepsSlot(b, ipg0, ipg1);
      SlotInjective(a, b, ipg0);
    }
  }

  /** With an already aligned group size renumbering changes nothing. */
  lemma NewInumIdentity(inum: u32, ipg: nat)
    requires 0 < ipg && 1 <= inum
    ensures NewInum(inum, ipg, ipg) == inum
    ensures inum < MARK ==> Fits(inum, ipg, ipg)
  {
    assert Pred(inum) == inum - 1;
    assert (inum - 1) / ipg * ipg + (inum - 1) % ipg == inum - 1;
  }

  /** Alignment reaches a multiple of `a` at or above `n`, and stays there. */
  lemma AlignStable(n: nat, a: nat)
    requires a > 0
    ensures n <= Align(n, a) < n + a && Align(n, a) % a == 0
    ensures Align(Align(n, a), a) == Align(n, a)
  {
    var k := (n + a - 1) / a;
    assert n + a - 1 == a * k + (n + a - 1) % a;
    assert a * k + a - 1 == k * a + (a - 1);
    DivModUnique(k, a - 1, a);
    DivModUnique(k, 0, a);
  }
}
