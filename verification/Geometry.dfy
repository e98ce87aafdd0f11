/** The layout of block groups: which carry superblock copies, where their bitmaps and
    inode tables go, and which last group is dropped
    (android/ext4_utils/src/ext4_utils.c, allocate.c). */
module Geometry {
  import opened Arithmetic

  // ------------------------------------------------------- superblock copies

  function Pow(b: nat, k: nat): nat {
    if k == 0 then 1 else b * Pow(b, k - 1)
  }

  ghost predicate PowerOf(a: nat, b: nat) {
    exists k :: k >= 1 && a == Pow(b, k)
  }

  lemma {:induction false} PowerAtLeast(b: nat, k: nat)
    requires b >= 2 && k >= 1
    ensures Pow(b, k) >= b && Pow(b, k) % b == 0
  {
    if k == 1 {
      assert Pow(b, 1) == b * Pow(b, 0);
    } else {
      PowerAtLeast(b, k - 1);
      MulStep(1, Pow(b, k - 1), b);
    }
    DivModUnique(Pow(b, k - 1), 0, b);
  }

  lemma Cancel(b: nat, c: nat, d: nat)
    requires b > 0 && b * c == b * d
    ensures c == d
  {
    if c < d {
      MulStep(c, d, b);
    } else if d < c {
      MulStep(d, c, b);
    }
  }

  lemma PowerStep(b: nat, c: nat)
    requires b >= 2 && c >= 2
    ensures PowerOf(b * c, b) <==> PowerOf(c, b)
  {
    if PowerOf(b * c, b) {
      var k :| k >= 1 && b * c == Pow(b, k);
      Cancel(b, c, Pow(b, k - 1));
    }
    if PowerOf(c, b) {
      var k :| k >= 1 && c == Pow(b, k);
      assert b * c == Pow(b, k + 1);
    }
  }

  lemma PowerNeeds(a: nat, b: nat)
    requires b >= 2
    ensures PowerOf(a, b) ==> a >= b && a % b == 0
    ensures PowerOf(b, b)
  {
    if PowerOf(a, b) {
      var k :| k >= 1 && a == Pow(b, k);
      PowerAtLeast(b, k);
    }
    assert Pow(b, 1) == b * Pow(b, 0) == b;
  }

  lemma Quotient(a: nat, b: nat)
    requires b >= 2 && a > b && a % b == 0
    ensures a == b * (a / b) && 2 <= a / b < a
  {
    var c := a / b;
    assert a == b * c;
    if c >= 2 {
      MulStep(1, b, c);
    }
  }

  /** is_power_of. */
  method IsPowerOf(n: nat, b: nat) returns (r: bool)
    requires b >= 2
    ensures r <==> PowerOf(n, b)
  {
    var a: nat := n;
    while a > b
      invariant PowerOf(a, b) <==> PowerOf(n, b)
    {
      PowerNeeds(a, b);
      if a % b != 0 {
        return false;
      }
      Quotient(a, b);
      PowerStep(b, a / b);
      a := a / b;
    }
    PowerNeeds(a, b);
    r := a == b;
  }

  /** The groups with a superblock copy, as the format has them. */
  ghost predicate HasSuper(bg: nat, sparse: bool) {
    !sparse || bg <= 1 || PowerOf(bg, 3) || PowerOf(bg, 5) || PowerOf(bg, 7)
  }

  /** ext4_bg_has_super_block. */
  method BgHasSuperBlock(bg: nat, sparse: bool) returns (r: bool)
    ensures r <==> HasSuper(bg, sparse)
  {
    if !sparse {
      return true;
    }
    if bg == 0 || bg == 1 {
      return true;
    }
    var p3 := IsPowerOf(bg, 3);
    var p5 := IsPowerOf(bg, 5);
    var p7 := IsPowerOf(bg, 7);
    r := p3 || p5 || p7;
  }

  // ------------------------------------------------------------- the geometry

  /** What the image is made from: first_data_block, len_blocks, blocks_per_group,
      inode table blocks, group descriptor blocks, reserved descriptor blocks. */
  datatype Info = Info(first: nat, len: nat, per: nat, table: nat, desc: nat, reserve: nat, sparse: bool)

  /** The geometry that ext4_create_fs_aux_info settles on. */
  datatype Layout = Layout(groups: nat, len: nat)

  ghost function Extra(i: Info, bg: nat): nat {
    if HasSuper(bg, i.sparse) then 1 + i.desc + i.reserve else 0
  }

  /** The header of a group: superblock and descriptors if any, two bitmaps, the
      inode table. */
  ghost function Header(i: Info, bg: nat): nat {
    Extra(i, bg) + 2 + i.table
  }

  /** There is something to lay out, and a whole group has room for any header. */
  ghost predicate InfoOk(i: Info) {
    && i.per > 0 && i.first <= 1 && i.len > i.first
    && forall bg :: i.first + Header(i, bg) <= i.per
  }

  /** DIV_ROUND_UP(len - first, per). */
  function Groups(i: Info): nat
    requires i.per > 0 && i.len >= i.first
  {
    (i.len - i.first + i.per - 1) / i.per
  }

  /** The short-last-group rule of ext4_create_fs_aux_info. */
  method CreateAuxInfo(i: Info) returns (l: Layout)
    requires InfoOk(i)
    ensures l == Kept(i)
    ensures i.first == 0 ==> Roomy(i, l)
  {
    LastGroup(i);
    var groups := Groups(i);
    l := Layout(groups, i.len);
    var lastGroupSize := i.len % i.per;
    var lastHeaderSize := 2 + i.table;
    var super := BgHasSuperBlock(groups - 1, i.sparse);
    if super {
      lastHeaderSize := lastHeaderSize + 1 + i.desc + i.reserve;
    }
    RoomyExactly(i);
    if lastGroupSize > 0 && lastGroupSize < lastHeaderSize {
      l := Layout(groups - 1, i.len - lastGroupSize);
    }
  }

  lemma RemainderFits(len: nat, per: nat)
    requires per > 0
    ensures len % per <= len
  {
    assert len == len / per * per + len % per;
    assert len / per * per >= 0;
  }

  ghost predicate Dropped(i: Info)
    requires InfoOk(i)
  {
    Groups(i) > 0 && 0 < i.len % i.per < Header(i, Groups(i) - 1)
  }

  /** The geometry that the rule settles on. */
  ghost function Kept(i: Info): Layout
    requires InfoOk(i)
  {
    if Dropped(i) then
      RemainderFits(i.len, i.per);
      Layout(Groups(i) - 1, i.len - i.len % i.per)
    else Layout(Groups(i), i.len)
  }

  /** A group has room for its header before the end of the image. */
  ghost predicate Room(i: Info, len: nat, bg: nat) {
    i.first + bg * i.per + Header(i, bg) <= len
  }

  /** Every kept group has. */
  ghost predicate Roomy(i: Info, l: Layout) {
    forall bg {:trigger Room(i, l.len, bg)} :: 0 <= bg < l.groups ==> Room(i, l.len, bg)
  }

  /** The size of the last group, counted from first_data_block. */
  function LastSize(i: Info): nat
    requires i.per > 0 && i.len > i.first
  {
    if (i.len - i.first) % i.per == 0 then i.per else (i.len - i.first) % i.per
  }

  lemma LastGroup(i: Info)
    requires i.per > 0 && i.len > i.first
    ensures Groups(i) >= 1 && i.len == i.first + (Groups(i) - 1) * i.per + LastSize(i)
  {
    var n, per := i.len - i.first, i.per;
    var q, r := n / per, n % per;
    assert n == q * per + r;
    if r == 0 {
      DivModUnique(q, per - 1, per);
      assert q * per == (q - 1) * per + per;
    } else {
      assert n + per - 1 == (q + 1) * per + (r - 1);
      DivModUnique(q + 1, r - 1, per);
    }
  }

  /** The rule's measure of the last group against its size. */
  lemma Measure(i: Info)
    requires i.per > 1 && i.len > i.first && i.first <= 1
    ensures var s := i.len % i.per;
            LastSize(i) == if s > i.first then s - i.first else if s == i.first then i.per else i.per - 1
  {
    if i.first == 1 {
      var q, s := i.len / i.per, i.len % i.per;
      assert i.len == q * i.per + s;
      if s > 0 {
        DivModUnique(q, s - 1, i.per);
      } else {
        assert i.len - 1 == (q - 1) * i.per + (i.per - 1);
        DivModUnique(q - 1, i.per - 1, i.per);
      }
    }
  }

  lemma WholeGroup(i: Info, bg: nat, end: nat, len: nat)
    requires InfoOk(i) && bg < end && end * i.per <= len
    ensures Room(i, len, bg)
  {
    MulStep(bg, end, i.per);
    assert i.first + Header(i, bg) <= i.per;
  }

  lemma WholeEnd(whole: nat, first: nat, len: nat, s: nat, per: nat, size: nat)
    requires first <= 1 && s > 0 && len == first + whole + size
    requires size == if s > first then s - first else if s == first then per else per - 1
    requires s <= len && s <= per
    ensures whole <= len - s
  {
  }

  lemma DroppedFits(i: Info)
    requires InfoOk(i) && Dropped(i)
    ensures Roomy(i, Kept(i))
  {
    LastGroup(i);
    assert i.first + Header(i, 0) <= i.per;
    Measure(i);
    var last, end := Groups(i) - 1, i.len - i.len % i.per;
    WholeEnd(last * i.per, i.first, i.len, i.len % i.per, i.per, LastSize(i));
    forall bg | 0 <= bg < last ensures Room(i, end, bg) {
      WholeGroup(i, bg, last, end);
    }
  }

  lemma UndroppedFits(i: Info)
    requires InfoOk(i) && !Dropped(i)
    ensures Roomy(i, Kept(i)) <==> Header(i, Groups(i) - 1) <= LastSize(i)
  {
    LastGroup(i);
    var last := Groups(i) - 1;
    assert Room(i, i.len, last) <==> Header(i, last) <= LastSize(i);
    forall bg | 0 <= bg < last ensures Room(i, i.len, bg) {
      WholeGroup(i, bg, last, i.len);
    }
  }

  /** With blocks above 1K (first data block 0) every kept group has room for its
      header. With 1K blocks the rule measures the last group one block too large, and
      keeps one without room exactly when that measure is the header's own size. */
  lemma RoomyExactly(i: Info)
    requires InfoOk(i)
    ensures Groups(i) >= 1
    ensures Roomy(i, Kept(i)) <==> i.first == 0 || i.len % i.per != Header(i, Groups(i) - 1)
  {
    LastGroup(i);
    var last := Groups(i) - 1;
    assert i.first + Header(i, last) <= i.per;
    Measure(i);
    if Dropped(i) {
      DroppedFits(i);
    } else {
      UndroppedFits(i);
    }
  }

  /** A 1K image whose last group is kept without room for its header. */
  lemma ShortGroupKept()
    ensures var i := Info(1, 8192 + 7, 8192, 3, 1, 0, true);
            InfoOk(i) && Groups(i) == 2 && !Roomy(i, Kept(i))
  {
    var i := Info(1, 8192 + 7, 8192, 3, 1, 0, true);
    assert HasSuper(1, true) && Header(i, 1) == 7;
    RoomyExactly(i);
  }

  /** The rule is meant to drop a last group that is too short for its header. It does
      exactly with a first data block 0, or a remainder that is neither the header's
      size, which is kept, nor 1, which drops a full group. */
  lemma DroppedExactly(i: Info)
    requires InfoOk(i)
    ensures Groups(i) >= 1
    ensures (Dropped(i) <==> LastSize(i) < Header(i, Groups(i) - 1)) <==>
            i.first == 0 || (i.len % i.per != 1 && i.len % i.per != Header(i, Groups(i) - 1))
  {
    LastGroup(i);
    assert i.first + Header(i, Groups(i) - 1) <= i.per;
    Measure(i);
  }

  /** A 1K image whose full last group is dropped. */
  lemma FullGroupDropped()
    ensures var i := Info(1, 16385, 8192, 3, 1, 0, true);
            InfoOk(i) && Groups(i) == 2 && LastSize(i) == 8192 && Kept(i) == Layout(1, 16384)
  {
    var i := Info(1, 16385, 8192, 3, 1, 0, true);
    assert HasSuper(1, true) && Header(i, 1) == 7;
  }

  // ------------------------------------------------ two views of a group header

  /** Where the allocator puts things: init_bg and allocate_bg_inode_table. */
  ghost function BitmapsByAllocator(i: Info, bg: nat): nat {
    i.first + bg * i.per + (if HasSuper(bg, i.sparse) then 1 + i.desc + i.reserve else 0)
  }

  ghost function TableByAllocator(i: Info, bg: nat): nat {
    i.first + bg * i.per + 2 + (if HasSuper(bg, i.sparse) then i.desc + i.reserve + 1 else 0)
  }

  /** The group descriptor that ext4_fill_in_sb writes. */
  datatype Descriptor = Descriptor(blockBitmap: nat, inodeBitmap: nat, inodeTable: nat)

  method FillInDescriptors(i: Info, groups: nat) returns (ds: seq<Descriptor>)
    ensures |ds| == groups
    ensures forall bg :: 0 <= bg < groups ==>
              && ds[bg].blockBitmap == BitmapsByAllocator(i, bg)
              && ds[bg].inodeBitmap == BitmapsByAllocator(i, bg) + 1
              && ds[bg].inodeTable == TableByAllocator(i, bg)
              && ds[bg].inodeTable + i.table == i.first + bg * i.per + Header(i, bg)
  {
    ds := [];
    for bg := 0 to groups
      invariant |ds| == bg
      invariant forall k :: 0 <= k < bg ==>
                  && ds[k].blockBitmap == BitmapsByAllocator(i, k)
                  && ds[k].inodeBitmap == BitmapsByAllocator(i, k) + 1
                  && ds[k].inodeTable == TableByAllocator(i, k)
                  && ds[k].inodeTable + i.table == i.first + k * i.per + Header(i, k)
    {
      var start := i.first + bg * i.per;
      var headerSize := 0;
      var super := BgHasSuperBlock(bg, i.sparse);
      if super {
        headerSize := 1 + i.desc + i.reserve;
      }
      ds := ds + [Descriptor(start + headerSize, start + headerSize + 1, start + headerSize + 2)];
    }
  }
}
