/** do_inode_allocate_extents: one block more than the file needs is allocated; it
    is given back, or becomes the block of the extent records
    (android/ext4_utils/src/extent.c, allocate.c). */
module InodeExtents {
  import opened Bytes
  import opened BestFit
  import opened Allocator
  import opened Extents
  import AllocationRuns

  /** The regions of the file itself, when the first region can spare a block:
      the inline form gives back its last block, the other form keeps its first
      for the extent records. */
  ghost function FileRegions(rs: seq<Region>): seq<Region>
    requires rs != [] && rs[0].len > 0
  {
    [if |rs| <= 3 then rs[0].(len := rs[0].len - 1)
     else rs[0].(block := rs[0].block + 1, len := rs[0].len - 1)] + rs[1..]
  }

  /** The regions that the allocation is left with. A first region of one block is
      given back whole, or kept as the only one of the list. */
  ghost function FileList(rs: seq<Region>): seq<Region>
    requires rs != [] && rs[0].len > 0
  {
    if rs[0].len >= 2 then FileRegions(rs) else if |rs| <= 3 then [] else [rs[0]]
  }

  /** The extent records that fit the inode, or a block of bs bytes behind its header. */
  function Capacity(regions: nat, bs: nat): nat
    requires bs >= 12
  {
    if regions <= 3 then 3 else (bs - 12) / 12
  }

  /** struct block_allocation: the regions from list.first on, where list.last and
      list.iter point, and the regions set aside. */
  class BlockAllocation {
    var list: seq<Region>
    var last: int
    var iter: nat
    var oob: seq<Region>

    /** allocate_blocks. It leaves list.last at the first region, not at the last. */
    constructor (rs: seq<Region>)
      requires rs != []
      ensures list == rs && last == 0 && iter == 0 && oob == []
    {
      list, last, iter, oob := rs, 0, 0, [];
    }

    /** reduce_allocation by one block, from where list.last points. */
    method ReduceByOne(owner: BlockAllocator)
      requires owner.Valid() && list != [] && last == 0
      requires list[0].bg < |owner.bgs| && list[0].len > 0
      requires var bg := owner.bgs[list[0].bg]; bg.header < bg.firstFree <= bg.limit
      modifies this, owner.bgs, owner.Bitmaps()
      ensures owner.Valid()
      ensures var g := old(list)[0].bg;
              owner.View() == old(owner.View())[g := Restore(old(owner.View())[g], 1)]
      ensures list == if old(list)[0].len > 1
                      then old(list)[0 := old(list)[0].(len := old(list)[0].len - 1)]
                      else []
      ensures iter == 0 && oob == old(oob)
    {
      iter := 0;
      var r := list[last];
      if r.len > 1 {
        owner.GiveBack(r.bg, 1);
        list := list[last := r.(len := r.len - 1)];
      } else {
        owner.GiveBack(r.bg, r.len);
        list, last := [], -1;
      }
    }

    /** do_split_allocation for one block: cut the list after the iterator's first
        block. When the cut falls between two regions the iterator stays. */
    method SplitOne() returns (from: nat)
      requires iter == 0 && |list| > 1 && list[0].len > 0 && list[1].len > 0
      modifies this`list, this`iter
      ensures old(list)[0].len > 1 ==>
                && from == 0 && iter == 1
                && list == [old(list)[0].(len := 1)]
                           + [old(list)[0].(block := old(list)[0].block + 1, len := old(list)[0].len - 1)]
                           + old(list)[1..]
      ensures old(list)[0].len == 1 ==> from == 1 && iter == 0 && list == old(list)
    {
      var k, left := iter, 1;
      while k < |list| && left >= list[k].len
        invariant 0 <= k <= 1 && left == 1 - k
        invariant k == 1 ==> list[0].len == 1
        decreases |list| - k
      {
        left := left - list[k].len;
        k := k + 1;
      }
      if left > 0 {
        from := iter;
        var r := list[k];
        list := list[..k] + [r.(len := left)]
                + [r.(block := r.block + left, len := r.len - left)] + list[k + 1..];
        iter := k + 1;
      } else {
        from := k;
      }
    }

    /** reserve_oob_blocks for one block: everything from the cut up to the iterator
        moves to the other list. */
    method ReserveOobBlock()
      requires iter == 0 && |list| > 1 && list[0].len > 0 && list[1].len > 0
      modifies this
      ensures iter == 0
      ensures old(list)[0].len > 1 ==>
                && oob == old(oob) + [old(list)[0].(len := 1)]
                && list == [old(list)[0].(block := old(list)[0].block + 1, len := old(list)[0].len - 1)]
                           + old(list)[1..]
      ensures old(list)[0].len == 1 ==> list == old(list)[..1] && oob == old(oob) + old(list)[1..]
    {
      ghost var rs, oob0 := list, oob;
      var from := SplitOne();
      MoveFrom(from);
      if rs[0].len == 1 {
        assert rs[..1] + rs[|rs|..] == rs[..1];
        assert rs[1..|rs|] == rs[1..];
      }
    }

    /** Moves the regions from the cut on to the other list, up to the iterator if that
        comes after the cut and all of them otherwise. */
    method MoveFrom(from: nat)
      requires iter <= |list| && from <= |list| && from != iter
      modifies this`list, this`oob, this`iter
      ensures var stop := if from < old(iter) then old(iter) else |old(list)|;
              && list == old(list)[..from] + old(list)[stop..] && oob == old(oob) + old(list)[from..stop]
              && iter == if from < old(iter) then from else old(iter)
    {
      ghost var cut, oob0, iter0 := list, oob, iter;
      ghost var moved := 0;
      assert cut[from..from] == [] && oob0 + [] == oob0;
      while from < |list| && from != iter
        invariant Moved(cut, oob0, iter0, from, moved, list, oob, iter)
        decreases |list|
      {
        MoveNext(cut, oob0, iter0, from, moved, list, oob, iter);
        var r := list[from];
        list := list[..from] + list[from + 1..];
        oob := oob + [r];
        if from < iter {
          iter := iter - 1;
        }
        moved := moved + 1;
      }
      MovedAll(cut, oob0, iter0, from, moved, list, oob, iter);
    }
  }

  /** So many regions have left the list from the cut on; an iterator after the cut
      has moved up with them. */
  ghost predicate Moved(cut: seq<Region>, oob0: seq<Region>, iter0: nat, from: nat, moved: nat,
                        list: seq<Region>, oob: seq<Region>, iter: nat)
  {
    && from + moved <= (if from < iter0 then iter0 else |cut|) && iter0 <= |cut|
    && list == cut[..from] + cut[from + moved..]
    && oob == oob0 + cut[from..from + moved]
    && iter == (if from < iter0 then iter0 - moved else iter0)
  }

  lemma MoveNext(cut: seq<Region>, oob0: seq<Region>, iter0: nat, from: nat, moved: nat,
                 list: seq<Region>, oob: seq<Region>, iter: nat)
    requires Moved(cut, oob0, iter0, from, moved, list, oob, iter) && from < |list| && from != iter
    ensures Moved(cut, oob0, iter0, from, moved + 1, list[..from] + list[from + 1..], oob + [list[from]],
                  if from < iter then iter - 1 else iter)
  {
    MoveOne(cut, from, moved);
    Regroup(oob0, cut[from..from + moved], [list[from]]);
  }

  lemma MovedAll(cut: seq<Region>, oob0: seq<Region>, iter0: nat, from: nat, moved: nat,
                 list: seq<Region>, oob: seq<Region>, iter: nat)
    requires Moved(cut, oob0, iter0, from, moved, list, oob, iter) && from != iter0
    requires from >= |list| || from == iter
    ensures var stop := if from < iter0 then iter0 else |cut|;
            && list == cut[..from] + cut[stop..] && oob == oob0 + cut[from..stop]
            && iter == if from < iter0 then from else iter0
  {
  }

  /** The element after the cut leaves the list and joins those that left before. */
  lemma MoveOne<T>(all: seq<T>, from: nat, moved: nat)
    requires from + moved < |all|
    ensures var rest := all[..from] + all[from + moved..];
            && rest[from] == all[from + moved]
            && rest[..from] + rest[from + 1..] == all[..from] + all[from + moved + 1..]
            && all[from..from + moved] + [rest[from]] == all[from..from + moved + 1]
  {
  }

  /** Some group can spare two blocks in a row. */
  ghost predicate Roomy(gs: seq<Group>) {
    exists g :: 0 <= g < |gs| && gs[g].free >= 2
  }

  /** The first region of an allocation of two blocks or more is longer than one
      block exactly when some group is roomy. */
  lemma FirstRegionLong(gs: seq<Group>, rs: seq<Region>, n: nat)
    requires Greedy(gs, rs, n) && n >= 2
    ensures rs != [] && rs[0].len > 0
    ensures rs[0].len >= 2 <==> Roomy(gs)
  {
    assert NextBest(gs, rs[0], n);
    if rs[0].len >= 2 {
      assert gs[rs[0].bg].free >= 2;
    }
  }

  lemma FileRegionsLen(rs: seq<Region>)
    requires rs != [] && rs[0].len > 0
    ensures TotalLen(FileRegions(rs)) == TotalLen(rs) - 1
    ensures |FileRegions(rs)| == |rs|
  {
    assert FileRegions(rs)[1..] == rs[1..];
  }

  /** The extent loop of do_inode_allocate_extents, then rewind_alloc. Only so many
      records lie in the block; the others are written to the memory behind it. */
  method WriteExtents(alloc: BlockAllocation, capacity: nat) returns (es: seq<Extent>, spilled: bool)
    requires alloc.iter == 0
    modifies alloc`iter
    ensures es == Stored(alloc.list, capacity) && (spilled <==> |alloc.list| > capacity)
    ensures alloc.iter == 0
  {
    es, spilled := [], false;
    var fileBlock := 0;
    while alloc.iter < |alloc.list|
      invariant alloc.iter <= |alloc.list|
      invariant es == Stored(alloc.list[..alloc.iter], capacity)
      invariant spilled <==> alloc.iter > capacity
      invariant fileBlock == TotalLen(alloc.list[..alloc.iter])
      decreases |alloc.list| - alloc.iter
    {
      var r := alloc.list[alloc.iter];
      PrefixStep(alloc.list, alloc.iter);
      PrefixExtents(alloc.list, alloc.iter);
      if |es| < capacity {
        es := es + [Extent(fileBlock, r.len, r.block)];
      } else {
        spilled := true;
      }
      fileBlock := fileBlock + r.len;
      alloc.iter := alloc.iter + 1;
    }
    assert alloc.list[..|alloc.list|] == alloc.list;
    alloc.iter := 0;
  }

  /** The records of a list of regions that lie in the block. */
  ghost function Stored(list: seq<Region>, capacity: nat): seq<Extent> {
    var es := ExtentsOf(list, 0);
    if |es| <= capacity then es else es[..capacity]
  }

  /** What the groups hold once the file has its extents. */
  ghost function Settled(gs: seq<Group>, rs: seq<Region>, n: nat): seq<Group>
    requires Greedy(gs, rs, n) && rs != []
  {
    LessOne(After(gs, rs, n), rs)
  }

  /** For up to three regions a block of the first goes back. */
  ghost function LessOne(gs: seq<Group>, rs: seq<Region>): seq<Group>
    requires rs != []
  {
    var g := rs[0].bg;
    if |rs| <= 3 && g < |gs| && gs[g].first > 0 then gs[g := Restore(gs[g], 1)] else gs
  }

  lemma {:induction false} LenAtLeast(rs: seq<Region>)
    requires forall i :: 0 <= i < |rs| ==> rs[i].len > 0
    ensures TotalLen(rs) >= |rs|
  {
    if rs != [] {
      LenAtLeast(rs[1..]);
    }
  }

  /** The block too many is taken off a fresh allocation: given back, or set aside
      for the extent records. */
  method SetAside(owner: BlockAllocator, rs: seq<Region>)
    returns (alloc: BlockAllocation, extentBlock: nat)
    requires owner.Valid() && rs != []
    requires forall i :: 0 <= i < |rs| ==> rs[i].len > 0
    requires rs[0].bg < |owner.bgs|
    requires var bg := owner.bgs[rs[0].bg]; bg.header < bg.firstFree <= bg.limit
    modifies owner.bgs, owner.Bitmaps()
    ensures owner.Valid() && fresh(alloc) && alloc.iter == 0 && alloc.list == FileList(rs)
    ensures extentBlock == ExtentBlock(rs)
    ensures owner.View() == LessOne(old(owner.View()), rs)
  {
    extentBlock := 0;
    alloc := new BlockAllocation(rs);
    if |rs| <= 3 {
      alloc.ReduceByOne(owner);
    } else {
      alloc.ReserveOobBlock();
      extentBlock := alloc.oob[0].block;
    }
    if rs[0].len >= 2 {
      assert alloc.list == FileRegions(rs);
    } else if |rs| > 3 {
      assert alloc.list == [rs[0]];
    }
  }

  /** The block set aside for extent records, 0 if there is none. */
  ghost function ExtentBlock(rs: seq<Region>): nat {
    if |rs| <= 3 then 0 else if rs[0].len >= 2 then rs[0].block else rs[1].block
  }

  /** The regions of a fresh allocation, and the group of the first. */
  lemma FirstGroup(gs: seq<Group>, rs: seq<Region>, n: nat)
    requires Greedy(gs, rs, n) && n > 0
    requires forall g :: 0 <= g < |gs| ==> AllocationRuns.GroupWf(gs[g])
    ensures rs != [] && rs[0].bg < |gs| && |After(gs, rs, n)| == |gs|
    ensures var g := After(gs, rs, n)[rs[0].bg]; g.header < g.first <= g.limit
    ensures forall i :: 0 <= i < |rs| ==> rs[i].len > 0 && rs[i].block > 0
    ensures TotalLen(rs) == n
  {
    GreedyTotal(gs, rs, n);
    GreedyShape(gs, rs, n);
    AfterShape(gs, rs, n);
    forall i | 0 <= i < |rs| ensures rs[i].block > 0 {
      assert AllocationRuns.GroupWf(gs[rs[i].bg]);
    }
    assert AllocationRuns.GroupWf(gs[rs[0].bg]);
  }

  // ------------------------------------------------------- the whole allocation

  /** What do_inode_allocate_extents leaves of a file of n blocks: the allocation it
      returns, the number of entries it records, the block of the extent records,
      the records in it, and whether others went past its end. */
  datatype Laid = Laid(file: seq<Region>, entries: nat, extentBlock: nat, es: seq<Extent>, spilled: bool)

  /** The file is laid out from the allocation rs of n + 1 blocks. */
  ghost predicate FileLaid(gs: seq<Group>, gs1: seq<Group>, n: nat, bs: nat, rs: seq<Region>, l: Laid)
    requires bs >= 12
  {
    && Greedy(gs, rs, n + 1) && rs != [] && rs[0].len > 0
    && gs1 == Settled(gs, rs, n + 1)
    && l == LaidOut(rs, bs)
  }

  ghost function LaidOut(rs: seq<Region>, bs: nat): Laid
    requires bs >= 12 && rs != [] && rs[0].len > 0
  {
    var file, capacity := FileList(rs), Capacity(|rs|, bs);
    Laid(file, |rs|, ExtentBlock(rs), Stored(file, capacity), |file| > capacity)
  }

  /** A refused file keeps all blocks that were taken for it. */
  ghost predicate Refused(gs: seq<Group>, gs1: seq<Group>, n: nat, rs: seq<Region>) {
    if n + 1 <= TotalFree(gs) then Greedy(gs, rs, n + 1) && gs1 == After(gs, rs, n + 1)
    else TotalFree(gs1) == 0 && Exhausted(gs, gs1, n + 1, rs)
  }

  /** Of the n blocks wanted, the groups gave those of rs. */
  ghost predicate Exhausted(gs: seq<Group>, gs1: seq<Group>, n: nat, rs: seq<Region>) {
    exists left: nat :: left > 0 && Leads(gs, rs, n, gs1, left)
  }

  /** What do_inode_allocate_extents does for a file of n blocks: it succeeds exactly
      when the file and one block more can be taken from fewer groups than a block has
      bytes. */
  ghost predicate FileResult(gs: seq<Group>, gs1: seq<Group>, n: nat, bs: nat, rs: seq<Region>, ok: bool,
                             l: Laid)
    requires bs >= 12
  {
    && (ok <==> FitsIn(gs, n + 1, bs - 1))
    && (ok ==> FileLaid(gs, gs1, n, bs, rs, l))
    && (!ok ==> Refused(gs, gs1, n, rs))
  }

  method AllocateExtents(owner: BlockAllocator, n: nat, bs: nat)
    returns (ok: bool, l: Laid, ghost rs: seq<Region>)
    requires owner.Valid() && n >= 1 && bs >= 12
    modifies owner.bgs, owner.Bitmaps()
    ensures owner.Valid()
    ensures FileResult(old(owner.View()), owner.View(), n, bs, rs, ok, l)
  {
    GroupsWf(owner);
    var regions;
    ok, regions, rs := Regions(owner, n + 1);
    if ok {
      ok, l := LayOut(owner, regions, n, bs, old(owner.View()));
    } else {
      l := Laid([], 0, 0, [], false);
      NotEnough(old(owner.View()), owner.View(), n, bs, rs, l);
    }
  }

  /** allocate_blocks, and what a failed attempt took. */
  method Regions(owner: BlockAllocator, want: nat) returns (ok: bool, regions: seq<Region>, ghost rs: seq<Region>)
    requires owner.Valid() && want > 0
    modifies owner.bgs, owner.Bitmaps()
    ensures owner.Valid() && (ok <==> want <= TotalFree(old(owner.View())))
    ensures ok ==> rs == regions && Greedy(old(owner.View()), rs, want) &&
                   owner.View() == After(old(owner.View()), rs, want)
    ensures !ok ==> TotalFree(owner.View()) == 0 && Exhausted(old(owner.View()), owner.View(), want, rs)
  {
    ghost var part, left;
    ok, regions, part, left := owner.BestFit(want);
    rs := if ok then regions else part;
  }

  /** Too few blocks are free, and all of them are taken. */
  lemma NotEnough(gs: seq<Group>, gs1: seq<Group>, n: nat, bs: nat, part: seq<Region>, l: Laid)
    requires bs >= 12 && n + 1 > TotalFree(gs) && TotalFree(gs1) == 0 && Exhausted(gs, gs1, n + 1, part)
    ensures FileResult(gs, gs1, n, bs, part, false, l)
  {
    FitsTotal(gs, n + 1, bs - 1);
  }

  /** The regions are too many for the test. */
  lemma TooMany(gs: seq<Group>, n: nat, bs: nat, rs: seq<Region>, l: Laid)
    requires bs >= 12 && Greedy(gs, rs, n + 1) && !FitsIn(gs, n + 1, bs - 1)
    ensures FileResult(gs, After(gs, rs, n + 1), n, bs, rs, false, l)
  {
    GreedyTotal(gs, rs, n + 1);
  }

  lemma GroupsWf(owner: BlockAllocator)
    requires owner.Valid()
    ensures forall g :: 0 <= g < |owner.View()| ==> AllocationRuns.GroupWf(owner.View()[g])
  {
  }

  /** From the allocation on. The test of the number of regions sees
      bs - sizeof(header) / sizeof(extent) records. */
  method LayOut(owner: BlockAllocator, rs: seq<Region>, n: nat, bs: nat, ghost gs: seq<Group>)
    returns (ok: bool, l: Laid)
    requires owner.Valid() && n >= 1 && bs >= 12
    requires Greedy(gs, rs, n + 1) && owner.View() == After(gs, rs, n + 1)
    requires forall g :: 0 <= g < |gs| ==> AllocationRuns.GroupWf(gs[g])
    modifies owner.bgs, owner.Bitmaps()
    ensures owner.Valid() && FileResult(gs, owner.View(), n, bs, rs, ok, l)
  {
    FirstGroup(gs, rs, n + 1);
    RegionCount(gs, rs, n + 1, bs - 1);
    var alloc, extentBlock := SetAside(owner, rs);
    if extentBlock != 0 && bs - 12 / 12 < |rs| {
      ok, l := false, Laid([], 0, 0, [], false);
      TooMany(gs, n, bs, rs, l);
      return;
    }
    ok := true;
    l := Record(alloc, rs, bs, extentBlock);
    IsLaid(gs, owner.View(), n, bs, rs, l);
  }

  /** The records, in the inode or in the block set aside for them. */
  method Record(alloc: BlockAllocation, rs: seq<Region>, bs: nat, extentBlock: nat) returns (l: Laid)
    requires bs >= 12 && rs != [] && forall i :: 0 <= i < |rs| ==> rs[i].len > 0 && rs[i].block > 0
    requires alloc.iter == 0 && alloc.list == FileList(rs) && extentBlock == ExtentBlock(rs)
    modifies alloc`iter
    ensures l == LaidOut(rs, bs)
  {
    var capacity := if extentBlock != 0 then (bs - 12) / 12 else 3;
    var es, spilled := WriteExtents(alloc, capacity);
    l := Laid(alloc.list, |rs|, extentBlock, es, spilled);
  }

  lemma IsLaid(gs: seq<Group>, gs1: seq<Group>, n: nat, bs: nat, rs: seq<Region>, l: Laid)
    requires n >= 1 && bs >= 12 && Greedy(gs, rs, n + 1) && rs != [] && rs[0].len > 0
    requires l == LaidOut(rs, bs) && FitsIn(gs, n + 1, bs - 1)
    requires gs1 == LessOne(After(gs, rs, n + 1), rs)
    ensures FileResult(gs, gs1, n, bs, rs, true, l)
  {
  }

  /** The number of blocks that records give a place. */
  function BlocksIn(es: seq<Extent>): nat {
    if es == [] then 0 else es[0].len + BlocksIn(es[1..])
  }

  lemma {:induction false} BlocksStored(rs: seq<Region>, from: nat, k: nat)
    requires k <= |rs|
    ensures BlocksIn(ExtentsOf(rs, from)[..k]) == TotalLen(rs[..k])
    decreases k
  {
    if k > 0 {
      var es := ExtentsOf(rs, from);
      BlocksStored(rs[1..], from + rs[0].len, k - 1);
      assert es[..k][1..] == ExtentsOf(rs[1..], from + rs[0].len)[..k - 1];
      assert rs[..k][1..] == rs[1..][..k - 1];
    } else {
      assert rs[..0] == [];
    }
  }

  lemma {:induction false} ShorterIsLess(rs: seq<Region>, k: nat)
    requires k < |rs| && forall i :: 0 <= i < |rs| ==> rs[i].len > 0
    ensures TotalLen(rs[..k]) < TotalLen(rs)
    decreases k
  {
    LenAtLeast(rs);
    if k == 0 {
      assert rs[..0] == [];
    } else {
      ShorterIsLess(rs[1..], k - 1);
      assert rs[..k][1..] == rs[1..][..k - 1];
    }
  }

  /** The records on disk give all n blocks a place exactly when some group can spare
      two blocks in a row and the regions fit: three in the inode, or as many as the
      block has room for. */
  lemma FileCovered(gs: seq<Group>, gs1: seq<Group>, n: nat, bs: nat, rs: seq<Region>, l: Laid)
    requires n >= 1 && bs >= 12 && FileLaid(gs, gs1, n, bs, rs, l)
    ensures BlocksIn(l.es) == n <==> Roomy(gs) && FitsIn(gs, n + 1, MostRegions(bs))
    ensures Roomy(gs) ==> (l.spilled <==> !FitsIn(gs, n + 1, MostRegions(bs)))
  {
    RegionCount(gs, rs, n + 1, MostRegions(bs));
    FirstRegionLong(gs, rs, n + 1);
    GreedyTotal(gs, rs, n + 1);
    GreedyShape(gs, rs, n + 1);
    StoredBlocks(rs, n, bs);
  }

  /** The same on the allocation alone. */
  lemma {:induction false} StoredBlocks(rs: seq<Region>, n: nat, bs: nat)
    requires n >= 1 && bs >= 12 && rs != [] && TotalLen(rs) == n + 1
    requires forall i :: 0 <= i < |rs| ==> rs[i].len > 0
    ensures BlocksIn(LaidOut(rs, bs).es) == n <==> rs[0].len >= 2 && |rs| <= MostRegions(bs)
    ensures rs[0].len >= 2 ==> (LaidOut(rs, bs).spilled <==> |rs| > MostRegions(bs))
  {
    var l, capacity := LaidOut(rs, bs), Capacity(|rs|, bs);
    assert |rs| <= MostRegions(bs) <==> |rs| <= capacity;
    FileRegionsLen(rs);
    var k := if |l.file| <= capacity then |l.file| else capacity;
    BlocksStored(l.file, 0, k);
    assert l.es == ExtentsOf(l.file, 0)[..k] && l.file[..|l.file|] == l.file;
    if rs[0].len >= 2 {
      if k < |l.file| {
        ShorterIsLess(l.file, k);
      }
    } else {
      ShortFile(rs, n);
      PrefixLen(l.file, k);
    }
  }

  /** The most regions whose records all find room. */
  function MostRegions(bs: nat): nat
    requires bs >= 12
  {
    if (bs - 12) / 12 < 3 then 3 else (bs - 12) / 12
  }

  lemma {:induction false} ShortFile(rs: seq<Region>, n: nat)
    requires n >= 1 && rs != [] && rs[0].len == 1 && TotalLen(rs) == n + 1
    requires forall i :: 0 <= i < |rs| ==> rs[i].len > 0
    ensures TotalLen(FileList(rs)) < n
  {
    LenAtLeast(rs);
    if |rs| > 3 {
      assert [rs[0]][1..] == [];
    }
  }

  // ------------------------------------------------------------- three inputs

  /** On four groups with one block each a file of three blocks is not covered, although
      the allocation succeeds. */
  lemma BlocksMissing(rs: seq<Region>, gs1: seq<Group>, l: Laid)
    requires FileLaid(Alike(4, 10, 1), gs1, 3, 1024, rs, l)
    ensures FitsIn(Alike(4, 10, 1), 4, 1023) && BlocksIn(l.es) != 3
  {
    AlikeFits(4, 10, 1, 4, 4);
    RegionCount(Alike(4, 10, 1), rs, 4, 4);
    RegionCount(Alike(4, 10, 1), rs, 4, 1023);
    FileCovered(Alike(4, 10, 1), gs1, 3, 1024, rs, l);
  }

  /** With blocks of 1 KiB and 8000 of them free in each group, a file of 84 * 8000
      blocks needs 85 records. The block has room for 84, and the allocation succeeds:
      a record goes past its end. */
  lemma RecordSpilled(rs: seq<Region>, gs1: seq<Group>, l: Laid)
    requires FileLaid(Alike(100, 8192, 8000), gs1, 84 * 8000, 1024, rs, l)
    ensures FitsIn(Alike(100, 8192, 8000), 84 * 8000 + 1, 1023)
    ensures l.spilled && BlocksIn(l.es) != 84 * 8000
  {
    var gs := Alike(100, 8192, 8000);
    AlikeFits(100, 8192, 8000, 84 * 8000 + 1, 85);
    AlikeFits(100, 8192, 8000, 84 * 8000 + 1, 84);
    RegionCount(gs, rs, 84 * 8000 + 1, 85);
    RegionCount(gs, rs, 84 * 8000 + 1, 1023);
    assert gs[0].free >= 2;
    FileCovered(gs, gs1, 84 * 8000, 1024, rs, l);
  }

  /** A file of 1023 * 8000 blocks is refused although a group and more would stay free. */
  lemma FileRefused()
    ensures var gs := Alike(1025, 8192, 8000);
            !FitsIn(gs, 1023 * 8000 + 1, 1023) && FitsIn(gs, 1023 * 8000 + 1, 1024)
  {
    AlikeFits(1025, 8192, 8000, 1023 * 8000 + 1, 1023);
    AlikeFits(1025, 8192, 8000, 1023 * 8000 + 1, 1024);
  }

  /** Groups one after the other, each with its free range inside. */
  ghost predicate Spaced(gs: seq<Group>, per: nat) {
    forall i :: 0 <= i < |gs| ==>
      gs[i].base == gs[0].base + i * per && (gs[i].free > 0 ==> gs[i].first + gs[i].free <= per)
  }

  /** Every state of the allocator has its groups like that. */
  lemma RunsSpaced(st: AllocationRuns.State, per: nat, es: seq<AllocationRuns.Event>)
    requires AllocationRuns.Initial(st, per) && AllocationRuns.Run(st, es)
    ensures Spaced(AllocationRuns.End(st, es).gs, per)
  {
    AllocationRuns.RunKeeps(st, es);
    var gs := AllocationRuns.End(st, es).gs;
    forall i | 0 <= i < |gs|
      ensures gs[i].base == gs[0].base + i * per && (gs[i].free > 0 ==> gs[i].first + gs[i].free <= per)
    {
      assert AllocationRuns.GroupWf(gs[i]);
      assert st.gs[i].base == st.gs[0].base + i * per && st.gs[i].limit <= per;
    }
  }

  /** Blocks q of region i and q' of region j of one allocation are different blocks
      of the image. */
  lemma BlocksDiffer(gs: seq<Group>, rs: seq<Region>, n: nat, per: nat, i: nat, q: nat, j: nat, q': nat)
    requires Greedy(gs, rs, n) && Spaced(gs, per) && i < |rs| && j < |rs|
    requires q < rs[i].len && q' < rs[j].len && (i != j || q != q')
    ensures rs[i].block + q != rs[j].block + q'
  {
    GreedyShape(gs, rs, n);
    if i != j && rs[i].block + q == rs[j].block + q' {
      assert rs[i].bg != rs[j].bg by {
        if i < j {
          assert rs[i].bg != rs[j].bg;
        } else {
          assert rs[j].bg != rs[i].bg;
        }
      }
      AllocationRuns.GroupsApart(gs[0].base, per, rs[i].bg, rs[j].bg, rs[i].block + q);
    }
  }

  /** Where block k of the file lies: block q of the i-th region allocated, which is
      never the block set aside for the extent records. */
  lemma FileBlockAt(rs: seq<Region>, k: nat) returns (i: nat, q: nat)
    requires rs != [] && rs[0].len > 0 && k < TotalLen(FileRegions(rs))
    ensures i < |rs| && q < rs[i].len && Flat(FileRegions(rs))[k] == rs[i].block + q
    ensures k == TotalLen(FileRegions(rs)[..i]) + q - (if i == 0 && |rs| > 3 then 1 else 0)
    ensures |rs| > 3 ==> i != 0 || q != 0
  {
    var f := FileRegions(rs);
    FileRegionsLen(rs);
    i, q := FlatWhere(f, k);
    assert i > 0 ==> f[i] == rs[i];
    if i == 0 && |rs| > 3 {
      q := q + 1;
    }
  }

  /** No two blocks of a file that is covered are the same block of the image, and none
      of them is the block that holds the extent records. */
  lemma FileBlocksDistinct(gs: seq<Group>, gs1: seq<Group>, n: nat, bs: nat, rs: seq<Region>, l: Laid,
                           per: nat, a: nat, b: nat)
    requires n >= 1 && bs >= 12 && FileLaid(gs, gs1, n, bs, rs, l) && Roomy(gs) && Spaced(gs, per)
    requires a < n && b < n
    ensures |Flat(l.file)| == n
    ensures Flat(l.file)[a] == Flat(l.file)[b] <==> a == b
    ensures |rs| > 3 ==> Flat(l.file)[a] != l.extentBlock
  {
    GreedyTotal(gs, rs, n + 1);
    FirstRegionLong(gs, rs, n + 1);
    FileRegionsLen(rs);
    forall i: nat, q: nat, j: nat, q': nat |
      i < |rs| && j < |rs| && q < rs[i].len && q' < rs[j].len && (i != j || q != q')
      ensures BlockAt(rs, i, q) != BlockAt(rs, j, q')
    {
      BlocksDiffer(gs, rs, n + 1, per, i, q, j, q');
    }
    DistinctInFile(rs, a, b);
  }

  ghost function BlockAt(rs: seq<Region>, i: nat, q: nat): nat
    requires i < |rs|
  {
    rs[i].block + q
  }

  ghost predicate Distinct(rs: seq<Region>) {
    forall i: nat, q: nat, j: nat, q': nat ::
      i < |rs| && j < |rs| && q < rs[i].len && q' < rs[j].len && (i != j || q != q') ==>
        BlockAt(rs, i, q) != BlockAt(rs, j, q')
  }

  lemma DistinctInFile(rs: seq<Region>, a: nat, b: nat)
    requires rs != [] && rs[0].len > 0 && Distinct(rs)
    requires a < TotalLen(FileRegions(rs)) && b < TotalLen(FileRegions(rs))
    ensures Flat(FileRegions(rs))[a] == Flat(FileRegions(rs))[b] <==> a == b
    ensures |rs| > 3 ==> Flat(FileRegions(rs))[a] != rs[0].block
  {
    var i, q := FileBlockAt(rs, a);
    var j, q' := FileBlockAt(rs, b);
    assert BlockAt(rs, i, q) == Flat(FileRegions(rs))[a] && BlockAt(rs, j, q') == Flat(FileRegions(rs))[b];
    assert BlockAt(rs, 0, 0) == rs[0].block;
  }

  /** A whole file of n blocks: the records all lie in the block and tile the file, and
      the blocks they name are n different ones, none of them the extent block. */
  ghost predicate Whole(l: Laid, n: nat, blocks: seq<nat>) {
    && !l.spilled && l.entries == |l.es| && Tiled(l.es, n)
    && |blocks| == n
    && (forall a, b :: 0 <= a < n && 0 <= b < n ==> (blocks[a] == blocks[b] <==> a == b))
    && (l.extentBlock != 0 ==> forall a :: 0 <= a < n ==> blocks[a] != l.extentBlock)
  }

  lemma FileWhole(gs: seq<Group>, gs1: seq<Group>, n: nat, bs: nat, rs: seq<Region>, l: Laid, per: nat)
    requires n >= 1 && bs >= 12 && FileLaid(gs, gs1, n, bs, rs, l) && Spaced(gs, per)
    requires Roomy(gs) && FitsIn(gs, n + 1, MostRegions(bs))
    ensures Whole(l, n, Flat(l.file)) && l.es == ExtentsOf(l.file, 0) && TotalLen(l.file) == n
  {
    FileTiled(gs, gs1, n, bs, rs, l);
    FileApart(gs, gs1, n, bs, rs, l, per);
  }

  lemma FileTiled(gs: seq<Group>, gs1: seq<Group>, n: nat, bs: nat, rs: seq<Region>, l: Laid)
    requires n >= 1 && bs >= 12 && FileLaid(gs, gs1, n, bs, rs, l)
    requires Roomy(gs) && FitsIn(gs, n + 1, MostRegions(bs))
    ensures !l.spilled && l.entries == |l.es| && Tiled(l.es, n)
    ensures l.es == ExtentsOf(l.file, 0) && TotalLen(l.file) == n
  {
    FileCovered(gs, gs1, n, bs, rs, l);
    FirstRegionLong(gs, rs, n + 1);
    FileRegionsLen(rs);
    GreedyTotal(gs, rs, n + 1);
    ExtentsTile(l.file);
  }

  lemma FileApart(gs: seq<Group>, gs1: seq<Group>, n: nat, bs: nat, rs: seq<Region>, l: Laid, per: nat)
    requires n >= 1 && bs >= 12 && FileLaid(gs, gs1, n, bs, rs, l) && Roomy(gs) && Spaced(gs, per)
    ensures |Flat(l.file)| == n
    ensures forall a, b :: 0 <= a < n && 0 <= b < n ==> (Flat(l.file)[a] == Flat(l.file)[b] <==> a == b)
    ensures l.extentBlock != 0 ==> forall a :: 0 <= a < n ==> Flat(l.file)[a] != l.extentBlock
  {
    FileBlocksDistinct(gs, gs1, n, bs, rs, l, per, 0, 0);
    forall a, b | 0 <= a < n && 0 <= b < n
      ensures Flat(l.file)[a] == Flat(l.file)[b] <==> a == b
      ensures l.extentBlock != 0 ==> Flat(l.file)[a] != l.extentBlock
    {
      FileBlocksDistinct(gs, gs1, n, bs, rs, l, per, a, b);
    }
  }

  /** A file that finds room in the groups and in its records is whole. */
  lemma ResultWhole(gs: seq<Group>, gs1: seq<Group>, n: nat, bs: nat, rs: seq<Region>, ok: bool, l: Laid, per: nat)
    requires n >= 1 && bs >= 12 && FileResult(gs, gs1, n, bs, rs, ok, l) && Spaced(gs, per)
    requires Roomy(gs) && FitsIn(gs, n + 1, MostRegions(bs))
    ensures ok && Whole(l, n, Flat(l.file)) && l.es == ExtentsOf(l.file, 0) && TotalLen(l.file) == n
  {
    FitsMore(gs, n + 1, MostRegions(bs), bs - 1);
    FileWhole(gs, gs1, n, bs, rs, l, per);
  }

  /** inode_allocate_data_extents, and the records read back. When some group can spare
      two blocks in a row and the regions fit, the file is whole, and every byte of the
      data is placed on the block that the records give its file block. */
  method AllocateDataExtents(owner: BlockAllocator, n: nat, bs: nat, backing: nat, ghost per: nat)
    returns (l: Laid, blocks: array<nat>, ps: seq<Piece>)
    requires owner.Valid() && n >= 1 && bs >= 12 && backing <= n * bs
    requires Roomy(owner.View()) && FitsIn(owner.View(), n + 1, MostRegions(bs)) && Spaced(owner.View(), per)
    modifies owner.bgs, owner.Bitmaps()
    ensures owner.Valid() && Whole(l, n, blocks[..])
    ensures forall at :: 0 <= at < backing ==> Extents.Placed(ps, at, bs, blocks[..])
  {
    ghost var gs := owner.View();
    ghost var rs;
    var ok;
    ok, l, rs := AllocateExtents(owner, n, bs);
    ResultWhole(gs, owner.View(), n, bs, rs, ok, l, per);
    blocks, ps := ReadAndPlace(l, n, bs, backing);
  }

  /** The records read back, and the data placed. */
  method ReadAndPlace(l: Laid, n: nat, bs: nat, backing: nat) returns (blocks: array<nat>, ps: seq<Piece>)
    requires l.es == ExtentsOf(l.file, 0) && TotalLen(l.file) == n && bs > 0 && backing <= n * bs
    ensures fresh(blocks) && blocks[..] == Flat(l.file)
    ensures forall at :: 0 <= at < backing ==> Extents.Placed(ps, at, bs, Flat(l.file))
  {
    blocks := new nat[n];
    GetExtentEnts(l.es, blocks, l.file);
    ps := CreateBacking(l.file, bs, backing);
    assert blocks[..] == Flat(l.file);
  }

  /** The records cover file blocks 0 to n without gap or overlap. */
  ghost predicate Tiled(es: seq<Extent>, n: nat) {
    && es != [] && es[0].fileBlock == 0
    && (forall i :: 0 <= i < |es| - 1 ==> es[i + 1].fileBlock == es[i].fileBlock + es[i].len)
    && es[|es| - 1].fileBlock + es[|es| - 1].len == n
  }

  lemma FitsMore(gs: seq<Group>, n: nat, k: nat, k1: nat)
    requires FitsIn(gs, n, k) && k <= k1
    ensures FitsIn(gs, n, k1)
  {
    var amounts :| Possible(gs, amounts) && Amount(amounts) >= n && GroupsUsed(amounts) <= k;
    assert Possible(gs, amounts);
  }
}
