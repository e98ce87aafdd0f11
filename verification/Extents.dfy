/** The extents of a file: how the regions of an allocation become extent records,
    what reading the records back gives, and where the data goes
    (android/ext4_utils/src/extent.c, allocate.c, ext4fixup.c). */
module Extents {
  import opened Arithmetic
  import opened BestFit
  import AllocationRuns

  datatype Extent = Extent(fileBlock: nat, len: nat, start: nat)

  /** len blocks from start on. */
  ghost function Stretch(start: nat, len: nat): (b: seq<nat>)
    ensures |b| == len && forall i :: 0 <= i < len ==> b[i] == start + i
  {
    seq(len, (i: nat) => start + i)
  }

  /** The physical blocks of a list of regions, in file order. */
  ghost function Flat(rs: seq<Region>): (b: seq<nat>)
    ensures |b| == TotalLen(rs)
  {
    if rs == [] then [] else Stretch(rs[0].block, rs[0].len) + Flat(rs[1..])
  }

  /** One extent per region, file-contiguous from a block on. */
  ghost function ExtentsOf(rs: seq<Region>, from: nat): (es: seq<Extent>)
    ensures |es| == |rs|
  {
    if rs == [] then []
    else [Extent(from, rs[0].len, rs[0].block)] + ExtentsOf(rs[1..], from + rs[0].len)
  }

  lemma {:induction false} FlatConcat(a: seq<Region>, b: seq<Region>)
    ensures Flat(a + b) == Flat(a) + Flat(b)
    decreases |a|
  {
    if a == [] {
      assert a + b == b;
    } else {
      assert (a + b)[1..] == a[1..] + b;
      FlatConcat(a[1..], b);
    }
  }

  lemma {:induction false} ExtentsConcat(a: seq<Region>, b: seq<Region>, from: nat)
    ensures ExtentsOf(a + b, from) == ExtentsOf(a, from) + ExtentsOf(b, from + TotalLen(a))
    decreases |a|
  {
    if a == [] {
      assert a + b == b;
    } else {
      assert (a + b)[1..] == a[1..] + b;
      ExtentsConcat(a[1..], b, from + a[0].len);
    }
  }

  lemma PrefixStep(rs: seq<Region>, i: nat)
    requires i < |rs|
    ensures TotalLen(rs[..i + 1]) == TotalLen(rs[..i]) + rs[i].len
  {
    assert rs[..i + 1] == rs[..i] + [rs[i]];
    AllocationRuns.TotalLenConcat(rs[..i], [rs[i]]);
  }

  lemma PrefixFlat(rs: seq<Region>, i: nat)
    requires i < |rs|
    ensures Flat(rs[..i + 1]) == Flat(rs[..i]) + Stretch(rs[i].block, rs[i].len)
  {
    assert rs[..i + 1] == rs[..i] + [rs[i]];
    FlatConcat(rs[..i], [rs[i]]);
    assert Flat([rs[i]]) == Stretch(rs[i].block, rs[i].len) + Flat([]);
  }

  lemma PrefixExtents(rs: seq<Region>, i: nat)
    requires i < |rs|
    ensures ExtentsOf(rs[..i + 1], 0)
              == ExtentsOf(rs[..i], 0) + [Extent(TotalLen(rs[..i]), rs[i].len, rs[i].block)]
  {
    assert rs[..i + 1] == rs[..i] + [rs[i]];
    ExtentsConcat(rs[..i], [rs[i]], 0);
    assert [rs[i]][1..] == [];
  }

  lemma PrefixLen(rs: seq<Region>, i: nat)
    requires i <= |rs|
    ensures TotalLen(rs[..i]) <= TotalLen(rs)
  {
    assert rs == rs[..i] + rs[i..];
    AllocationRuns.TotalLenConcat(rs[..i], rs[i..]);
  }

  lemma {:induction false} ExtentAt(rs: seq<Region>, from: nat, i: nat)
    requires i < |rs|
    ensures ExtentsOf(rs, from)[i] == Extent(from + TotalLen(rs[..i]), rs[i].len, rs[i].block)
    decreases i
  {
    if i > 0 {
      ExtentAt(rs[1..], from + rs[0].len, i - 1);
      assert rs[..i][1..] == rs[1..][..i - 1];
    }
  }

  /** The extents of a file start at block 0, follow on each other and end at its
      last block. */
  lemma ExtentsTile(rs: seq<Region>)
    ensures var es := ExtentsOf(rs, 0);
            && (|es| > 0 ==> es[0].fileBlock == 0)
            && (forall i :: 0 <= i < |es| - 1 ==> es[i + 1].fileBlock == es[i].fileBlock + es[i].len)
            && (|es| > 0 ==> es[|es| - 1].fileBlock + es[|es| - 1].len == TotalLen(rs))
  {
    forall i | 0 <= i < |rs|
      ensures ExtentsOf(rs, 0)[i] == Extent(TotalLen(rs[..i]), rs[i].len, rs[i].block)
      ensures TotalLen(rs[..i + 1]) == TotalLen(rs[..i]) + rs[i].len
    {
      ExtentAt(rs, 0, i);
      PrefixStep(rs, i);
    }
    assert rs[..|rs|] == rs;
    assert |rs| > 0 ==> TotalLen(rs[..0]) == 0;
  }

  /** get_extent_ents: reading a file's extents back gives its blocks in order. */
  method GetExtentEnts(es: seq<Extent>, blockList: array<nat>, ghost rs: seq<Region>)
    requires es == ExtentsOf(rs, 0) && TotalLen(rs) <= blockList.Length
    modifies blockList
    ensures blockList[..TotalLen(rs)] == Flat(rs)
    ensures blockList[TotalLen(rs)..] == old(blockList[TotalLen(rs)..])
  {
    var i := 0;
    while i < |es|
      invariant i <= |es| && TotalLen(rs[..i]) <= TotalLen(rs)
      invariant blockList[..TotalLen(rs[..i])] == Flat(rs[..i])
      invariant blockList[TotalLen(rs)..] == old(blockList[TotalLen(rs)..])
    {
      ExtentAt(rs, 0, i);
      PrefixStep(rs, i);
      PrefixFlat(rs, i);
      PrefixLen(rs, i + 1);
      ghost var done := TotalLen(rs[..i]);
      var j := 0;
      while j < es[i].len
        invariant j <= es[i].len
        invariant blockList[..done] == Flat(rs[..i])
        invariant forall k :: done <= k < done + j ==> blockList[k] == rs[i].block + (k - done)
        invariant blockList[TotalLen(rs)..] == old(blockList[TotalLen(rs)..])
      {
        blockList[es[i].fileBlock + j] := es[i].start + j;
        j := j + 1;
      }
      assert blockList[..done + rs[i].len]
          == blockList[..done] + Stretch(rs[i].block, rs[i].len);
      i := i + 1;
    }
    assert rs[..|rs|] == rs;
  }

  /** A stretch of a file's data, queued for a physical block on. */
  datatype Piece = Piece(offset: nat, len: nat, block: nat)

  /** Byte `at` of the data goes where block at / bs of the file is. */
  ghost predicate Placed(ps: seq<Piece>, at: nat, bs: nat, blocks: seq<nat>)
    requires bs > 0
  {
    at / bs < |blocks| &&
    exists i :: 0 <= i < |ps| && ps[i].offset <= at < ps[i].offset + ps[i].len &&
      (at - ps[i].offset) / bs + ps[i].block == blocks[at / bs] &&
      ps[i].offset % bs == 0
  }

  /** extent_create_backing: the walk over the regions that queues the data. */
  method CreateBacking(rs: seq<Region>, bs: nat, backing: nat) returns (ps: seq<Piece>)
    requires bs > 0 && backing <= TotalLen(rs) * bs
    ensures forall at :: 0 <= at < backing ==> Placed(ps, at, bs, Flat(rs))
    ensures forall i :: 0 <= i < |ps| ==> ps[i].offset + ps[i].len <= backing
  {
    ps := [];
    var offset, left, i := 0, backing, 0;
    assert rs[..0] == [] && rs[..|rs|] == rs;
    while left > 0
      invariant i <= |rs| && offset + left == backing
      invariant left > 0 ==> offset == TotalLen(rs[..i]) * bs
      invariant AllPlaced(ps, offset, bs, Flat(rs))
      invariant forall k :: 0 <= k < |ps| ==> ps[k].offset + ps[k].len <= backing
      decreases |rs| - i
    {
      var size := rs[i].len * bs;
      var len := if size < left then size else left;
      NextPiece(rs, i, bs, ps, len);
      PrefixStep(rs, i);
      Distribute(TotalLen(rs[..i]), rs[i].len, bs);
      ps := ps + [Piece(offset, len, rs[i].block)];
      offset, left, i := offset + len, left - len, i + 1;
    }
  }

  lemma Distribute(a: nat, b: nat, c: nat)
    ensures (a + b) * c == a * c + b * c
  {
  }

  ghost predicate AllPlaced(ps: seq<Piece>, end: nat, bs: nat, blocks: seq<nat>)
    requires bs > 0
  {
    forall at :: 0 <= at < end ==> Placed(ps, at, bs, blocks)
  }

  lemma NextPiece(rs: seq<Region>, i: nat, bs: nat, ps: seq<Piece>, len: nat)
    requires bs > 0 && i < |rs| && len <= rs[i].len * bs
    requires AllPlaced(ps, TotalLen(rs[..i]) * bs, bs, Flat(rs))
    ensures AllPlaced(ps + [Piece(TotalLen(rs[..i]) * bs, len, rs[i].block)],
                      TotalLen(rs[..i]) * bs + len, bs, Flat(rs))
  {
    var start := TotalLen(rs[..i]) * bs;
    var p := Piece(start, len, rs[i].block);
    forall at | 0 <= at < start + len ensures Placed(ps + [p], at, bs, Flat(rs)) {
      if at < start {
        PlacedStays(ps, ps + [p], at, bs, Flat(rs));
      } else {
        InPiece(rs, i, bs, ps, p, at);
      }
    }
  }

  lemma InPiece(rs: seq<Region>, i: nat, bs: nat, ps: seq<Piece>, p: Piece, at: nat)
    requires bs > 0 && i < |rs| && p.len <= rs[i].len * bs && p.block == rs[i].block
    requires p.offset == TotalLen(rs[..i]) * bs && p.offset <= at < p.offset + p.len
    ensures Placed(ps + [p], at, bs, Flat(rs))
  {
    var d := at - p.offset;
    DivBelow(d, rs[i].len, bs);
    FlatAt(rs, i, d / bs);
    OffsetAligned(TotalLen(rs[..i]), bs, d);
    assert (ps + [p])[|ps|] == p;
  }

  lemma PlacedStays(ps: seq<Piece>, ps1: seq<Piece>, at: nat, bs: nat, blocks: seq<nat>)
    requires bs > 0 && Placed(ps, at, bs, blocks) && ps <= ps1
    ensures Placed(ps1, at, bs, blocks)
  {
    var i :| 0 <= i < |ps| && ps[i].offset <= at < ps[i].offset + ps[i].len &&
      (at - ps[i].offset) / bs + ps[i].block == blocks[at / bs] && ps[i].offset % bs == 0;
    assert ps1[i] == ps[i];
  }

  lemma OffsetAligned(n: nat, bs: nat, d: nat)
    requires bs > 0
    ensures (n * bs) % bs == 0 && (n * bs + d) / bs == n + d / bs
  {
    DivModUnique(n, 0, bs);
    var q, r := d / bs, d % bs;
    assert n * bs + d == (n + q) * bs + r;
    DivModUnique(n + q, r, bs);
  }

  /** Block q of region i in file order. */
  lemma {:induction false} FlatAt(rs: seq<Region>, i: nat, q: nat)
    requires i < |rs| && q < rs[i].len
    ensures TotalLen(rs[..i]) + q < TotalLen(rs)
    ensures Flat(rs)[TotalLen(rs[..i]) + q] == rs[i].block + q
    decreases i
  {
    if i > 0 {
      FlatAt(rs[1..], i - 1, q);
      assert rs[..i][1..] == rs[1..][..i - 1];
    }
  }

  /** The region that holds block k of the file. */
  lemma {:induction false} FlatWhere(rs: seq<Region>, k: nat) returns (i: nat, q: nat)
    requires k < TotalLen(rs)
    ensures i < |rs| && q < rs[i].len && k == TotalLen(rs[..i]) + q
    ensures Flat(rs)[k] == rs[i].block + q
    decreases |rs|
  {
    if k < rs[0].len {
      i, q := 0, k;
    } else {
      i, q := FlatWhere(rs[1..], k - rs[0].len);
      i := i + 1;
      assert rs[..i][1..] == rs[1..][..i - 1];
    }
  }
}
