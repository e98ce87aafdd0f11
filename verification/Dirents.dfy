/** Packing directory records into blocks, and walking them again
    (android/ext4_utils/src/contents.c, ext4fixup.c). */
module Dirents {
  import opened Arithmetic
  import opened Bytes

  datatype Kind = DirKind | FileKind | OtherKind

  datatype Record = Record(inode: nat, recLen: nat, name: string, kind: Kind)

  /** A record at a byte offset of the directory's data. */
  datatype Placed = Placed(at: nat, rec: Record)

  datatype Entry = Entry(name: string, kind: Kind)

  /** 8 + ALIGN(strlen(name), 4). */
  function RecSize(name: string): (n: nat)
    ensures 8 + |name| <= n < 12 + |name| && n % 4 == 0
  {
    8 + 4 * ((|name| + 3) / 4)
  }

  /** Names that ext4 allows. */
  predicate NameOk(name: string) {
    1 <= |name| <= 255
  }

  /** Block sizes for which a record fits a block and a block fits rec_len. */
  predicate BlockOk(bs: nat) {
    264 <= bs < 0x1_0000
  }

  // ---------------------------------------------------------- predicted size

  /** Where a record of the given size starts: at the offset, or in the next block
      when it would cross the block's end. */
  function Start(offset: nat, size: nat, bs: nat): nat
    requires bs > 0
  {
    if offset % bs + size > bs then offset + (bs - offset % bs) else offset
  }

  /** The end of a record of the given size. */
  function Next(offset: nat, size: nat, bs: nat): (n: nat)
    requires bs > 0
    ensures n >= offset + size
  {
    Start(offset, size, bs) + size
  }

  /** The size of a directory with the first i entries. */
  function SizeOf(es: seq<Entry>, i: nat, bs: nat): (n: nat)
    requires bs > 0 && i <= |es|
  {
    if i == 0 then 24 else Next(SizeOf(es, i - 1, bs), RecSize(es[i - 1].name), bs)
  }

  /** dentry_size. */
  method DentrySize(es: seq<Entry>, bs: nat) returns (len: nat)
    requires bs > 0
    ensures len == SizeOf(es, |es|, bs)
  {
    len := 24;
    var i := 0;
    while i < |es|
      invariant 0 <= i <= |es| && len == SizeOf(es, i, bs)
    {
      var dentryLen := RecSize(es[i].name);
      if len % bs + dentryLen > bs {
        len := len + (bs - len % bs);
      }
      len := len + dentryLen;
      i := i + 1;
    }
  }

  /** add_dentry's test for crossing a block, and where it then continues. */
  lemma CrossingIsStart(offset: nat, size: nat, bs: nat)
    requires 0 < size <= bs
    ensures offset / bs != (offset + size - 1) / bs <==> offset % bs + size > bs
    ensures offset % bs + size > bs ==>
              (offset + size - 1) / bs * bs == Start(offset, size, bs)
  {
    var q, r := offset / bs, offset % bs;
    assert offset == q * bs + r;
    if r + size > bs {
      MulNext(q, bs);
      DivModUnique(q + 1, r + size - 1 - bs, bs);
    } else {
      DivModUnique(q, r + size - 1, bs);
    }
  }

  lemma MulNext(q: nat, bs: nat)
    ensures (q + 1) * bs == q * bs + bs
  {
  }

  // ------------------------------------------------------------ well-laid data

  /** Bytes lo..hi lie in one block. */
  predicate InOneBlock(lo: nat, hi: nat, bs: nat)
    requires bs > 0
  {
    lo % bs + (hi - lo) <= bs
  }

  /** Where record i starts, or the end after the last. */
  function Offset(rs: seq<Placed>, end: nat, i: nat): nat
    requires i <= |rs|
  {
    if i < |rs| then rs[i].at else end
  }

  ghost predicate RecordLaid(rs: seq<Placed>, end: nat, bs: nat, i: nat)
    requires bs > 0 && i < |rs|
  {
    && rs[i].at + rs[i].rec.recLen == Offset(rs, end, i + 1)
    && rs[i].rec.recLen >= RecSize(rs[i].rec.name)
    && InOneBlock(rs[i].at, rs[i].at + rs[i].rec.recLen, bs)
  }

  /** The records follow on each other from 0 to end, each inside one block and with
      room for its name. */
  ghost predicate Laid(rs: seq<Placed>, end: nat, bs: nat)
    requires bs > 0
  {
    && Offset(rs, end, 0) == 0
    && forall i {:trigger RecordLaid(rs, end, bs, i)} :: 0 <= i < |rs| ==> RecordLaid(rs, end, bs, i)
  }

  /** What a reader of the directory is to see. */
  datatype Listed = Listed(inode: nat, name: string, kind: Kind)

  ghost function Listing(rs: seq<Placed>): (l: seq<Listed>)
    ensures |l| == |rs|
    ensures forall i :: 0 <= i < |rs| ==>
              l[i] == Listed(rs[i].rec.inode, rs[i].rec.name, rs[i].rec.kind)
  {
    seq(|rs|, i requires 0 <= i < |rs| => Listed(rs[i].rec.inode, rs[i].rec.name, rs[i].rec.kind))
  }

  /** The last record grows by d bytes. */
  function Grown(rs: seq<Placed>, d: nat): (rs1: seq<Placed>)
    requires rs != []
    ensures |rs1| == |rs|
  {
    var n := |rs| - 1;
    rs[n := Placed(rs[n].at, rs[n].rec.(recLen := rs[n].rec.recLen + d))]
  }

  /** The end of the block that an offset is in. */
  function BlockEnd(end: nat, bs: nat): (e: nat)
    requires bs > 0
    ensures e >= end
  {
    if end % bs == 0 then end else end + (bs - end % bs)
  }

  lemma PadStaysInBlock(at: nat, end: nat, bs: nat)
    requires bs > 0 && at < end && InOneBlock(at, end, bs)
    ensures InOneBlock(at, BlockEnd(end, bs), bs)
  {
    var q, r := at / bs, at % bs;
    assert at == q * bs + r;
    var d := r + (end - at);
    if d < bs {
      assert end == q * bs + d;
      DivModUnique(q, d, bs);
    } else {
      assert end == (q + 1) * bs;
      DivModUnique(q + 1, 0, bs);
    }
  }

  lemma BlockEndAligned(end: nat, bs: nat)
    requires bs > 0
    ensures BlockEnd(end, bs) % bs == 0
  {
    if end % bs > 0 {
      assert end + (bs - end % bs) == (end / bs + 1) * bs;
      DivModUnique(end / bs + 1, 0, bs);
    }
  }

  lemma GrownLaid(rs: seq<Placed>, end: nat, bs: nat)
    requires bs > 0 && rs != [] && Laid(rs, end, bs)
    ensures Laid(Grown(rs, BlockEnd(end, bs) - end), BlockEnd(end, bs), bs)
    ensures Listing(Grown(rs, BlockEnd(end, bs) - end)) == Listing(rs)
  {
    var end1 := BlockEnd(end, bs);
    var rs1 := Grown(rs, end1 - end);
    forall i | 0 <= i < |rs1| ensures RecordLaid(rs1, end1, bs, i) {
      assert RecordLaid(rs, end, bs, i);
      if i == |rs| - 1 {
        PadStaysInBlock(rs[i].at, end, bs);
      }
    }
  }

  lemma AppendedLaid(rs: seq<Placed>, end: nat, bs: nat, r: Record)
    requires bs > 0 && Laid(rs, end, bs)
    requires r.recLen >= RecSize(r.name) && InOneBlock(end, end + r.recLen, bs)
    ensures Laid(rs + [Placed(end, r)], end + r.recLen, bs)
    ensures Listing(rs + [Placed(end, r)]) == Listing(rs) + [Listed(r.inode, r.name, r.kind)]
  {
    var rs1 := rs + [Placed(end, r)];
    var end1 := end + r.recLen;
    forall i | 0 <= i < |rs1| ensures RecordLaid(rs1, end1, bs, i) {
      if i < |rs| {
        assert RecordLaid(rs, end, bs, i);
      }
    }
  }

  /** What add_dentry does where a record would cross a block boundary, and what it
      has then. */
  lemma StartFits(offset: nat, size: nat, bs: nat)
    requires 0 < size <= bs
    ensures InOneBlock(Start(offset, size, bs), Next(offset, size, bs), bs)
    ensures offset / bs != (offset + size - 1) / bs ==>
              && offset > 0 && (offset + size - 1) / bs * bs == BlockEnd(offset, bs)
              && Next(offset, size, bs) == BlockEnd(offset, bs) + size
    ensures offset / bs == (offset + size - 1) / bs ==> Next(offset, size, bs) == offset + size
  {
    CrossingIsStart(offset, size, bs);
    BlockEndAligned(offset, bs);
  }

  // ------------------------------------------------------------- the directory

  class Directory {
    const bs: nat
    var recs: seq<Placed>
    var offset: nat

    ghost predicate Valid()
      reads this
    {
      BlockOk(bs) && Laid(recs, offset, bs)
    }

    constructor (bs: nat)
      requires BlockOk(bs)
      ensures Valid() && this.bs == bs && recs == [] && offset == 0
    {
      this.bs, recs, offset := bs, [], 0;
    }

    /** The last record is padded to the end of its block. */
    method PadLast(end: nat)
      requires Valid() && recs != [] && end == BlockEnd(offset, bs)
      modifies this
      ensures Valid() && offset == end && Listing(recs) == old(Listing(recs)) && recs != []
    {
      GrownLaid(recs, offset, bs);
      recs, offset := Grown(recs, end - offset), end;
    }

    /** add_dentry. */
    method AddDentry(inode: nat, e: Entry)
      requires Valid() && NameOk(e.name)
      modifies this
      ensures Valid()
      ensures offset == Next(old(offset), RecSize(e.name), bs)
      ensures Listing(recs) == old(Listing(recs)) + [Listed(inode, e.name, e.kind)]
    {
      var recLen := RecSize(e.name);
      var startBlock, endBlock := offset / bs, (offset + recLen - 1) / bs;
      StartFits(offset, recLen, bs);
      if startBlock != endBlock {
        NotEmpty(recs, offset, bs);
        PadLast(endBlock * bs);
      }
      var r := Record(inode, recLen, e.name, e.kind);
      AppendedLaid(recs, offset, bs, r);
      recs := recs + [Placed(offset, r)];
      offset := offset + recLen;
    }
  }

  lemma NotEmpty(rs: seq<Placed>, end: nat, bs: nat)
    requires bs > 0 && Laid(rs, end, bs) && end > 0
    ensures rs != []
  {
  }

  const DOT := Entry(".", DirKind)
  const DOTDOT := Entry("..", DirKind)

  /** The first n entries as make_directory first writes them: their inodes come later. */
  ghost function Unfilled(es: seq<Entry>, n: nat): (l: seq<Listed>)
    requires n <= |es|
    ensures |l| == n && forall i :: 0 <= i < n ==> l[i] == Listed(0, es[i].name, es[i].kind)
  {
    if n == 0 then [] else Unfilled(es, n - 1) + [Listed(0, es[n - 1].name, es[n - 1].kind)]
  }

  ghost function Dots(self: nat, parent: nat): seq<Listed> {
    [Listed(self, ".", DirKind), Listed(parent, "..", DirKind)]
  }

  /** The layout part of make_directory: "." and "..", the entries with inode 0 for
      now, and the last record padded to the end of the last block. */
  method MakeDirectory(es: seq<Entry>, bs: nat, self: nat, parent: nat)
    returns (recs: seq<Placed>, len: nat)
    requires BlockOk(bs) && forall i :: 0 <= i < |es| ==> NameOk(es[i].name)
    ensures Laid(recs, len, bs) && len % bs == 0
    ensures Listing(recs) == Dots(self, parent) + Unfilled(es, |es|)
    ensures len - bs < SizeOf(es, |es|, bs) <= len
  {
    var size := DentrySize(es, bs);
    len := RoundUp(size, bs);
    var dir := StartDirectory(bs, self, parent);
    AddAll(dir, es, len, Dots(self, parent));
    assert dir.recs != [];
    dir.PadLast(len);
    recs := dir.recs;
  }

  /** The loop of make_directory, with the check that cannot fail. */
  method AddAll(dir: Directory, es: seq<Entry>, len: nat, ghost before: seq<Listed>)
    requires dir.Valid() && dir.offset == 24 && Listing(dir.recs) == before
    requires SizeOf(es, |es|, dir.bs) <= len && forall i :: 0 <= i < |es| ==> NameOk(es[i].name)
    modifies dir
    ensures dir.Valid() && dir.offset == SizeOf(es, |es|, dir.bs)
    ensures Listing(dir.recs) == before + Unfilled(es, |es|)
  {
    assert before + Unfilled(es, 0) == before;
    var i := 0;
    while i < |es|
      invariant 0 <= i <= |es| && dir.Valid() && dir.offset == SizeOf(es, i, dir.bs)
      invariant Listing(dir.recs) == before + Unfilled(es, i)
    {
      Regroup(before, Unfilled(es, i), [Listed(0, es[i].name, es[i].kind)]);
      dir.AddDentry(0, es[i]);
      NeverPastEnd(es, i, dir.bs, |es|);
      if dir.offset > len || (dir.offset == len && i != |es| - 1) {
        assert false;
      }
      i := i + 1;
    }
  }

  method StartDirectory(bs: nat, self: nat, parent: nat) returns (dir: Directory)
    requires BlockOk(bs)
    ensures fresh(dir) && dir.Valid() && dir.bs == bs && dir.offset == 24
    ensures Listing(dir.recs) == Dots(self, parent)
  {
    dir := new Directory(bs);
    SmallStart(0, bs);
    SmallStart(12, bs);
    dir.AddDentry(self, DOT);
    assert Listing(dir.recs) == [Listed(self, ".", DirKind)];
    dir.AddDentry(parent, DOTDOT);
    assert Listing(dir.recs) == Dots(self, parent);
  }

  /** A record that fits where it is ends no earlier than one packed after an earlier
      offset. */
  lemma PackedIsEarlier(packed: nat, at: nat, size: nat, bs: nat)
    requires bs > 0 && packed <= at && at % bs + size <= bs
    ensures Next(packed, size, bs) <= at + size
  {
    var q, q1 := packed / bs, at / bs;
    assert packed == q * bs + packed % bs && at == q1 * bs + at % bs;
    if packed % bs + size > bs {
      if q1 < q {
        MulStep(q1, q, bs);
      } else if q < q1 {
        MulStep(q, q1, bs);
      }
    }
  }

  /** The records are those of a directory with these entries, in this order. */
  ghost predicate Names(rs: seq<Placed>, es: seq<Entry>) {
    && |rs| == 2 + |es| && rs[0].rec.name == "." && rs[1].rec.name == ".."
    && forall i :: 0 <= i < |es| ==> rs[i + 2].rec.name == es[i].name
  }

  lemma {:induction false} PackedBelow(rs: seq<Placed>, end: nat, bs: nat, es: seq<Entry>, i: nat)
    requires bs > 0 && Laid(rs, end, bs) && Names(rs, es) && i <= |es|
    ensures SizeOf(es, i, bs) <= Offset(rs, end, i + 2)
    decreases i
  {
    if i == 0 {
      assert RecordLaid(rs, end, bs, 0) && RecordLaid(rs, end, bs, 1);
    } else {
      PackedBelow(rs, end, bs, es, i - 1);
      assert RecordLaid(rs, end, bs, i + 1);
      PackedIsEarlier(SizeOf(es, i - 1, bs), rs[i + 1].at, RecSize(es[i - 1].name), bs);
    }
  }

  /** No other way to lay the records out, in this order and with none across a block's
      end, gets by with fewer bytes or with fewer blocks. */
  lemma FewestBlocks(rs: seq<Placed>, end: nat, bs: nat, es: seq<Entry>, len: nat)
    requires bs > 0 && Laid(rs, end, bs) && Names(rs, es)
    requires len % bs == 0 && len - bs < SizeOf(es, |es|, bs)
    ensures SizeOf(es, |es|, bs) <= end
    ensures end % bs == 0 ==> len <= end
  {
    PackedBelow(rs, end, bs, es, |es|);
    if end % bs == 0 {
      NextMultiple(len, end, bs);
    }
  }

  lemma NextMultiple(len: nat, end: nat, bs: nat)
    requires bs > 0 && len % bs == 0 && end % bs == 0 && len - bs < end
    ensures len <= end
  {
    Divides(end, bs);
    Divides(len, bs);
    WholeBlocks(end / bs, len / bs, bs);
  }

  lemma WholeBlocks(m: nat, n: nat, bs: nat)
    ensures n * bs - bs < m * bs ==> n * bs <= m * bs
  {
    if m < n {
      MulStep(m, n, bs);
    } else {
      MulUp(n, m, bs);
    }
  }

  lemma SmallStart(offset: nat, bs: nat)
    requires offset + 12 <= bs
    ensures Next(offset, 12, bs) == offset + 12
  {
    DivModUnique(0, offset, bs);
  }

  /** "internal error: dentry ends past the end" is unreachable. */
  lemma {:induction false} NeverPastEnd(es: seq<Entry>, i: nat, bs: nat, n: nat)
    requires bs > 0 && i < n <= |es|
    ensures SizeOf(es, i + 1, bs) <= SizeOf(es, n, bs)
    ensures i + 1 < n ==> SizeOf(es, i + 1, bs) < SizeOf(es, n, bs)
    decreases n
  {
    if i + 1 < n {
      NeverPastEnd(es, i, bs, n - 1);
    }
  }

  /** DIV_ROUND_UP(n, bs) * bs. */
  method RoundUp(n: nat, bs: nat) returns (len: nat)
    requires bs > 0
    ensures len % bs == 0 && n <= len < n + bs && len == BlockEnd(n, bs)
  {
    len := (n + bs - 1) / bs * bs;
    var q, r := n / bs, n % bs;
    assert n == q * bs + r;
    MulNext(q, bs);
    if r == 0 {
      DivModUnique(q, bs - 1, bs);
      DivModUnique(q, 0, bs);
    } else {
      DivModUnique(q + 1, r - 1, bs);
      DivModUnique(q + 1, 0, bs);
    }
  }

  // ------------------------------------------------------------------ the walk

  /** The record stored at an offset: its position in the list, or the list's end. */
  function Index(rs: seq<Placed>, at: nat, i: nat): (n: nat)
    requires i <= |rs|
    ensures i <= n <= |rs| && (n < |rs| ==> rs[n].at == at)
    ensures forall j :: i <= j < n ==> rs[j].at != at
    decreases |rs| - i
  {
    if i == |rs| || rs[i].at == at then i else Index(rs, at, i + 1)
  }

  /** The records that recurse_dir visits from an offset on: it stops at a record
      with inode zero, and where 8 bytes or fewer are left after a first record. */
  function Walk(rs: seq<Placed>, at: nat, len: nat): seq<Record>
    decreases len - at
  {
    if at >= len || (len - at <= 8 && at > 0) then []
    else
      var n := Index(rs, at, 0);
      if n == |rs| || rs[n].rec.inode == 0 || rs[n].rec.recLen == 0 then []
      else [rs[n].rec] + Walk(rs, at + rs[n].rec.recLen, len)
  }

  ghost function Recs(rs: seq<Placed>): (s: seq<Record>)
    ensures |s| == |rs| && forall i :: 0 <= i < |rs| ==> s[i] == rs[i].rec
  {
    seq(|rs|, i requires 0 <= i < |rs| => rs[i].rec)
  }

  lemma {:induction false} OffsetsIncrease(rs: seq<Placed>, end: nat, bs: nat, i: nat, j: nat)
    requires bs > 0 && Laid(rs, end, bs) && i < j <= |rs|
    ensures Offset(rs, end, i) + 8 <= Offset(rs, end, j)
    decreases j - i
  {
    assert RecordLaid(rs, end, bs, i);
    if i + 1 < j {
      OffsetsIncrease(rs, end, bs, i + 1, j);
    }
  }

  /** One step of the walk, from record i to the next. */
  lemma WalkStep(rs: seq<Placed>, end: nat, bs: nat, i: nat)
    requires bs > 0 && Laid(rs, end, bs) && i < |rs|
    requires rs[i].rec.inode != 0 && |rs[i].rec.name| >= 1
    ensures Walk(rs, rs[i].at, end) == [rs[i].rec] + Walk(rs, Offset(rs, end, i + 1), end)
  {
    assert RecordLaid(rs, end, bs, i);
    if i + 1 < |rs| {
      OffsetsIncrease(rs, end, bs, i + 1, |rs|);
    }
    var n := Index(rs, rs[i].at, 0);
    if n < i {
      OffsetsIncrease(rs, end, bs, n, i);
    }
  }

  /** The position of the first record with inode 0, from i on, or the number of records. */
  function FirstUnused(rs: seq<Placed>, i: nat): (n: nat)
    requires i <= |rs|
    ensures i <= n <= |rs| && (n < |rs| ==> rs[n].rec.inode == 0)
    ensures forall k :: i <= k < n ==> rs[k].rec.inode != 0
    decreases |rs| - i
  {
    if i == |rs| || rs[i].rec.inode == 0 then i else FirstUnused(rs, i + 1)
  }

  /** The walk stops at a record with inode 0. */
  lemma WalkStops(rs: seq<Placed>, end: nat, bs: nat, i: nat)
    requires bs > 0 && Laid(rs, end, bs) && i < |rs| && rs[i].rec.inode == 0
    ensures Walk(rs, rs[i].at, end) == []
  {
    var n := Index(rs, rs[i].at, 0);
    if n < i {
      OffsetsIncrease(rs, end, bs, n, i);
    }
  }

  lemma {:induction false} WalkFrom(rs: seq<Placed>, end: nat, bs: nat, i: nat)
    requires bs > 0 && Laid(rs, end, bs) && i <= |rs|
    requires forall k :: i <= k < FirstUnused(rs, i) ==> |rs[k].rec.name| >= 1
    ensures Walk(rs, Offset(rs, end, i), end) == Recs(rs)[i..FirstUnused(rs, i)]
    decreases |rs| - i
  {
    if i < |rs| && rs[i].rec.inode != 0 {
      WalkFrom(rs, end, bs, i + 1);
      WalkStep(rs, end, bs, i);
      var n := FirstUnused(rs, i);
      assert Recs(rs)[i..n] == [Recs(rs)[i]] + Recs(rs)[i + 1..n];
    } else {
      assert Recs(rs)[i..i] == [];
      if i < |rs| {
        WalkStops(rs, end, bs, i);
      }
    }
  }

  /** The walk by rec_len visits, in order and each once, the records before the first one
      with inode 0; so it visits all of them exactly when all inode fields are filled in. */
  lemma WalkVisits(rs: seq<Placed>, end: nat, bs: nat)
    requires bs > 0 && Laid(rs, end, bs)
    requires forall k :: 0 <= k < FirstUnused(rs, 0) ==> |rs[k].rec.name| >= 1
    ensures Walk(rs, 0, end) == Recs(rs)[..FirstUnused(rs, 0)]
    ensures Walk(rs, 0, end) == Recs(rs) <==> forall k :: 0 <= k < |rs| ==> rs[k].rec.inode != 0
  {
    WalkFrom(rs, end, bs, 0);
    assert Recs(rs)[..|rs|] == Recs(rs);
  }

  /** make_file and its kin fill in the inode number of record k. */
  function Filled(rs: seq<Placed>, k: nat, inode: nat): (rs1: seq<Placed>)
    requires k < |rs|
    ensures |rs1| == |rs|
  {
    rs[k := Placed(rs[k].at, rs[k].rec.(inode := inode))]
  }

  /** Filling in inode numbers moves no record. */
  lemma FilledLaid(rs: seq<Placed>, end: nat, bs: nat, k: nat, inode: nat)
    requires bs > 0 && Laid(rs, end, bs) && k < |rs|
    ensures Laid(Filled(rs, k, inode), end, bs)
    ensures Listing(Filled(rs, k, inode)) == Listing(rs)[k := Listing(rs)[k].(inode := inode)]
  {
    var rs1 := Filled(rs, k, inode);
    forall i | 0 <= i < |rs1| ensures RecordLaid(rs1, end, bs, i) {
      assert RecordLaid(rs, end, bs, i);
    }
  }
}
