/** One file after the other, from the geometry on: do_inode_allocate_extents as an event
    of the allocator (android/ext4_utils/src/extent.c, allocate.c). */
module FileRuns {
  import opened BestFit
  import opened Extents
  import opened InodeExtents
  import opened AllocationRuns
  import opened AllocatorInit
  import Allocator
  import Geometry

  /** The block holds data of the file, or its extent records. */
  ghost predicate Uses(l: Laid, block: nat) {
    || (exists i :: 0 <= i < |l.file| && Covers(l.file[i], block))
    || (l.extentBlock != 0 && block == l.extentBlock)
  }

  /** The regions that an allocation for a file leaves handed out. */
  ghost function Part(rs: seq<Region>): seq<Region>
    requires rs != [] && rs[0].len > 0
  {
    if |rs| > 3 then rs else if rs[0].len >= 2 then FileRegions(rs) else rs[1..]
  }

  /** The regions of `part` cover what the file uses. */
  ghost predicate Within(l: Laid, part: seq<Region>) {
    forall block: nat :: Uses(l, block) ==> exists i :: 0 <= i < |part| && Covers(part[i], block)
  }

  lemma PartCovers(rs: seq<Region>, bs: nat)
    requires bs >= 12 && rs != [] && forall i :: 0 <= i < |rs| ==> rs[i].len > 0
    ensures Within(LaidOut(rs, bs), Part(rs))
  {
    var l := LaidOut(rs, bs);
    forall block: nat | Uses(l, block) ensures exists i :: 0 <= i < |Part(rs)| && Covers(Part(rs)[i], block) {
      if l.extentBlock != 0 && block == l.extentBlock {
        var i := ExtentBlockCovered(rs);
        assert Covers(Part(rs)[i], block);
      } else {
        var i :| 0 <= i < |l.file| && Covers(l.file[i], block);
        FileBlockCovered(rs, i, block);
      }
    }
  }

  lemma ExtentBlockCovered(rs: seq<Region>) returns (i: nat)
    requires |rs| > 3 && forall i :: 0 <= i < |rs| ==> rs[i].len > 0
    ensures i < |rs| && Covers(rs[i], ExtentBlock(rs))
  {
    i := if rs[0].len >= 2 then 0 else 1;
  }

  lemma FileBlockCovered(rs: seq<Region>, i: nat, block: nat)
    requires rs != [] && rs[0].len > 0 && i < |FileList(rs)| && Covers(FileList(rs)[i], block)
    ensures i < |Part(rs)| && Covers(Part(rs)[i], block)
  {
    if |rs| > 3 && i > 0 {
      assert FileRegions(rs)[i] == rs[i];
    }
  }

  /** The allocation, and for a file of few regions the block given back, are a run. */
  lemma SettledRun(gs: seq<Group>, live: seq<Region>, n: nat, rs: seq<Region>) returns (es: seq<Event>)
    requires Inv(State(gs, live)) && n > 0 && Greedy(gs, rs, n) && rs != [] && rs[0].len > 0
    ensures Run(State(gs, live), es) && End(State(gs, live), es) == State(Settled(gs, rs, n), live + Part(rs))
  {
    if |rs| <= 3 {
      TailRun(gs, live, n, rs);
      es := [Got(n, rs), Returned(|live|, 1)];
    } else {
      OneEvent(State(gs, live), Got(n, rs));
      es := [Got(n, rs)];
    }
  }

  lemma FileWithin(gs: seq<Group>, gs1: seq<Group>, n: nat, bs: nat, rs: seq<Region>, l: Laid)
    requires n >= 1 && bs >= 12 && FileLaid(gs, gs1, n, bs, rs, l)
    ensures Within(l, Part(rs))
  {
    GreedyShape(gs, rs, n + 1);
    PartCovers(rs, bs);
  }

  lemma TailRun(gs: seq<Group>, live: seq<Region>, n: nat, rs: seq<Region>)
    requires Inv(State(gs, live)) && n > 0 && Greedy(gs, rs, n) && 0 < |rs| <= 3 && rs[0].len > 0
    ensures var st, es := State(gs, live), [Got(n, rs), Returned(|live|, 1)];
            Run(st, es) && End(st, es) == State(Settled(gs, rs, n), live + Part(rs))
  {
    TailBack(gs, live, n, rs);
    OneEvent(State(gs, live), Got(n, rs));
    RunOn(State(gs, live), [Got(n, rs)], Returned(|live|, 1));
    assert [Got(n, rs)] + [Returned(|live|, 1)] == [Got(n, rs), Returned(|live|, 1)];
  }

  lemma OneEvent(st: State, e: Event)
    requires Enabled(st, e)
    ensures Run(st, [e]) && End(st, [e]) == Apply(st, e)
  {
    assert [e][1..] == [];
  }

  /** The last block of the first region goes back. */
  lemma TailBack(gs: seq<Group>, live: seq<Region>, n: nat, rs: seq<Region>)
    requires Inv(State(gs, live)) && n > 0 && Greedy(gs, rs, n) && 0 < |rs| <= 3 && rs[0].len > 0
    ensures var st := State(After(gs, rs, n), live + rs);
            && Enabled(st, Returned(|live|, 1))
            && Apply(st, Returned(|live|, 1)) == State(Settled(gs, rs, n), live + Part(rs))
  {
    FirstIsTail(gs, rs, n);
    assert (live + rs)[|live|] == rs[0];
    PartRemains(live, rs);
  }

  lemma FirstIsTail(gs: seq<Group>, rs: seq<Region>, n: nat)
    requires n > 0 && Greedy(gs, rs, n) && forall g :: 0 <= g < |gs| ==> GroupWf(gs[g])
    ensures rs != [] && rs[0].bg < |After(gs, rs, n)|
    ensures var g := After(gs, rs, n)[rs[0].bg]; g.first >= 1 && rs[0].block + rs[0].len == g.base + g.first
  {
    FirstGroup(gs, rs, n);
    AfterTaken(gs, rs, n, 0);
    GreedyShape(gs, rs, n);
  }

  lemma PartRemains(live: seq<Region>, rs: seq<Region>)
    requires 0 < |rs| <= 3 && rs[0].len > 0
    ensures (if rs[0].len > 1 then (live + rs)[|live| := rs[0].(len := rs[0].len - 1)]
             else (live + rs)[..|live|] + (live + rs)[|live| + 1..]) == live + Part(rs)
  {
  }

  /** A refused file leaves its blocks handed out, or lost. */
  lemma RefusedIsRun(gs: seq<Group>, live: seq<Region>, gs1: seq<Group>, n: nat, rs: seq<Region>)
    returns (es: seq<Event>, part: seq<Region>)
    requires Inv(State(gs, live)) && Refused(gs, gs1, n, rs)
    ensures Run(State(gs, live), es) && End(State(gs, live), es) == State(gs1, live + part)
  {
    var st := State(gs, live);
    var e;
    if n + 1 <= TotalFree(gs) {
      e, part := Got(n + 1, rs), rs;
    } else {
      var left: nat :| left > 0 && Leads(gs, rs, n + 1, gs1, left);
      e, part := Lost(n + 1, rs, gs1, left), [];
      assert live + [] == live;
    }
    OneEvent(st, e);
    es := [e];
  }

  lemma {:induction false} RunChain(st: State, es: seq<Event>, fs: seq<Event>)
    requires Run(st, es) && Run(End(st, es), fs)
    ensures Run(st, es + fs) && End(st, es + fs) == End(End(st, es), fs)
    decreases |es|
  {
    if es == [] {
      assert es + fs == fs;
    } else {
      assert (es + fs)[1..] == es[1..] + fs;
      RunChain(Apply(st, es[0]), es[1..], fs);
    }
  }

  // ----------------------------------------------------------------- all files

  /** Region i of those handed out was handed out for file owner[i]. */
  ghost predicate Owned(live: seq<Region>, owner: seq<nat>, files: seq<Laid>) {
    && |owner| == |live|
    && forall f, block: nat {:trigger Uses(files[f], block)} :: 0 <= f < |files| && Uses(files[f], block) ==>
         UsedBy(live, owner, f, block)
  }

  ghost predicate UsedBy(live: seq<Region>, owner: seq<nat>, f: nat, block: nat)
    requires |owner| == |live|
  {
    exists i :: 0 <= i < |live| && owner[i] == f && Covers(live[i], block)
  }

  /** The next file owns the regions that it was given. */
  lemma OwnsPart(live: seq<Region>, owner: seq<nat>, files: seq<Laid>, l: Laid, part: seq<Region>)
    returns (owner1: seq<nat>)
    requires Owned(live, owner, files) && Within(l, part)
    ensures Owned(live + part, owner1, files + [l])
  {
    owner1 := owner + seq(|part|, _ => |files|);
    forall f, block: nat | 0 <= f < |files + [l]| && Uses((files + [l])[f], block)
      ensures UsedBy(live + part, owner1, f, block)
    {
      if f < |files| {
        assert Uses(files[f], block);
        var i :| 0 <= i < |live| && owner[i] == f && Covers(live[i], block);
        assert owner1[i] == f && Covers((live + part)[i], block);
      } else {
        var i :| 0 <= i < |part| && Covers(part[i], block);
        assert owner1[|live| + i] == f && Covers((live + part)[|live| + i], block);
      }
    }
  }

  /** No block of the image belongs to two files, and none is a header block or past the end
      of its group. */
  ghost predicate FilesApart(i: Geometry.Info, y: Geometry.Layout, files: seq<Laid>) {
    && (forall f, g, block: nat {:trigger Uses(files[f], block), Uses(files[g], block)} ::
          0 <= f < |files| && 0 <= g < |files| && Uses(files[f], block) && Uses(files[g], block) ==> f == g)
    && (forall f, block: nat {:trigger Uses(files[f], block)} :: 0 <= f < |files| && Uses(files[f], block) ==>
          exists bg :: 0 <= bg < y.groups && InData(i, y, bg, block))
  }

  lemma OwnedApart(i: Geometry.Info, y: Geometry.Layout, live: seq<Region>, owner: seq<nat>, files: seq<Laid>)
    requires WellHandedOut(i, y, live) && Owned(live, owner, files)
    ensures FilesApart(i, y, files)
  {
    forall f, g, block: nat |
      0 <= f < |files| && 0 <= g < |files| && Uses(files[f], block) && Uses(files[g], block)
      ensures f == g && exists bg :: 0 <= bg < y.groups && InData(i, y, bg, block)
    {
      var a :| 0 <= a < |live| && owner[a] == f && Covers(live[a], block);
      var b :| 0 <= b < |live| && owner[b] == g && Covers(live[b], block);
      assert a == b;
      assert InData(i, y, live[a].bg, block);
    }
  }

  /** What a file finds, gets and leaves: the result of do_inode_allocate_extents. */
  ghost predicate Served(gs: seq<Group>, gs1: seq<Group>, n: nat, bs: nat, ok: bool, l: Laid)
    requires bs >= 12
  {
    exists rs :: FileResult(gs, gs1, n, bs, rs, ok, l)
  }

  /** The run so far: what the files own, and what is left in the groups. */
  ghost predicate Standing(st: State, es: seq<Event>, gs: seq<Group>, live: seq<Region>, owner: seq<nat>,
                           files: seq<Laid>)
  {
    Run(st, es) && End(st, es) == State(gs, live) && Owned(live, owner, files)
  }

  const Nothing := Laid([], 0, 0, [], false)

  lemma FileIsRun(gs: seq<Group>, live: seq<Region>, gs1: seq<Group>, n: nat, bs: nat, rs: seq<Region>, ok: bool,
                  l: Laid)
    returns (es: seq<Event>, part: seq<Region>)
    requires Inv(State(gs, live)) && n >= 1 && bs >= 12 && FileResult(gs, gs1, n, bs, rs, ok, l)
    requires !ok ==> l == Nothing
    ensures Run(State(gs, live), es) && End(State(gs, live), es) == State(gs1, live + part)
    ensures Within(l, part) && Served(gs, gs1, n, bs, ok, l)
  {
    if ok {
      es := SettledRun(gs, live, n + 1, rs);
      FileWithin(gs, gs1, n, bs, rs, l);
      part := Part(rs);
    } else {
      es, part := RefusedIsRun(gs, live, gs1, n, rs);
    }
  }

  /** One more file. */
  method NextFile(a: Allocator.BlockAllocator, n: nat, bs: nat, ghost live: seq<Region>)
    returns (ok: bool, l: Laid, ghost es: seq<Event>, ghost part: seq<Region>)
    requires a.Valid() && n >= 1 && bs >= 12 && Inv(State(a.View(), live))
    modifies a.bgs, a.Bitmaps()
    ensures a.Valid() && Served(old(a.View()), a.View(), n, bs, ok, l)
    ensures Run(State(old(a.View()), live), es)
    ensures End(State(old(a.View()), live), es) == State(a.View(), live + part)
    ensures Within(l, part) && (!ok ==> l == Nothing)
  {
    ghost var gs := a.View();
    ghost var rs;
    ok, l, rs := AllocateExtents(a, n, bs);
    if !ok {
      l := Nothing;
    }
    es, part := FileIsRun(gs, live, a.View(), n, bs, rs, ok, l);
  }

  method StandingFile(a: Allocator.BlockAllocator, n: nat, bs: nat, ghost st: State, ghost per: nat,
                      ghost es: seq<Event>, ghost live: seq<Region>, ghost owner: seq<nat>, files: seq<Laid>)
    returns (ok: bool, l: Laid, ghost es1: seq<Event>, ghost live1: seq<Region>, ghost owner1: seq<nat>)
    requires a.Valid() && n >= 1 && bs >= 12 && Initial(st, per) && Standing(st, es, a.View(), live, owner, files)
    modifies a.bgs, a.Bitmaps()
    ensures a.Valid() && Standing(st, es1, a.View(), live1, owner1, files + [l])
    ensures Spaced(old(a.View()), per) && Served(old(a.View()), a.View(), n, bs, ok, l)
    ensures !ok ==> l == Nothing
  {
    InitialInv(st, per);
    RunKeeps(st, es);
    RunsSpaced(st, per, es);
    ghost var fs, part;
    ok, l, fs, part := NextFile(a, n, bs, live);
    RunChain(st, es, fs);
    owner1 := OwnsPart(live, owner, files, l, part);
    live1, es1 := live + part, es + fs;
  }

  /** The k-th file gets what the groups had left for it. */
  ghost predicate ServedAt(views: seq<seq<Group>>, sizes: seq<nat>, bs: nat, per: nat, oks: seq<bool>,
                           files: seq<Laid>, k: nat)
    requires bs >= 12 && k < |oks| == |files| <= |sizes| && |views| == |files| + 1
  {
    && Spaced(views[k], per) && (!oks[k] ==> files[k] == Nothing)
    && Served(views[k], views[k + 1], sizes[k], bs, oks[k], files[k])
  }

  ghost predicate AllServed(views: seq<seq<Group>>, sizes: seq<nat>, bs: nat, per: nat, oks: seq<bool>,
                            files: seq<Laid>)
    requires bs >= 12
  {
    && |oks| == |files| <= |sizes| && |views| == |files| + 1
    && forall k {:trigger ServedAt(views, sizes, bs, per, oks, files, k)} :: 0 <= k < |files| ==>
         ServedAt(views, sizes, bs, per, oks, files, k)
  }

  lemma ServedMore(views: seq<seq<Group>>, sizes: seq<nat>, bs: nat, per: nat, oks: seq<bool>, files: seq<Laid>,
                   gs1: seq<Group>, ok: bool, l: Laid)
    requires bs >= 12 && AllServed(views, sizes, bs, per, oks, files) && |files| < |sizes|
    requires Spaced(views[|files|], per) && (!ok ==> l == Nothing)
    requires Served(views[|files|], gs1, sizes[|files|], bs, ok, l)
    ensures AllServed(views + [gs1], sizes, bs, per, oks + [ok], files + [l])
  {
    forall k | 0 <= k < |files| + 1
      ensures ServedAt(views + [gs1], sizes, bs, per, oks + [ok], files + [l], k)
    {
      if k < |files| {
        assert ServedAt(views, sizes, bs, per, oks, files, k);
      }
    }
  }

  /** Files one after the other, from a new allocator on. */
  method AllocateAll(a: Allocator.BlockAllocator, bs: nat, ghost per: nat, sizes: seq<nat>)
    returns (oks: seq<bool>, files: seq<Laid>, ghost views: seq<seq<Group>>, ghost es: seq<Event>,
             ghost live: seq<Region>, ghost owner: seq<nat>)
    requires a.Valid() && bs >= 12 && Initial(State(a.View(), []), per)
    requires forall k :: 0 <= k < |sizes| ==> sizes[k] >= 1
    modifies a.bgs, a.Bitmaps()
    ensures a.Valid() && Standing(State(old(a.View()), []), es, a.View(), live, owner, files)
    ensures |files| == |sizes| && AllServed(views, sizes, bs, per, oks, files) && views[0] == old(a.View())
  {
    ghost var st := State(a.View(), []);
    oks, files, views, es, live, owner := [], [], [a.View()], [], [], [];
    for n := 0 to |sizes|
      invariant a.Valid() && |files| == n && AllServed(views, sizes, bs, per, oks, files)
      invariant views[0] == st.gs && views[n] == a.View()
      invariant Standing(st, es, a.View(), live, owner, files)
    {
      var ok, l;
      ok, l, es, live, owner := StandingFile(a, sizes[n], bs, st, per, es, live, owner, files);
      ServedMore(views, sizes, bs, per, oks, files, a.View(), ok, l);
      oks, files, views := oks + [ok], files + [l], views + [a.View()];
    }
  }

  /** The image is built and any number of files are laid out, refused ones among them.
      Each gets what the groups had left for it, and no two of them share a block. */
  method AllocateFiles(i: Geometry.Info, y: Geometry.Layout, bs: nat, sizes: seq<nat>)
    returns (oks: seq<bool>, files: seq<Laid>, ghost views: seq<seq<Group>>)
    requires Geometry.InfoOk(i) && Geometry.Roomy(i, y) && i.per <= 8 * bs && bs >= 12
    requires forall k :: 0 <= k < |sizes| ==> sizes[k] >= 1
    ensures |files| == |sizes| && AllServed(views, sizes, bs, i.per, oks, files)
    ensures |views[0]| == y.groups && forall bg :: 0 <= bg < y.groups ==> IsInitial(views[0][bg], i, y, bg)
    ensures FilesApart(i, y, files)
  {
    var a := BlockAllocatorInit(i, y, bs);
    ghost var gs := a.View();
    ghost var es, live, owner;
    oks, files, views, es, live, owner := AllocateAll(a, bs, i.per, sizes);
    HandedOut(i, y, gs, es, live);
    OwnedApart(i, y, live, owner, files);
  }

  /** Every file that finds room in the groups and in its records is whole. */
  lemma ServedWhole(gs: seq<Group>, gs1: seq<Group>, n: nat, bs: nat, ok: bool, l: Laid, per: nat)
    requires n >= 1 && bs >= 12 && Spaced(gs, per) && Served(gs, gs1, n, bs, ok, l)
    requires InodeExtents.Roomy(gs) && FitsIn(gs, n + 1, MostRegions(bs))
    ensures ok && Whole(l, n, Flat(l.file))
  {
    var rs :| FileResult(gs, gs1, n, bs, rs, ok, l);
    ResultWhole(gs, gs1, n, bs, rs, ok, l, per);
  }
}
