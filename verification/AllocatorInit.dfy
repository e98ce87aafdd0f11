/** From the geometry to the allocator, and runs of the allocator's own methods
    (android/ext4_utils/src/allocate.c). */
module AllocatorInit {
  import opened BlockGroups
  import opened BestFit
  import opened Geometry
  import Allocator
  import opened AllocationRuns

  /** The blocks of group bg past the end of the image. */
  function Overrun(i: Info, l: Layout, bg: nat): nat {
    if i.first + bg * i.per + i.per > l.len then i.first + bg * i.per + i.per - l.len else 0
  }

  /** A group as init_bg leaves it: free from its header to its end or, if that comes
      first, the end of the image. */
  ghost predicate IsInitial(g: Group, i: Info, l: Layout, bg: nat) {
    && g.base == i.first + bg * i.per && g.header == Header(i, bg)
    && g.limit <= i.per && g.base + g.limit <= l.len
    && (g.limit == i.per || g.base + g.limit == l.len)
    && g.header + g.free == g.limit && (g.free > 0 ==> g.first == g.header)
  }

  /** block_allocator_init: for a geometry in which every group has room for its header,
      the groups are those that all runs start from. */
  method BlockAllocatorInit(i: Info, l: Layout, bs: nat) returns (a: Allocator.BlockAllocator)
    requires InfoOk(i) && Geometry.Roomy(i, l) && i.per <= 8 * bs
    ensures a.Valid() && fresh(a.bgs) && fresh(a.Bitmaps()) && |a.View()| == l.groups
    ensures forall bg :: 0 <= bg < l.groups ==> IsInitial(a.View()[bg], i, l, bg)
    ensures Initial(State(a.View(), []), i.per)
  {
    var bgs: seq<BlockGroup> := [];
    for n := 0 to l.groups
      invariant |bgs| == n
      invariant forall k :: 0 <= k < n ==> fresh(bgs[k]) && fresh(bgs[k].bitmap)
      invariant forall k :: 0 <= k < n ==> bgs[k].Valid() && IsInitial(GroupOf(bgs[k]), i, l, k)
      invariant forall j, k :: 0 <= j < k < n ==> bgs[j] != bgs[k] && bgs[j].bitmap != bgs[k].bitmap
    {
      var bg := InitBg(i, l, bs, n);
      bgs := bgs + [bg];
    }
    a := new Allocator.BlockAllocator(bgs);
    forall bg | 0 <= bg < l.groups ensures IsInitial(a.View()[bg], i, l, bg) {
      assert a.View()[bg] == GroupOf(bgs[bg]);
    }
    InitialGroups(a.View(), i, l);
  }

  ghost function GroupOf(bg: BlockGroup): Group
    reads bg
  {
    Group(bg.firstBlock, bg.header, bg.limit, bg.firstFree, bg.freeBlocks)
  }

  /** The arguments of init_bg. */
  method InitBg(i: Info, l: Layout, bs: nat, n: nat) returns (bg: BlockGroup)
    requires InfoOk(i) && Geometry.Roomy(i, l) && i.per <= 8 * bs && n < l.groups
    ensures fresh(bg) && fresh(bg.bitmap) && bg.Valid() && IsInitial(GroupOf(bg), i, l, n)
  {
    var header := 2 + i.table;
    var super := BgHasSuperBlock(n, i.sparse);
    if super {
      header := header + 1 + i.desc + i.reserve;
    }
    assert header == Header(i, n) && Room(i, l.len, n);
    assert i.first + Header(i, n) <= i.per;
    bg := new BlockGroup(i.first + n * i.per, i.per, bs, header, Overrun(i, l, n));
  }

  lemma InitialGroups(gs: seq<Group>, i: Info, l: Layout)
    requires |gs| == l.groups && forall bg :: 0 <= bg < l.groups ==> IsInitial(gs[bg], i, l, bg)
    requires forall bg :: 0 <= bg < l.groups ==> GroupWf(gs[bg])
    ensures Initial(State(gs, []), i.per)
  {
    forall bg | 0 <= bg < |gs| ensures gs[bg].limit <= i.per && gs[bg].base == gs[0].base + bg * i.per {
      assert IsInitial(gs[bg], i, l, bg) && IsInitial(gs[0], i, l, 0);
    }
  }

  // ------------------------------------------------------------- runs of methods

  /** Blocks are asked for, or the last blocks of a region handed out go back. */
  datatype Request = Want(n: nat) | GiveBack(k: nat, len: nat)

  /** Whether blocks are the last ones that their group handed out, as
      reduce_allocation assumes. */
  predicate IsTail(gs: seq<Group>, live: seq<Region>, k: nat, len: nat) {
    && k < |live| && 0 < len <= live[k].len && live[k].bg < |gs|
    && live[k].block + live[k].len == gs[live[k].bg].base + gs[live[k].bg].first
    && len <= gs[live[k].bg].first
  }

  lemma {:induction false} RunOn(st: State, es: seq<Event>, e: Event)
    requires Run(st, es) && Enabled(End(st, es), e)
    ensures Run(st, es + [e]) && End(st, es + [e]) == Apply(End(st, es), e)
    decreases |es|
  {
    if es != [] {
      assert (es + [e])[1..] == es[1..] + [e];
      RunOn(Apply(st, es[0]), es[1..], e);
    } else {
      assert [e][1..] == [];
    }
  }

  /** ext4_allocate_best_fit as an event. */
  method Serve(a: Allocator.BlockAllocator, n: nat, live: seq<Region>) returns (live1: seq<Region>, ghost e: Event)
    requires a.Valid() && n > 0
    modifies a.bgs, a.Bitmaps()
    ensures a.Valid() && Enabled(State(old(a.View()), live), e)
    ensures Apply(State(old(a.View()), live), e) == State(a.View(), live1)
  {
    var ok, rs;
    ghost var part, left;
    ghost var gs := a.View();
    ok, rs, part, left := a.BestFit(n);
    if ok {
      live1, e := live + rs, Got(n, rs);
    } else {
      live1, e := live, Lost(n, part, a.View(), left);
    }
  }

  /** reduce_allocation of one region as an event. */
  method TakeBack(a: Allocator.BlockAllocator, k: nat, len: nat, live: seq<Region>)
    returns (live1: seq<Region>, ghost e: Event)
    requires a.Valid() && Inv(State(a.View(), live)) && IsTail(a.View(), live, k, len)
    modifies a.bgs, a.Bitmaps()
    ensures a.Valid() && Enabled(State(old(a.View()), live), e)
    ensures Apply(State(old(a.View()), live), e) == State(a.View(), live1)
  {
    var r := live[k];
    assert Inside(a.View(), r);
    a.GiveBack(r.bg, len);
    e := Returned(k, len);
    live1 := if len < r.len then live[k := r.(len := r.len - len)] else live[..k] + live[k + 1..];
  }

  /** The allocator is built and serves any sequence of requests; a request to give back
      what is not a tail is passed over. However the requests go, no block is handed out
      twice, and none of a header or past the end. */
  method ServeAll(i: Info, l: Layout, bs: nat, requests: seq<Request>)
    returns (a: Allocator.BlockAllocator, live: seq<Region>)
    requires InfoOk(i) && Geometry.Roomy(i, l) && i.per <= 8 * bs
    ensures a.Valid() && |a.View()| == l.groups && WellHandedOut(i, l, live)
  {
    a := BlockAllocatorInit(i, l, bs);
    ghost var gs := a.View();
    ghost var es;
    live, es := ServeFrom(a, requests, i.per);
    HandedOut(i, l, gs, es, live);
    InitialInv(State(gs, []), i.per);
    RunKeeps(State(gs, []), es);
  }

  /** The regions handed out and not given back: no block in two of them, and all blocks
      among those that their groups can hand out. */
  ghost predicate WellHandedOut(i: Info, l: Layout, live: seq<Region>) {
    && (forall x, y, block ::
          0 <= x < |live| && 0 <= y < |live| && Covers(live[x], block) && Covers(live[y], block) ==> x == y)
    && (forall x, block :: 0 <= x < |live| && Covers(live[x], block) ==>
          live[x].bg < l.groups && InData(i, l, live[x].bg, block))
  }

  lemma HandedOut(i: Info, l: Layout, gs: seq<Group>, es: seq<Event>, live: seq<Region>)
    requires |gs| == l.groups && forall bg :: 0 <= bg < l.groups ==> IsInitial(gs[bg], i, l, bg)
    requires Initial(State(gs, []), i.per)
    requires Run(State(gs, []), es) && End(State(gs, []), es).live == live
    ensures WellHandedOut(i, l, live)
  {
    var st := State(gs, []);
    forall x, y, block: nat | 0 <= x < |live| && 0 <= y < |live| && Covers(live[x], block) && Covers(live[y], block)
      ensures x == y && live[x].bg < l.groups && InData(i, l, live[x].bg, block)
    {
      LiveRegionsApart(st, i.per, es, x, y, block);
      assert IsInitial(gs[live[x].bg], i, l, live[x].bg);
    }
  }

  /** The requests, from a new allocator on, are a run. */
  method ServeFrom(a: Allocator.BlockAllocator, requests: seq<Request>, ghost per: nat)
    returns (live: seq<Region>, ghost es: seq<Event>)
    requires a.Valid() && Initial(State(a.View(), []), per)
    modifies a.bgs, a.Bitmaps()
    ensures a.Valid()
    ensures Run(State(old(a.View()), []), es) && End(State(old(a.View()), []), es) == State(a.View(), live)
  {
    live, es := [], [];
    ghost var st := State(a.View(), []);
    InitialInv(st, per);
    for n := 0 to |requests|
      invariant a.Valid() && Run(st, es) && End(st, es) == State(a.View(), live)
    {
      RunKeeps(st, es);
      ghost var e;
      var served;
      served, live, e := ServeOne(a, requests[n], live);
      if served {
        RunOn(st, es, e);
        es := es + [e];
      }
    }
  }

  /** A block of group bg behind its header and before the end of the image. */
  ghost predicate InData(i: Info, l: Layout, bg: nat, block: nat) {
    i.first + bg * i.per + Header(i, bg) <= block < i.first + bg * i.per + i.per && block < l.len
  }

  lemma InitialInv(st: State, per: nat)
    requires Initial(st, per)
    ensures Inv(st) && Run(st, []) && End(st, []) == st
  {
  }

  method ServeOne(a: Allocator.BlockAllocator, r: Request, live: seq<Region>)
    returns (served: bool, live1: seq<Region>, ghost e: Event)
    requires a.Valid() && Inv(State(a.View(), live))
    modifies a.bgs, a.Bitmaps()
    ensures a.Valid()
    ensures served ==> Enabled(State(old(a.View()), live), e) &&
                       Apply(State(old(a.View()), live), e) == State(a.View(), live1)
    ensures !served ==> a.View() == old(a.View()) && live1 == live
  {
    served, live1, e := false, live, Got(0, []);
    match r
    case Want(n) =>
      if n > 0 {
        live1, e := Serve(a, n, live);
        served := true;
      }
    case GiveBack(k, len) =>
      var tail := CheckTail(a, live, k, len);
      if tail {
        live1, e := TakeBack(a, k, len, live);
        served := true;
      }
  }

  method CheckTail(a: Allocator.BlockAllocator, live: seq<Region>, k: nat, len: nat) returns (tail: bool)
    ensures tail <==> IsTail(a.View(), live, k, len)
  {
    if k >= |live| || len == 0 || len > live[k].len || live[k].bg >= |a.bgs| {
      return false;
    }
    var bg := a.bgs[live[k].bg];
    tail := live[k].block + live[k].len == bg.firstBlock + bg.firstFree && len <= bg.firstFree;
  }
}
