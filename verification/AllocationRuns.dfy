/** Every run of allocations and tail releases: what is handed out stays apart,
    clear of headers and inside the image (android/ext4_utils/src/allocate.c). */
module AllocationRuns {
  import opened Arithmetic
  import opened BestFit

  /** The groups, and the regions handed out and not given back. */
  datatype State = State(gs: seq<Group>, live: seq<Region>)

  /** An allocation that succeeded, one that failed and lost what it had taken,
      or the last `len` blocks of live region k given back. */
  datatype Event =
    | Got(n: nat, rs: seq<Region>)
    | Lost(n: nat, rs: seq<Region>, gs1: seq<Group>, n1: nat)
    | Returned(k: nat, len: nat)

  ghost predicate Enabled(st: State, e: Event) {
    match e
    case Got(n, rs) => n > 0 && Greedy(st.gs, rs, n)
    case Lost(n, rs, gs1, n1) => Leads(st.gs, rs, n, gs1, n1) && n1 > 0
    case Returned(k, len) =>
      // reduce_allocation assumes that these were the last blocks handed out of the group
      && k < |st.live| && 0 < len <= st.live[k].len
      && st.live[k].bg < |st.gs|
      && st.live[k].block + st.live[k].len
           == st.gs[st.live[k].bg].base + st.gs[st.live[k].bg].first
      && len <= st.gs[st.live[k].bg].first
  }

  ghost function Apply(st: State, e: Event): State
    requires Enabled(st, e)
  {
    match e
    case Got(n, rs) => State(After(st.gs, rs, n), st.live + rs)
    case Lost(_, _, gs1, _) => State(gs1, st.live)
    case Returned(k, len) =>
      var r := st.live[k];
      var g := st.gs[r.bg];
      State(st.gs[r.bg := Restore(g, len)],
            if len < r.len then st.live[k := r.(len := r.len - len)]
            else st.live[..k] + st.live[k + 1..])
  }

  ghost predicate GroupWf(g: Group) {
    && 0 < g.header <= g.first
    && (g.first + g.free == g.limit || (g.free == 0 && g.header == g.limit))
  }

  /** A region lies among the blocks its group has handed out. */
  ghost predicate Inside(gs: seq<Group>, r: Region) {
    && r.bg < |gs| && r.len > 0
    && gs[r.bg].base + gs[r.bg].header <= r.block
    && r.block + r.len <= gs[r.bg].base + gs[r.bg].first
    && r.block + r.len <= gs[r.bg].base + gs[r.bg].limit
  }

  predicate Apart(a: Region, b: Region) {
    a.bg != b.bg || a.block + a.len <= b.block || b.block + b.len <= a.block
  }

  ghost predicate Inv(st: State) {
    && (forall g :: 0 <= g < |st.gs| ==> GroupWf(st.gs[g]))
    && (forall i :: 0 <= i < |st.live| ==> Inside(st.gs, st.live[i]))
    && (forall i, j :: 0 <= i < j < |st.live| ==> Apart(st.live[i], st.live[j]))
  }

  lemma {:induction false} LeadsKeeps(gs: seq<Group>, rs: seq<Region>, n: nat, gs1: seq<Group>, n1: nat)
    requires Leads(gs, rs, n, gs1, n1) && forall g :: 0 <= g < |gs| ==> GroupWf(gs[g])
    ensures |gs1| == |gs| && forall g :: 0 <= g < |gs| ==>
              && GroupWf(gs1[g]) && gs1[g].first >= gs[g].first
              && gs1[g] == gs[g].(first := gs1[g].first, free := gs1[g].free)
    decreases |rs|
  {
    if rs != [] {
      LeadsKeeps(Without(gs, rs[0]), rs[1..], n - rs[0].len, gs1, n1);
    }
  }

  lemma {:induction false} GreedyLeads(gs: seq<Group>, rs: seq<Region>, n: nat)
    requires Greedy(gs, rs, n)
    ensures Leads(gs, rs, n, After(gs, rs, n), 0)
    decreases |rs|
  {
    if rs != [] {
      GreedyLeads(Without(gs, rs[0]), rs[1..], n - rs[0].len);
    }
  }

  lemma GotKeeps(st: State, n: nat, rs: seq<Region>)
    requires Inv(st) && n > 0 && Greedy(st.gs, rs, n)
    ensures Inv(Apply(st, Got(n, rs)))
  {
    var gs1 := After(st.gs, rs, n);
    GreedyLeads(st.gs, rs, n);
    LeadsKeeps(st.gs, rs, n, gs1, 0);
    GreedyShape(st.gs, rs, n);
    AfterShape(st.gs, rs, n);
    var live1 := st.live + rs;
    forall i | 0 <= i < |live1| ensures Inside(gs1, live1[i]) {
      if i < |st.live| {
        assert Inside(st.gs, st.live[i]);
      } else {
        var r := rs[i - |st.live|];
        assert gs1[r.bg] == Carve(st.gs[r.bg], r.len);
      }
    }
    forall i, j | 0 <= i < j < |live1| ensures Apart(live1[i], live1[j]) {
      if j < |st.live| {
        assert Apart(st.live[i], st.live[j]);
      } else if i < |st.live| {
        assert Inside(st.gs, st.live[i]);
      }
    }
  }

  lemma LostKeeps(st: State, n: nat, rs: seq<Region>, gs1: seq<Group>, n1: nat)
    requires Inv(st) && Leads(st.gs, rs, n, gs1, n1) && n1 > 0
    ensures Inv(Apply(st, Lost(n, rs, gs1, n1)))
  {
    LeadsKeeps(st.gs, rs, n, gs1, n1);
    forall i | 0 <= i < |st.live| ensures Inside(gs1, st.live[i]) {
      assert Inside(st.gs, st.live[i]);
    }
  }

  lemma ReturnedKeeps(st: State, k: nat, len: nat)
    requires Inv(st) && Enabled(st, Returned(k, len))
    ensures Inv(Apply(st, Returned(k, len)))
  {
    var r := st.live[k];
    var st1 := Apply(st, Returned(k, len));
    assert Inside(st.gs, r);
    forall i | 0 <= i < |st1.live| ensures Inside(st1.gs, st1.live[i]) {
      var was := if len < r.len || i < k then i else i + 1;
      assert Inside(st.gs, st.live[was]);
      if was != k {
        assert if was < k then Apart(st.live[was], r) else Apart(r, st.live[was]);
      }
    }
    forall i, j | 0 <= i < j < |st1.live| ensures Apart(st1.live[i], st1.live[j]) {
      var wasI := if len < r.len || i < k then i else i + 1;
      var wasJ := if len < r.len || j < k then j else j + 1;
      assert Apart(st.live[wasI], st.live[wasJ]);
    }
  }

  /** A run from st: each event enabled in turn. */
  ghost predicate Run(st: State, es: seq<Event>)
    decreases |es|
  {
    es == [] || (Enabled(st, es[0]) && Run(Apply(st, es[0]), es[1..]))
  }

  ghost function End(st: State, es: seq<Event>): State
    requires Run(st, es)
    decreases |es|
  {
    if es == [] then st else End(Apply(st, es[0]), es[1..])
  }

  /** The groups as init_bg leaves them. */
  ghost predicate Initial(st: State, per: nat) {
    && st.live == []
    && forall i :: 0 <= i < |st.gs| ==>
         && GroupWf(st.gs[i]) && st.gs[i].limit <= per
         && st.gs[i].base == st.gs[0].base + i * per
  }

  /** Only the free ranges of the groups move. */
  ghost predicate SameGroups(gs: seq<Group>, gs1: seq<Group>) {
    |gs1| == |gs| && forall g :: 0 <= g < |gs| ==>
      gs1[g].base == gs[g].base && gs1[g].header == gs[g].header && gs1[g].limit == gs[g].limit
  }

  lemma StepKeeps(st: State, e: Event)
    requires Inv(st) && Enabled(st, e)
    ensures Inv(Apply(st, e)) && SameGroups(st.gs, Apply(st, e).gs)
  {
    match e
    case Got(n, rs) =>
      GotKeeps(st, n, rs);
      GreedyLeads(st.gs, rs, n);
      LeadsKeeps(st.gs, rs, n, After(st.gs, rs, n), 0);
    case Lost(n, rs, gs1, n1) =>
      LostKeeps(st, n, rs, gs1, n1);
      LeadsKeeps(st.gs, rs, n, gs1, n1);
    case Returned(k, len) =>
      ReturnedKeeps(st, k, len);
  }

  lemma {:induction false} RunKeeps(st: State, es: seq<Event>)
    requires Inv(st) && Run(st, es)
    ensures Inv(End(st, es)) && SameGroups(st.gs, End(st, es).gs)
    decreases |es|
  {
    if es != [] {
      StepKeeps(st, es[0]);
      RunKeeps(Apply(st, es[0]), es[1..]);
    }
  }

  predicate Covers(r: Region, block: nat) {
    r.block <= block < r.block + r.len
  }

  /** After every run, a block of the image belongs to at most one live region,
      and none of a region's blocks is a header block or past its group's end. */
  lemma LiveRegionsApart(st: State, per: nat, es: seq<Event>, i: nat, j: nat, block: nat)
    requires Initial(st, per) && Run(st, es)
    requires i < |End(st, es).live| && j < |End(st, es).live|
    requires Covers(End(st, es).live[i], block) && Covers(End(st, es).live[j], block)
    ensures i == j
    ensures var r := End(st, es).live[i];
            r.bg < |st.gs| &&
            var g := st.gs[r.bg];
            g.base + g.header <= block < g.base + g.limit
  {
    RunKeeps(st, es);
    var st1 := End(st, es);
    var a, b := st1.live[i], st1.live[j];
    assert Inside(st1.gs, a) && Inside(st1.gs, b);
    if i < j {
      assert Apart(a, b);
    } else if j < i {
      assert Apart(b, a);
    }
    if a.bg != b.bg {
      GroupsApart(st.gs[0].base, per, a.bg, b.bg, block);
    }
  }

  lemma GroupsApart(base: nat, per: nat, g: nat, h: nat, block: nat)
    requires base + g * per <= block < base + g * per + per
    requires base + h * per <= block < base + h * per + per
    ensures g == h
  {
    if g < h {
      MulStep(g, h, per);
    } else if h < g {
      MulStep(h, g, per);
    }
  }

  ghost predicate NothingLost(es: seq<Event>) {
    forall i :: 0 <= i < |es| ==> !es[i].Lost?
  }

  lemma {:induction false} TotalLenConcat(a: seq<Region>, b: seq<Region>)
    ensures TotalLen(a + b) == TotalLen(a) + TotalLen(b)
    decreases |a|
  {
    if a == [] {
      assert a + b == b;
    } else {
      assert (a + b)[1..] == a[1..] + b;
      TotalLenConcat(a[1..], b);
    }
  }

  lemma TotalLenAround(rs: seq<Region>, k: nat)
    requires k < |rs|
    ensures TotalLen(rs) == TotalLen(rs[..k]) + rs[k].len + TotalLen(rs[k + 1..])
  {
    assert rs == rs[..k] + rs[k..];
    TotalLenConcat(rs[..k], rs[k..]);
    assert rs[k..][1..] == rs[k + 1..];
  }

  lemma StepConserves(st: State, e: Event)
    requires Enabled(st, e) && !e.Lost?
    ensures var st1 := Apply(st, e);
            TotalFree(st1.gs) + TotalLen(st1.live) == TotalFree(st.gs) + TotalLen(st.live)
  {
    match e
    case Got(n, rs) =>
      GreedyTotal(st.gs, rs, n);
      TotalLenConcat(st.live, rs);
    case Returned(k, len) =>
      var r := st.live[k];
      var g := st.gs[r.bg];
      TotalUpdate(st.gs, r.bg, Restore(g, len));
      TotalLenAround(st.live, k);
      if len < r.len {
        var live1 := st.live[k := r.(len := r.len - len)];
        TotalLenAround(live1, k);
        assert live1[..k] == st.live[..k] && live1[k + 1..] == st.live[k + 1..];
      } else {
        TotalLenConcat(st.live[..k], st.live[k + 1..]);
      }
  }

  /** Blocks are neither made nor lost, as long as no allocation fails half-way. */
  lemma {:induction false} BlocksConserved(st: State, es: seq<Event>)
    requires Run(st, es) && NothingLost(es)
    ensures TotalFree(End(st, es).gs) + TotalLen(End(st, es).live)
              == TotalFree(st.gs) + TotalLen(st.live)
    decreases |es|
  {
    if es != [] {
      StepConserves(st, es[0]);
      BlocksConserved(Apply(st, es[0]), es[1..]);
    }
  }
}
