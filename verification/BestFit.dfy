/** What the best-fit search promises: which regions an allocation is made of, and
    that no allocation gets by with fewer (android/ext4_utils/src/allocate.c). */
module BestFit {
  import opened Arithmetic

  /** The free range of a block group: first .. first + free, counted from base. */
  datatype Group = Group(base: nat, header: nat, limit: nat, first: nat, free: nat)

  datatype Region = Region(bg: nat, block: nat, len: nat)

  function TotalFree(gs: seq<Group>): nat {
    if gs == [] then 0 else gs[0].free + TotalFree(gs[1..])
  }

  function TotalLen(rs: seq<Region>): nat {
    if rs == [] then 0 else rs[0].len + TotalLen(rs[1..])
  }

  /** The first of the smallest groups that n blocks fit in or, if there is none, the first
      of the largest. */
  ghost predicate IsBest(gs: seq<Group>, n: nat, g: nat) {
    && g < |gs| && gs[g].free > 0
    && (forall j :: 0 <= j < g ==> gs[j].free != gs[g].free)
    && if n <= gs[g].free
       then forall j :: 0 <= j < |gs| && n <= gs[j].free ==> gs[g].free <= gs[j].free
       else forall j :: 0 <= j < |gs| ==> gs[j].free <= gs[g].free
  }

  function Carve(g: Group, len: nat): Group
    requires len <= g.free
  {
    g.(first := g.first + len, free := g.free - len)
  }

  /** The last len blocks handed out go back. */
  function Restore(g: Group, len: nat): Group
    requires len <= g.first
  {
    g.(first := g.first - len, free := g.free + len)
  }

  /** r is the next region that best fit hands out when n blocks are wanted. */
  ghost predicate NextBest(gs: seq<Group>, r: Region, n: nat) {
    && n > 0 && IsBest(gs, n, r.bg)
    && r.len == (if n <= gs[r.bg].free then n else gs[r.bg].free)
    && r.block == gs[r.bg].base + gs[r.bg].first
  }

  /** The groups without region r. */
  ghost function Without(gs: seq<Group>, r: Region): seq<Group>
    requires r.bg < |gs| && r.len <= gs[r.bg].free
  {
    gs[r.bg := Carve(gs[r.bg], r.len)]
  }

  /** rs is what repeated best fit hands out for n blocks. */
  ghost predicate Greedy(gs: seq<Group>, rs: seq<Region>, n: nat)
    decreases |rs|
  {
    if rs == [] then n == 0
    else
      NextBest(gs, rs[0], n) && Greedy(Without(gs, rs[0]), rs[1..], n - rs[0].len)
  }

  /** The groups afterwards. */
  ghost function After(gs: seq<Group>, rs: seq<Region>, n: nat): seq<Group>
    requires Greedy(gs, rs, n)
    decreases |rs|
  {
    if rs == [] then gs
    else After(Without(gs, rs[0]), rs[1..], n - rs[0].len)
  }

  /** From gs with n blocks wanted, rs leads to gs1 with n1 still wanted. */
  ghost predicate Leads(gs: seq<Group>, rs: seq<Region>, n: nat, gs1: seq<Group>, n1: nat)
    decreases |rs|
  {
    if rs == [] then gs == gs1 && n == n1
    else NextBest(gs, rs[0], n) && Leads(Without(gs, rs[0]), rs[1..], n - rs[0].len, gs1, n1)
  }

  lemma {:induction false} LeadsOn(gs: seq<Group>, rs: seq<Region>, n: nat, gs1: seq<Group>, n1: nat,
                                   r: Region)
    requires Leads(gs, rs, n, gs1, n1) && NextBest(gs1, r, n1)
    ensures Leads(gs, rs + [r], n, Without(gs1, r), n1 - r.len)
    decreases |rs|
  {
    if rs != [] {
      assert (rs + [r])[1..] == rs[1..] + [r];
      LeadsOn(Without(gs, rs[0]), rs[1..], n - rs[0].len, gs1, n1, r);
    }
  }

  lemma {:induction false} LeadsToEnd(gs: seq<Group>, rs: seq<Region>, n: nat, gs1: seq<Group>)
    requires Leads(gs, rs, n, gs1, 0)
    ensures Greedy(gs, rs, n) && After(gs, rs, n) == gs1
    decreases |rs|
  {
    if rs != [] {
      LeadsToEnd(Without(gs, rs[0]), rs[1..], n - rs[0].len, gs1);
    }
  }

  lemma {:induction false} LeadsTotal(gs: seq<Group>, rs: seq<Region>, n: nat, gs1: seq<Group>, n1: nat)
    requires Leads(gs, rs, n, gs1, n1)
    ensures n1 <= n && TotalFree(gs1) == TotalFree(gs) - (n - n1)
    decreases |rs|
  {
    if rs != [] {
      TotalUpdate(gs, rs[0].bg, Carve(gs[rs[0].bg], rs[0].len));
      LeadsTotal(Without(gs, rs[0]), rs[1..], n - rs[0].len, gs1, n1);
    }
  }

  lemma {:induction false} NoneFree(gs: seq<Group>)
    requires forall i :: 0 <= i < |gs| ==> gs[i].free == 0
    ensures TotalFree(gs) == 0
  {
    if gs != [] {
      NoneFree(gs[1..]);
    }
  }

  lemma {:induction false} TotalUpdate(gs: seq<Group>, i: nat, g: Group)
    requires i < |gs|
    ensures TotalFree(gs[i := g]) == TotalFree(gs) - gs[i].free + g.free
    decreases |gs|
  {
    if i == 0 {
      assert gs[i := g][1..] == gs[1..];
    } else {
      assert gs[i := g][1..] == gs[1..][i - 1 := g];
      TotalUpdate(gs[1..], i - 1, g);
    }
  }

  lemma {:induction false} TotalBound(gs: seq<Group>, i: nat)
    requires i < |gs|
    ensures gs[i].free <= TotalFree(gs)
  {
    if i > 0 {
      TotalBound(gs[1..], i - 1);
    }
  }

  /** The lengths add up, and what is handed out is what is no longer free. */
  lemma {:induction false} GreedyTotal(gs: seq<Group>, rs: seq<Region>, n: nat)
    requires Greedy(gs, rs, n)
    ensures TotalLen(rs) == n
    ensures |After(gs, rs, n)| == |gs|
    ensures TotalFree(After(gs, rs, n)) == TotalFree(gs) - n
    decreases |rs|
  {
    if rs != [] {
      var r := rs[0];
      TotalUpdate(gs, r.bg, Carve(gs[r.bg], r.len));
      GreedyTotal(gs[r.bg := Carve(gs[r.bg], r.len)], rs[1..], n - r.len);
    }
  }

  /** A region is not empty and lies in the free range of its group. */
  lemma {:induction false} GreedyInside(gs: seq<Group>, rs: seq<Region>, n: nat, i: nat)
    requires Greedy(gs, rs, n) && i < |rs|
    ensures rs[i].bg < |gs| && 0 < rs[i].len <= gs[rs[i].bg].free
    decreases |rs|
  {
    if i > 0 {
      var r := rs[0];
      GreedyInside(gs[r.bg := Carve(gs[r.bg], r.len)], rs[1..], n - r.len, i - 1);
    }
  }

  /** The shape of an allocation: one region from each of several groups, at the
      start of its free range, and every region but the last is all that its
      group had left. */
  lemma {:induction false} GreedyShape(gs: seq<Group>, rs: seq<Region>, n: nat)
    requires Greedy(gs, rs, n)
    ensures forall i :: 0 <= i < |rs| ==>
              && rs[i].bg < |gs| && 0 < rs[i].len <= gs[rs[i].bg].free
              && rs[i].block == gs[rs[i].bg].base + gs[rs[i].bg].first
    ensures forall i, j :: 0 <= i < j < |rs| ==> rs[i].bg != rs[j].bg
    ensures forall i :: 0 <= i < |rs| - 1 ==> rs[i].len == gs[rs[i].bg].free
    decreases |rs|
  {
    if rs != [] {
      var r := rs[0];
      var gs1 := gs[r.bg := Carve(gs[r.bg], r.len)];
      GreedyShape(gs1, rs[1..], n - r.len);
      if |rs| > 1 {
        assert gs1[r.bg].free == 0;
        assert forall i :: 1 <= i < |rs| ==> rs[i] == rs[1..][i - 1];
      }
    }
  }

  /** A group that no region is from is as before. */
  lemma {:induction false} AfterOthers(gs: seq<Group>, rs: seq<Region>, n: nat, g: nat)
    requires Greedy(gs, rs, n) && g < |gs|
    requires forall i :: 0 <= i < |rs| ==> rs[i].bg != g
    ensures |After(gs, rs, n)| == |gs| && After(gs, rs, n)[g] == gs[g]
    decreases |rs|
  {
    if rs != [] {
      AfterOthers(Without(gs, rs[0]), rs[1..], n - rs[0].len, g);
    }
  }

  /** A group that a region is from has lost that region. */
  lemma {:induction false} AfterTaken(gs: seq<Group>, rs: seq<Region>, n: nat, i: nat)
    requires Greedy(gs, rs, n) && i < |rs|
    ensures |After(gs, rs, n)| == |gs| && rs[i].bg < |gs| && rs[i].len <= gs[rs[i].bg].free
    ensures After(gs, rs, n)[rs[i].bg] == Carve(gs[rs[i].bg], rs[i].len)
    decreases |rs|
  {
    GreedyShape(gs, rs, n);
    var gs1 := Without(gs, rs[0]);
    if i == 0 {
      AfterOthers(gs1, rs[1..], n - rs[0].len, rs[0].bg);
    } else {
      AfterTaken(gs1, rs[1..], n - rs[0].len, i - 1);
    }
  }

  /** What the groups look like afterwards. */
  lemma AfterShape(gs: seq<Group>, rs: seq<Region>, n: nat)
    requires Greedy(gs, rs, n)
    ensures var gs1 := After(gs, rs, n);
            && |gs1| == |gs|
            && (forall i :: 0 <= i < |rs| ==>
                  rs[i].bg < |gs| && rs[i].len <= gs[rs[i].bg].free
                  && gs1[rs[i].bg] == Carve(gs[rs[i].bg], rs[i].len))
            && (forall g :: 0 <= g < |gs| && (forall i :: 0 <= i < |rs| ==> rs[i].bg != g) ==>
                  gs1[g] == gs[g])
  {
    if rs != [] {
      AfterTaken(gs, rs, n, 0);
    }
    forall i | 0 <= i < |rs|
      ensures rs[i].bg < |gs| && rs[i].len <= gs[rs[i].bg].free
              && After(gs, rs, n)[rs[i].bg] == Carve(gs[rs[i].bg], rs[i].len)
    {
      AfterTaken(gs, rs, n, i);
    }
    forall g | 0 <= g < |gs| && (forall i :: 0 <= i < |rs| ==> rs[i].bg != g)
      ensures After(gs, rs, n)[g] == gs[g]
    {
      AfterOthers(gs, rs, n, g);
    }
  }

  // ---------------------------------------------------------- fewest regions

  /** Some way to take blocks from the groups. */
  ghost predicate Possible(gs: seq<Group>, amounts: seq<nat>) {
    |amounts| == |gs| && forall i :: 0 <= i < |gs| ==> amounts[i] <= gs[i].free
  }

  function Amount(amounts: seq<nat>): nat {
    if amounts == [] then 0 else amounts[0] + Amount(amounts[1..])
  }

  function GroupsUsed(amounts: seq<nat>): nat {
    if amounts == [] then 0 else (if amounts[0] > 0 then 1 else 0) + GroupsUsed(amounts[1..])
  }

  lemma {:induction false} DropGroup(amounts: seq<nat>, i: nat)
    requires i < |amounts|
    ensures Amount(amounts[i := 0]) == Amount(amounts) - amounts[i]
    ensures GroupsUsed(amounts[i := 0]) == GroupsUsed(amounts) - (if amounts[i] > 0 then 1 else 0)
  {
    if i == 0 {
      assert amounts[i := 0][1..] == amounts[1..];
    } else {
      assert amounts[i := 0][1..] == amounts[1..][i - 1 := 0];
      DropGroup(amounts[1..], i - 1);
    }
  }

  lemma {:induction false} SomeGroup(amounts: seq<nat>) returns (i: nat)
    requires Amount(amounts) > 0
    ensures i < |amounts| && amounts[i] > 0
  {
    if amounts[0] > 0 {
      i := 0;
    } else {
      i := SomeGroup(amounts[1..]);
      i := i + 1;
    }
  }

  /** However n blocks are taken from the groups, at least as many groups are
      touched as best fit touches. */
  lemma {:induction false} FewestRegions(gs: seq<Group>, rs: seq<Region>, n: nat, amounts: seq<nat>)
    requires Greedy(gs, rs, n) && Possible(gs, amounts) && Amount(amounts) >= n
    ensures GroupsUsed(amounts) >= |rs|
    decreases |rs|
  {
    if rs != [] {
      var r := rs[0];
      var x := SomeGroup(amounts);
      var g := if amounts[r.bg] > 0 then r.bg else x;
      DropGroup(amounts, g);
      if |rs| > 1 {
        assert rs[1..] != [];
        assert amounts[g] <= gs[r.bg].free;
        FewestRegions(gs[r.bg := Carve(gs[r.bg], r.len)], rs[1..], n - r.len, amounts[g := 0]);
      }
    }
  }

  /** A choice that leads to nothing left to take is a complete one. */
  lemma LeadsDone(gs: seq<Group>, rs: seq<Region>, n: nat, gs1: seq<Group>)
    requires Leads(gs, rs, n, gs1, 0)
    ensures Greedy(gs, rs, n) && After(gs, rs, n) == gs1 && n <= TotalFree(gs)
    ensures rs == [] <==> n == 0
  {
    LeadsToEnd(gs, rs, n, gs1);
    LeadsTotal(gs, rs, n, gs1, 0);
  }

  // --------------------------------------------------- how many regions it takes

  /** n blocks can be taken from k groups. */
  ghost predicate FitsIn(gs: seq<Group>, n: nat, k: nat) {
    exists amounts :: Possible(gs, amounts) && Amount(amounts) >= n && GroupsUsed(amounts) <= k
  }

  function Nothing(m: nat): seq<nat> {
    if m == 0 then [] else [0] + Nothing(m - 1)
  }

  lemma {:induction false} NothingTaken(gs: seq<Group>)
    ensures Possible(gs, Nothing(|gs|)) && Amount(Nothing(|gs|)) == 0 && GroupsUsed(Nothing(|gs|)) == 0
  {
    if gs != [] {
      NothingTaken(gs[1..]);
      assert Nothing(|gs|)[1..] == Nothing(|gs[1..]|);
      assert forall i :: 1 <= i < |gs| ==> gs[i] == gs[1..][i - 1] && Nothing(|gs|)[i] == Nothing(|gs[1..]|)[i - 1];
    }
  }

  /** The amounts that an allocation takes from the groups. */
  lemma {:induction false} GreedyAmounts(gs: seq<Group>, rs: seq<Region>, n: nat) returns (amounts: seq<nat>)
    requires Greedy(gs, rs, n)
    ensures Possible(gs, amounts) && Amount(amounts) == n && GroupsUsed(amounts) == |rs|
    decreases |rs|
  {
    if rs == [] {
      NothingTaken(gs);
      amounts := Nothing(|gs|);
    } else {
      var r := rs[0];
      var rest := GreedyAmounts(Without(gs, r), rs[1..], n - r.len);
      if |rs| > 1 {
        assert rs[1..] != [];
        assert Without(gs, r)[r.bg].free == 0;
      } else {
        NoneUsed(rest, r.bg);
      }
      amounts := rest[r.bg := r.len];
      DropGroup(amounts, r.bg);
      assert amounts[r.bg := 0] == rest;
    }
  }

  lemma {:induction false} NoneUsed(amounts: seq<nat>, i: nat)
    requires i < |amounts| && GroupsUsed(amounts) == 0
    ensures amounts[i] == 0
    decreases |amounts|
  {
    if i > 0 {
      NoneUsed(amounts[1..], i - 1);
    }
  }

  /** The number of regions of an allocation, from the groups alone. */
  lemma RegionCount(gs: seq<Group>, rs: seq<Region>, n: nat, k: nat)
    requires Greedy(gs, rs, n)
    ensures |rs| <= k <==> FitsIn(gs, n, k)
  {
    if |rs| <= k {
      var amounts := GreedyAmounts(gs, rs, n);
      assert Possible(gs, amounts);
    }
    if FitsIn(gs, n, k) {
      var amounts :| Possible(gs, amounts) && Amount(amounts) >= n && GroupsUsed(amounts) <= k;
      FewestRegions(gs, rs, n, amounts);
    }
  }

  lemma {:induction false} AmountFree(gs: seq<Group>, amounts: seq<nat>)
    requires Possible(gs, amounts)
    ensures Amount(amounts) <= TotalFree(gs)
    decreases |gs|
  {
    if gs != [] {
      assert forall i :: 0 <= i < |gs| - 1 ==> amounts[1..][i] == amounts[i + 1] && gs[1..][i] == gs[i + 1];
      AmountFree(gs[1..], amounts[1..]);
    }
  }

  lemma FitsTotal(gs: seq<Group>, n: nat, k: nat)
    ensures FitsIn(gs, n, k) ==> n <= TotalFree(gs)
  {
    if FitsIn(gs, n, k) {
      var amounts :| Possible(gs, amounts) && Amount(amounts) >= n && GroupsUsed(amounts) <= k;
      AmountFree(gs, amounts);
    }
  }

  // ------------------------------------------------------- groups all alike

  /** m groups of per blocks, each with free blocks left after its header. */
  function Alike(m: nat, per: nat, free: nat): seq<Group>
    requires free <= per
  {
    seq(m, (g: nat) => Group(1 + g * per, per - free, per, per - free, free))
  }

  function Each(m: nat, k: nat, free: nat): seq<nat> {
    if m == 0 then [] else [if k > 0 then free else 0] + Each(m - 1, if k > 0 then k - 1 else 0, free)
  }

  lemma {:induction false} EachAmount(m: nat, k: nat, free: nat)
    requires k <= m && free > 0
    ensures |Each(m, k, free)| == m && Amount(Each(m, k, free)) == k * free && GroupsUsed(Each(m, k, free)) == k
    ensures forall i :: 0 <= i < m ==> Each(m, k, free)[i] <= free
    decreases m
  {
    if m > 0 {
      var k1 := if k > 0 then k - 1 else 0;
      EachAmount(m - 1, k1, free);
      assert Each(m, k, free)[1..] == Each(m - 1, k1, free);
      if k > 0 {
        assert k * free == (k - 1) * free + free;
      }
    }
  }

  lemma {:induction false} AmountBound(amounts: seq<nat>, free: nat)
    requires forall i :: 0 <= i < |amounts| ==> amounts[i] <= free
    ensures Amount(amounts) <= GroupsUsed(amounts) * free
  {
    if amounts != [] {
      AmountBound(amounts[1..], free);
      assert (1 + GroupsUsed(amounts[1..])) * free == free + GroupsUsed(amounts[1..]) * free;
    }
  }

  lemma AlikeFits(m: nat, per: nat, free: nat, n: nat, k: nat)
    requires 0 < free <= per && k <= m
    ensures FitsIn(Alike(m, per, free), n, k) <==> n <= k * free
  {
    var gs := Alike(m, per, free);
    if n <= k * free {
      EachAmount(m, k, free);
      assert Possible(gs, Each(m, k, free));
    }
    if FitsIn(gs, n, k) {
      var amounts :| Possible(gs, amounts) && Amount(amounts) >= n && GroupsUsed(amounts) <= k;
      AmountBound(amounts, free);
      MulUp(GroupsUsed(amounts), k, free);
    }
  }
}
