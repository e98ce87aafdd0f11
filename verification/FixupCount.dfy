/** The block writes of a renumbering pass, counted on the image that it starts from
    (android/ext4_utils/src/ext4fixup.c, recurse_dir). */
module FixupCount {
  import opened InodeNumbers
  import opened FixupModel
  import opened FixupLiveness

  /** Block writes, and the directories that have been written. */
  datatype Tally = Tally(writes: nat, past: set<Slot>)

  function Blocks(dir: Dir): nat {
    if dir.cuts == [] then 0 else |dir.cuts| - 1
  }

  /** Record i of directory d makes the pass descend: by its name and type, and in the
      update pass by its mark, which is gone once the directory has been written. */
  ghost predicate Leads(p: Phase, c: Cfg, disk: Disk, past: set<Slot>, d: Slot, i: nat)
    requires c.ipg0 > 0 && d in disk && i < LiveLen(disk[d].entries)
  {
    && Descends(p, disk, disk[d].entries[i], c.ipg0)
    && (p.Updating? ==> d !in past)
    && c.rank(LeadsTo(c, disk, d, i)) < c.rank(d)
  }

  ghost function LeadsTo(c: Cfg, disk: Disk, d: Slot, i: nat): Slot
    requires c.ipg0 > 0 && d in disk && i < LiveLen(disk[d].entries)
  {
    SlotOf(Strip(disk[d].entries[i].ino), c.ipg0)
  }

  /** The writes at and below d of a pass that has written the directories of `past`: the
      blocks of d, and those of every descent. */
  ghost function Count(p: Phase, c: Cfg, disk: Disk, d: Slot, past: set<Slot>): Tally
    requires c.ipg0 > 0
    decreases c.rank(d), 1, 0
  {
    if d !in disk then Tally(0, past)
    else
      var below := CountFrom(p, c, disk, d, 0, past);
      Tally(below.writes + Blocks(disk[d]), below.past + {d})
  }

  /** The writes below the records of d from record i on. */
  ghost function CountFrom(p: Phase, c: Cfg, disk: Disk, d: Slot, i: nat, past: set<Slot>): Tally
    requires c.ipg0 > 0 && d in disk
    decreases c.rank(d), 0, LiveLen(disk[d].entries) - i
  {
    if i >= LiveLen(disk[d].entries) then Tally(0, past)
    else if Leads(p, c, disk, past, d, i) then
      var first := Count(p, c, disk, LeadsTo(c, disk, d, i), past);
      var rest := CountFrom(p, c, disk, d, i + 1, first.past);
      Tally(first.writes + rest.writes, rest.past)
    else CountFrom(p, c, disk, d, i + 1, past)
  }

  // --------------------------------------------------------------- the proofs

  /** A directory under way is as the pass found it, or written. */
  ghost predicate DirSoFar(p: Phase, c: Cfg, g: Graph, disk: Disk, past: set<Slot>, now: Disk, x: Slot)
    requires c.ipg0 > 0
  {
    if x in past then FinishedDir(p, c, g, now, x) else x in disk && x in now && now[x] == disk[x]
  }

  /** The pass started from `disk`, has written `past`, and stands at `now`. */
  ghost predicate SoFar(p: Phase, c: Cfg, g: Graph, disk: Disk, past: set<Slot>, now: Disk) {
    && Inv(p, c, g, disk) && Inv(p, c, g, now)
    && forall x {:trigger DirSoFar(p, c, g, disk, past, now, x)} :: x in g.reach ==>
         DirSoFar(p, c, g, disk, past, now, x)
  }

  /** A finished record does not make the update pass descend. */
  lemma FinishedStops(c: Cfg, g: Graph, disk: Disk, d: Slot, i: nat)
    requires Inv(Updating, c, g, disk) && d in g.reach && FinishedDir(Updating, c, g, disk, d)
    requires i < LiveLen(disk[d].entries)
    ensures !Descends(Updating, disk, disk[d].entries[i], c.ipg0)
  {
    assert DirWf(c, g.disk0[d]) && DirStage(Updating, c, g.disk0[d], disk[d]);
    SameLive(Updating, c, g.disk0[d], disk[d]);
    EditStep(Updating, c, g.disk0[d].entries[i]);
  }

  /** Where the pass stands, it descends exactly where the count does. */
  lemma SameDescent(p: Phase, c: Cfg, g: Graph, disk: Disk, past: set<Slot>, now: Disk, d: Slot, i: nat)
    requires SoFar(p, c, g, disk, past, now) && d in g.reach && i < LiveLen(now[d].entries)
    ensures LiveLen(disk[d].entries) == LiveLen(now[d].entries)
    ensures Descends(p, now, now[d].entries[i], c.ipg0) ==>
              && Leads(p, c, disk, past, d, i)
              && SubAt(c, g, d, i) && LeadsTo(c, disk, d, i) == ChildAt(c, g, d, i)
    ensures Leads(p, c, disk, past, d, i) ==> Descends(p, now, now[d].entries[i], c.ipg0)
  {
    assert DirSoFar(p, c, g, disk, past, now, d);
    SameRecords(p, c, g, disk, now, d);
    if Descends(p, now, now[d].entries[i], c.ipg0) {
      EntryLeads(p, c, g, now, d, i);
    }
    if Descends(p, disk, disk[d].entries[i], c.ipg0) {
      EntryLeads(p, c, g, disk, d, i);
    }
    if p.Updating? && d in past {
      FinishedStops(c, g, now, d, i);
    } else if p.Marking? {
      MarkingDescends(c, g, disk, d, i);
      MarkingDescends(c, g, now, d, i);
    }
  }

  /** The walk looks at the same records throughout. */
  lemma SameRecords(p: Phase, c: Cfg, g: Graph, disk: Disk, now: Disk, d: Slot)
    requires Inv(p, c, g, disk) && Inv(p, c, g, now) && d in g.reach
    ensures LiveLen(disk[d].entries) == LiveLen(now[d].entries) && disk[d].cuts == now[d].cuts
    ensures |disk[d].cuts| > 0
  {
    assert DirWf(c, g.disk0[d]) && DirStage(p, c, g.disk0[d], disk[d]) && DirStage(p, c, g.disk0[d], now[d]);
    SameLive(p, c, g.disk0[d], disk[d]);
    SameLive(p, c, g.disk0[d], now[d]);
  }

  /** A record to descend from leads to the directory that the original one led to. */
  lemma EntryLeads(p: Phase, c: Cfg, g: Graph, disk: Disk, d: Slot, i: nat)
    requires Inv(p, c, g, disk) && d in g.reach && i < LiveLen(disk[d].entries)
    requires Descends(p, disk, disk[d].entries[i], c.ipg0)
    ensures SubAt(c, g, d, i) && LeadsTo(c, disk, d, i) == ChildAt(c, g, d, i)
    ensures c.rank(ChildAt(c, g, d, i)) < c.rank(d)
  {
    assert DirWf(c, g.disk0[d]) && DirStage(p, c, g.disk0[d], disk[d]);
    RecordCase(p, c, g.disk0, disk, d, i);
    assert LinksWf(c, g, d) && SubAt(c, g, d, i);
  }

  /** The mark pass descends from all records that lead to subdirectories. */
  lemma MarkingDescends(c: Cfg, g: Graph, disk: Disk, d: Slot, i: nat)
    requires Inv(Marking, c, g, disk) && d in g.reach && i < LiveLen(disk[d].entries)
    ensures Descends(Marking, disk, disk[d].entries[i], c.ipg0) <==> SubAt(c, g, d, i)
  {
    assert DirWf(c, g.disk0[d]) && DirStage(Marking, c, g.disk0[d], disk[d]);
    SameLive(Marking, c, g.disk0[d], disk[d]);
    DescendsIff(Marking, c, g.disk0, disk, g.disk0[d].entries[i], disk[d].entries[i]);
  }

  lemma {:induction false} BlocksCount(disk: Disk, d: Slot, buf: seq<Entry>, k: nat, power: nat)
    requires d in disk && k < |disk[d].cuts| && WriteBlocks(disk, d, buf, k, power).Done?
    ensures WriteBlocks(disk, d, buf, k, power).power == power - (|disk[d].cuts| - 1 - k)
    decreases |disk[d].cuts| - k
  {
    if k + 1 < |disk[d].cuts| {
      BlocksCount(disk[d := WriteBlock(disk[d], buf, k)], d, buf, k + 1, power - 1);
    }
  }

  /** The pass used the power that was counted, and stands where the count says. */
  ghost predicate Counted(p: Phase, c: Cfg, g: Graph, disk: Disk, t: Tally, power: nat, o: Outcome) {
    o.Done? ==> o.power == power - t.writes && SoFar(p, c, g, disk, t.past, o.disk)
  }

  lemma {:induction false} WalkCounts(p: Phase, c: Cfg, g: Graph, disk: Disk, past: set<Slot>, now: Disk,
                                      d: Slot, power: nat)
    requires SoFar(p, c, g, disk, past, now) && d in g.reach
    ensures Counted(p, c, g, disk, Count(p, c, disk, d, past), power, Walk(p, c, now, d, power))
    decreases c.rank(d), 1, 0
  {
    ChildrenCount(p, c, g, disk, past, now, d, 0, power);
    ChildrenKeep(p, c, g, now, d, 0, power);
    var o1 := Children(p, c, now, d, now[d].entries, 0, power);
    if o1.Done? {
      EditedIsAfter(p, c, g.disk0[d], now[d]);
      DirectoryCount(p, c, g, disk, CountFrom(p, c, disk, d, 0, past).past, o1.disk, d, o1.power);
    }
  }

  /** The closing block writes of d. */
  lemma DirectoryCount(p: Phase, c: Cfg, g: Graph, disk: Disk, past: set<Slot>, now: Disk, d: Slot,
                       power: nat)
    requires SoFar(p, c, g, disk, past, now) && d in g.reach
    requires BelowFinished(p, c, g, now, d, |g.disk0[d].entries|)
    ensures Counted(p, c, g, disk, Tally(Blocks(disk[d]), past + {d}), power,
                    WriteBlocks(now, d, AfterDir(p, c, g.disk0[d]).entries, 0, power))
  {
    var goal := AfterDir(p, c, g.disk0[d]).entries;
    DirectoryWritten(p, c, g, now, d, power);
    var o := WriteBlocks(now, d, goal, 0, power);
    SameRecords(p, c, g, disk, now, d);
    if o.Done? {
      BlocksCount(now, d, goal, 0, power);
      assert LinksWf(c, g, d);
      forall x | x in g.reach ensures DirSoFar(p, c, g, disk, past + {d}, o.disk, x) {
        assert DirSoFar(p, c, g, disk, past, now, x);
        assert x == d ==> FinishedDir(p, c, g, o.disk, x);
      }
    }
  }

  lemma {:induction false} ChildrenCount(p: Phase, c: Cfg, g: Graph, disk: Disk, past: set<Slot>, now: Disk,
                                         d: Slot, i: nat, power: nat)
    requires SoFar(p, c, g, disk, past, now) && AtEntry(p, c, g, now, d, i)
    ensures Counted(p, c, g, disk, CountFrom(p, c, disk, d, i, past), power,
                    Children(p, c, now, d, now[d].entries, i, power))
    decreases c.rank(d), 0, LiveLen(now[d].entries) - i
  {
    if i < LiveLen(now[d].entries) {
      SameDescent(p, c, g, disk, past, now, d, i);
      EntryCase(p, c, g, now, d, i);
      ChildrenStep(p, c, now, d, now[d].entries, i, power);
      if Descends(p, now, now[d].entries[i], c.ipg0) {
        DescentKeeps(p, c, g, now, d, i, power);
        var child := ChildAt(c, g, d, i);
        WalkCounts(p, c, g, disk, past, now, child, power);
        var o1 := Walk(p, c, now, child, power);
        if o1.Done? {
          ChildrenCount(p, c, g, disk, Count(p, c, disk, child, past).past, o1.disk, d, i + 1, o1.power);
        }
      } else {
        ChildrenCount(p, c, g, disk, past, now, d, i + 1, power);
      }
    } else {
      assert DirSoFar(p, c, g, disk, past, now, d);
      SameRecords(p, c, g, disk, now, d);
    }
  }

  /** A pass ends exactly when there is power for the writes counted beforehand, and uses
      that much. */
  lemma CountExactly(p: Phase, c: Cfg, g: Graph, disk: Disk, d: Slot, power: nat)
    requires Inv(p, c, g, disk) && d in g.reach
    ensures var o := Walk(p, c, disk, d, power);
            var n := Count(p, c, disk, d, {}).writes;
            && (o.Done? <==> power >= n)
            && (o.Done? ==> o.power == power - n)
  {
    forall x | x in g.reach ensures DirSoFar(p, c, g, disk, {}, disk, x) {
    }
    WalkCounts(p, c, g, disk, {}, disk, d, power);
    var a := WalkEnough(p, c, g, disk, d);
    WalkCounts(p, c, g, disk, {}, disk, d, a);
    if power >= Count(p, c, disk, d, {}).writes {
      WalkAnyPower(p, c, disk, d, a, power);
    }
  }

  /** A mark pass that was cut off makes all its writes again: they are those of the image
      as it was before the first mark. */
  lemma {:induction false} MarkingRestarts(c: Cfg, g: Graph, disk: Disk, now: Disk, d: Slot, past: set<Slot>)
    requires Inv(Marking, c, g, disk) && Inv(Marking, c, g, now) && d in g.reach
    ensures Count(Marking, c, disk, d, past) == Count(Marking, c, now, d, past)
    decreases c.rank(d), 1, 0
  {
    SameRecords(Marking, c, g, disk, now, d);
    MarkingRestartsFrom(c, g, disk, now, d, 0, past);
  }

  lemma {:induction false} MarkingRestartsFrom(c: Cfg, g: Graph, disk: Disk, now: Disk, d: Slot, i: nat,
                                               past: set<Slot>)
    requires Inv(Marking, c, g, disk) && Inv(Marking, c, g, now) && d in g.reach
    ensures CountFrom(Marking, c, disk, d, i, past) == CountFrom(Marking, c, now, d, i, past)
    decreases c.rank(d), 0, LiveLen(disk[d].entries) - i
  {
    SameRecords(Marking, c, g, disk, now, d);
    if i < LiveLen(disk[d].entries) {
      MarkingDescends(c, g, disk, d, i);
      MarkingDescends(c, g, now, d, i);
      if SubAt(c, g, d, i) {
        EntryLeads(Marking, c, g, disk, d, i);
        EntryLeads(Marking, c, g, now, d, i);
        assert LinksWf(c, g, d);
        var child := ChildAt(c, g, d, i);
        MarkingRestarts(c, g, disk, now, child, past);
        MarkingRestartsFrom(c, g, disk, now, d, i + 1, Count(Marking, c, disk, child, past).past);
      } else {
        MarkingRestartsFrom(c, g, disk, now, d, i + 1, past);
      }
    }
  }
}
