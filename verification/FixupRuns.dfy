/** Whole runs of the renumbering tool: the on-disk state word drives the phases,
    and the power may fail before any write, any number of times
    (android/ext4_utils/src/ext4fixup.c, ext4fixup_internal). */
module FixupRuns {
  import opened InodeNumbers
  import opened FixupModel

  datatype State = Unset | MarkingInums | UpdatingInums | UpdatingSb

  /** What survives a power cut: the directories, the state word, the bit in the
      primary superblock that forbids mounting, and the inodes per group recorded
      in each superblock copy, the primary first. */
  datatype Image = Image(disk: Disk, state: State, locked: bool, sbs: seq<nat>)

  /** `per` is the number of inodes in a block. */
  datatype Tool = Tool(per: nat, rank: Slot -> nat)

  datatype Ending = Completed | PowerCut | Error
  datatype Boot = Boot(img: Image, ending: Ending)

  ghost predicate ToolWf(t: Tool, img: Image) {
    t.per > 0 && |img.sbs| > 0 && img.sbs[0] > 0
  }

  ghost function CfgOf(t: Tool, ipg: nat): Cfg
    requires t.per > 0
  {
    Cfg(ipg, Align(ipg, t.per), t.rank)
  }

  function Root(ipg: nat): Slot
    requires ipg > 0
  {
    SlotOf(2, ipg)
  }

  /** set_fs_fixup_state: the state word, then the mount bit. */
  function SetState(img: Image, s: State, power: nat): (Image, nat, bool) {
    if power == 0 then (img, 0, false)
    else if power == 1 then (img.(state := s), 0, false)
    else (img.(state := s, locked := s != Unset), power - 2, true)
  }

  /** The superblock copies, in order from copy k. */
  function WriteSbs(sbs: seq<nat>, k: nat, ipg: nat, power: nat): (seq<nat>, nat, bool)
    decreases |sbs| - k
  {
    if k >= |sbs| then (sbs, power, true)
    else if power == 0 then (sbs, 0, false)
    else WriteSbs(sbs[k := ipg], k + 1, ipg, power - 1)
  }

  function StepsLeft(s: State): nat {
    match s case Unset => 3 case MarkingInums => 2 case UpdatingInums => 1 case UpdatingSb => 0
  }

  function NextState(s: State): State {
    match s
    case Unset => MarkingInums
    case MarkingInums => UpdatingInums
    case UpdatingInums => UpdatingSb
    case UpdatingSb => Unset
  }

  function PhaseOf(s: State): Phase {
    if s.MarkingInums? then Marking else Updating
  }

  /** One start of the tool with power for so many writes. */
  ghost function RunTool(t: Tool, img: Image, power: nat): Boot
    requires ToolWf(t, img)
    decreases StepsLeft(img.state)
  {
    var ipg := img.sbs[0];
    match img.state
    case Unset =>
      var (img1, power1, alive) := SetState(img, MarkingInums, power);
      if alive then RunTool(t, img1, power1) else Boot(img1, PowerCut)
    case UpdatingSb =>
      var (sbs1, power1, alive) := WriteSbs(img.sbs, 0, Align(ipg, t.per), power);
      if !alive then Boot(img.(sbs := sbs1), PowerCut)
      else
        var (img2, _, alive2) := SetState(img.(sbs := sbs1), Unset, power1);
        Boot(img2, if alive2 then Completed else PowerCut)
    case _ =>
      match Walk(PhaseOf(img.state), CfgOf(t, ipg), img.disk, Root(ipg), power)
      case Failed(disk1) => Boot(img.(disk := disk1), Error)
      case Endless(disk1) => Boot(img.(disk := disk1), Error)
      case Crash(disk1) => Boot(img.(disk := disk1), PowerCut)
      case Done(disk1, power1) =>
        var (img2, power2, alive) := SetState(img.(disk := disk1), NextState(img.state), power1);
        if alive then RunTool(t, img2, power2) else Boot(img2, PowerCut)
  }

  // ---------------------------------------------------------- what it is for

  /** The directories at and below d. */
  ghost function Sub(c: Cfg, disk0: Disk, d: Slot): set<Slot>
    requires c.ipg0 > 0
    decreases c.rank(d), 1, 0
  {
    {d} + if d in disk0 then SubFrom(c, disk0, d, disk0[d].entries, 0) else {}
  }

  /** Those below the records of d from record i on. */
  ghost function SubFrom(c: Cfg, disk0: Disk, d: Slot, es: seq<Entry>, i: nat): set<Slot>
    requires c.ipg0 > 0
    decreases c.rank(d), 0, LiveLen(es) - i
  {
    if i >= LiveLen(es) then {}
    else
      (if IsSub(c, disk0, es[i]) && c.rank(SlotOf(es[i].ino, c.ipg0)) < c.rank(d)
       then Sub(c, disk0, SlotOf(es[i].ino, c.ipg0)) else {})
      + SubFrom(c, disk0, d, es, i + 1)
  }

  ghost function GraphOf(t: Tool, disk0: Disk, ipg: nat): Graph
    requires t.per > 0 && ipg > 0
  {
    var c := CfgOf(t, ipg);
    Graph(disk0, Reach(t, disk0, ipg), d => Sub(c, disk0, d))
  }

  ghost function Reach(t: Tool, disk0: Disk, ipg: nat): set<Slot>
    requires t.per > 0 && ipg > 0
  {
    Sub(CfgOf(t, ipg), disk0, Root(ipg))
  }

  /** Every record before the first unused one, in every directory that such records lead
      to from the root, renumbered once. */
  ghost function Renumbered(t: Tool, disk0: Disk, ipg: nat): Disk
    requires t.per > 0 && ipg > 0
  {
    map x | x in disk0 ::
      if x in Reach(t, disk0, ipg) then AfterDir(Updating, CfgOf(t, ipg), disk0[x]) else disk0[x]
  }

  /** An image the tool can be started on: the root has a fixed number, the
      numbers leave the marker bit free, directory entries lead to directories
      and the directory graph has no cycle. */
  ghost predicate Sound(t: Tool, disk0: Disk, ipg: nat) {
    && t.per > 0 && ipg >= 2
    && (forall x :: x in Reach(t, disk0, ipg) ==> x in disk0 && DirWf(CfgOf(t, ipg), disk0[x]))
    && (forall x, i :: x in Reach(t, disk0, ipg) && Live(disk0[x].entries, i) ==>
          EntryWf(CfgOf(t, ipg), disk0, x, disk0[x].entries[i]))
  }

  ghost predicate EntryWf(c: Cfg, disk0: Disk, x: Slot, e: Entry)
    requires c.ipg0 > 0
  {
    IsSub(c, disk0, e) ==>
      SlotOf(e.ino, c.ipg0) in disk0 && c.rank(SlotOf(e.ino, c.ipg0)) < c.rank(x)
  }

  ghost predicate SbsAre(sbs: seq<nat>, ipg: nat) {
    |sbs| > 0 && forall i :: 0 <= i < |sbs| ==> sbs[i] == ipg
  }

  /** What holds of the image whenever the power fails. */
  ghost predicate ImageInv(t: Tool, disk0: Disk, ipg: nat, img: Image) {
    StageInv(t, disk0, ipg, img.state, img.disk, img.sbs)
  }

  ghost predicate StageInv(t: Tool, disk0: Disk, ipg: nat, state: State, disk: Disk, sbs: seq<nat>) {
    && Sound(t, disk0, ipg)
    && match state
       case Unset => SbsAre(sbs, ipg) && disk == disk0
       case UpdatingSb =>
         && |sbs| > 0
         && (forall i :: 0 <= i < |sbs| ==> sbs[i] == ipg || sbs[i] == Align(ipg, t.per))
         && disk == Renumbered(t, disk0, ipg)
       case s =>
         && SbsAre(sbs, ipg)
         && Inv(PhaseOf(s), CfgOf(t, ipg), GraphOf(t, disk0, ipg), disk)
  }

  // --------------------------------------------------------------- the proofs

  lemma {:induction false} SubFromBound(c: Cfg, disk0: Disk, d: Slot, es: seq<Entry>, i: nat)
    requires c.ipg0 > 0
    ensures forall y :: y in SubFrom(c, disk0, d, es, i) ==> c.rank(y) < c.rank(d)
    decreases c.rank(d), LiveLen(es) - i
  {
    if i < LiveLen(es) {
      var child := SlotOf(es[i].ino, c.ipg0);
      if IsSub(c, disk0, es[i]) && c.rank(child) < c.rank(d) && child in disk0 {
        SubFromBound(c, disk0, child, disk0[child].entries, 0);
      }
      SubFromBound(c, disk0, d, es, i + 1);
    }
  }

  lemma {:induction false} SubFromHas(c: Cfg, disk0: Disk, d: Slot, es: seq<Entry>, k: nat, i: nat)
    requires c.ipg0 > 0 && k <= i && Live(es, i)
    requires IsSub(c, disk0, es[i]) && c.rank(SlotOf(es[i].ino, c.ipg0)) < c.rank(d)
    ensures Sub(c, disk0, SlotOf(es[i].ino, c.ipg0)) <= SubFrom(c, disk0, d, es, k)
    decreases i - k
  {
    if k < i {
      SubFromHas(c, disk0, d, es, k + 1, i);
    }
  }

  /** The record through which a directory is below another. */
  lemma {:induction false} SubFromWhere(c: Cfg, disk0: Disk, d: Slot, es: seq<Entry>, k: nat, y: Slot)
    returns (i: nat)
    requires c.ipg0 > 0 && y in SubFrom(c, disk0, d, es, k)
    ensures Live(es, i) && IsSub(c, disk0, es[i]) && c.rank(SlotOf(es[i].ino, c.ipg0)) < c.rank(d)
    ensures y in Sub(c, disk0, SlotOf(es[i].ino, c.ipg0))
    decreases LiveLen(es) - k
  {
    if y in SubFrom(c, disk0, d, es, k + 1) {
      i := SubFromWhere(c, disk0, d, es, k + 1, y);
    } else {
      i := k;
    }
  }

  lemma {:induction false} SubInSub(c: Cfg, disk0: Disk, d: Slot, x: Slot)
    requires c.ipg0 > 0 && x in Sub(c, disk0, d)
    ensures Sub(c, disk0, x) <= Sub(c, disk0, d)
    decreases c.rank(d)
  {
    if x != d {
      var i := SubFromWhere(c, disk0, d, disk0[d].entries, 0, x);
      SubInSub(c, disk0, SlotOf(disk0[d].entries[i].ino, c.ipg0), x);
      SubFromHas(c, disk0, d, disk0[d].entries, 0, i);
    }
  }

  lemma SoundLinks(t: Tool, disk0: Disk, ipg: nat, x: Slot)
    requires Sound(t, disk0, ipg) && x in Reach(t, disk0, ipg)
    ensures LinksWf(CfgOf(t, ipg), GraphOf(t, disk0, ipg), x)
  {
    var c, g := CfgOf(t, ipg), GraphOf(t, disk0, ipg);
    SubInSub(c, disk0, Root(ipg), x);
    forall i | SubAt(c, g, x, i)
      ensures var child := ChildAt(c, g, x, i);
              && child in g.reach && c.rank(child) < c.rank(x)
              && Sub(c, disk0, child) <= Sub(c, disk0, x) - {x}
    {
      assert EntryWf(c, disk0, x, disk0[x].entries[i]);
      var child := ChildAt(c, g, x, i);
      SubFromHas(c, disk0, x, disk0[x].entries, 0, i);
      assert child in Sub(c, disk0, child);
      SubFromBound(c, disk0, child, disk0[child].entries, 0);
    }
  }

  lemma SoundCovered(t: Tool, disk0: Disk, ipg: nat, x: Slot)
    requires Sound(t, disk0, ipg) && x in Reach(t, disk0, ipg)
    ensures Covered(CfgOf(t, ipg), GraphOf(t, disk0, ipg), x)
  {
    var c, g := CfgOf(t, ipg), GraphOf(t, disk0, ipg);
    forall y | y in g.sub(x) && y != x
      ensures exists i :: SubAt(c, g, x, i) && y in g.sub(ChildAt(c, g, x, i))
    {
      var i := SubFromWhere(c, disk0, x, disk0[x].entries, 0, y);
      assert SubAt(c, g, x, i) && y in g.sub(ChildAt(c, g, x, i));
    }
  }

  lemma SoundIsWf(t: Tool, disk0: Disk, ipg: nat)
    requires Sound(t, disk0, ipg)
    ensures Wf(CfgOf(t, ipg), GraphOf(t, disk0, ipg))
  {
    AlignStable(ipg, t.per);
    forall x | x in Reach(t, disk0, ipg)
      ensures LinksWf(CfgOf(t, ipg), GraphOf(t, disk0, ipg), x)
      ensures Covered(CfgOf(t, ipg), GraphOf(t, disk0, ipg), x)
    {
      SoundLinks(t, disk0, ipg, x);
      SoundCovered(t, disk0, ipg, x);
    }
  }

  /** Before a phase has written anything its invariant holds. */
  lemma PhaseStarts(p: Phase, c: Cfg, g: Graph, disk: Disk)
    requires Wf(c, g) && disk.Keys == g.disk0.Keys
    requires forall x :: x in g.disk0 && x !in g.reach ==> disk[x] == g.disk0[x]
    requires forall x :: x in g.reach ==> disk[x] == BeforeDir(p, g.disk0[x])
    ensures Inv(p, c, g, disk)
  {
    forall x | x in g.reach ensures SubtreesFirst(p, c, g, disk, x) {
      forall i | SubAt(c, g, x, i)
        ensures disk[x].entries[i] != After(p, c, g.disk0[x].entries[i])
      {
        assert DirWf(c, g.disk0[x]);
        EditStep(p, c, g.disk0[x].entries[i]);
      }
    }
  }

  lemma MarkedMeansReady(c: Cfg, g: Graph, disk: Disk)
    requires Inv(Marking, c, g, disk) && Finished(Marking, c, g, disk, g.reach)
    ensures Inv(Updating, c, g, disk)
  {
    forall x | x in g.reach ensures disk[x] == BeforeDir(Updating, g.disk0[x]) {
      assert FinishedDir(Marking, c, g, disk, x);
      assert disk[x].entries == BeforeDir(Updating, g.disk0[x]).entries;
    }
    PhaseStarts(Updating, c, g, disk);
  }

  lemma UpdatedMeansRenumbered(t: Tool, disk0: Disk, ipg: nat, disk: Disk)
    requires Sound(t, disk0, ipg)
    requires Inv(Updating, CfgOf(t, ipg), GraphOf(t, disk0, ipg), disk)
    requires Finished(Updating, CfgOf(t, ipg), GraphOf(t, disk0, ipg), disk, Reach(t, disk0, ipg))
    ensures disk == Renumbered(t, disk0, ipg)
  {
    var g := GraphOf(t, disk0, ipg);
    forall x | x in g.reach ensures disk[x] == Renumbered(t, disk0, ipg)[x] {
      assert FinishedDir(Updating, CfgOf(t, ipg), g, disk, x);
    }
  }

  /** One phase, from the state word on. */
  lemma PhaseKeeps(t: Tool, disk0: Disk, ipg: nat, img: Image, power: nat)
    requires ImageInv(t, disk0, ipg, img) && (img.state.MarkingInums? || img.state.UpdatingInums?)
    ensures var o := Walk(PhaseOf(img.state), CfgOf(t, ipg), img.disk, Root(ipg), power);
            && (o.Done? || o.Crash?)
            && StageInv(t, disk0, ipg, img.state, o.disk, img.sbs)
            && (o.Done? ==> StageInv(t, disk0, ipg, NextState(img.state), o.disk, img.sbs))
  {
    SoundIsWf(t, disk0, ipg);
    var p, c, g := PhaseOf(img.state), CfgOf(t, ipg), GraphOf(t, disk0, ipg);
    WalkKeeps(p, c, g, img.disk, Root(ipg), power);
    var o := Walk(p, c, img.disk, Root(ipg), power);
    if o.Done? && img.state.MarkingInums? {
      MarkedMeansReady(c, g, o.disk);
    } else if o.Done? {
      UpdatedMeansRenumbered(t, disk0, ipg, o.disk);
    }
  }

  lemma {:induction false} SbsWritten(sbs: seq<nat>, k: nat, a: nat, b: nat, power: nat)
    requires k <= |sbs| && |sbs| > 0
    requires forall i :: 0 <= i < |sbs| ==> sbs[i] == a || sbs[i] == b
    requires forall i :: 0 <= i < k ==> sbs[i] == b
    ensures var (sbs1, _, alive) := WriteSbs(sbs, k, b, power);
            && |sbs1| == |sbs|
            && (forall i :: 0 <= i < |sbs1| ==> sbs1[i] == a || sbs1[i] == b)
            && (alive ==> SbsAre(sbs1, b))
    decreases |sbs| - k
  {
    if k < |sbs| && power > 0 {
      SbsWritten(sbs[k := b], k + 1, a, b, power - 1);
    }
  }

  /** The renumbered image has the same directory graph. */
  lemma {:induction false} SameSub(t: Tool, disk0: Disk, ipg: nat, d: Slot)
    requires Sound(t, disk0, ipg) && Sub(CfgOf(t, ipg), disk0, d) <= Reach(t, disk0, ipg)
    ensures Sub(CfgOf(t, Align(ipg, t.per)), Renumbered(t, disk0, ipg), d) == Sub(CfgOf(t, ipg), disk0, d)
    decreases t.rank(d), 1, 0
  {
    AlignStable(ipg, t.per);
    assert d in Reach(t, disk0, ipg);
    SameSubFrom(t, disk0, ipg, d, 0);
  }

  lemma RenumberedEntry(t: Tool, disk0: Disk, ipg: nat, d: Slot, i: nat)
    requires Sound(t, disk0, ipg) && d in Reach(t, disk0, ipg) && Live(disk0[d].entries, i)
    ensures var ipg1, disk1 := Align(ipg, t.per), Renumbered(t, disk0, ipg);
            var o, e := disk0[d].entries[i], disk1[d].entries[i];
            && ipg <= ipg1
            && e == o.(ino := NewInum(o.ino, ipg, ipg1))
            && 1 <= e.ino < MARK
            && SlotOf(e.ino, ipg1) == SlotOf(o.ino, ipg)
            && (IsSub(CfgOf(t, ipg1), disk1, e) <==> IsSub(CfgOf(t, ipg), disk0, o))
  {
    AlignStable(ipg, t.per);
    NewInumKeepsSlot(disk0[d].entries[i].ino, ipg, Align(ipg, t.per));
  }

  lemma RenumberedLive(t: Tool, disk0: Disk, ipg: nat, d: Slot)
    requires Sound(t, disk0, ipg) && d in Reach(t, disk0, ipg)
    ensures LiveLen(Renumbered(t, disk0, ipg)[d].entries) == LiveLen(disk0[d].entries)
  {
    AlignStable(ipg, t.per);
    SameLive(Updating, CfgOf(t, ipg), disk0[d], Renumbered(t, disk0, ipg)[d]);
  }

  lemma {:induction false} SameSubFrom(t: Tool, disk0: Disk, ipg: nat, d: Slot, i: nat)
    requires Sound(t, disk0, ipg) && d in Reach(t, disk0, ipg)
    requires SubFrom(CfgOf(t, ipg), disk0, d, disk0[d].entries, i) <= Reach(t, disk0, ipg)
    ensures var disk1, ipg1 := Renumbered(t, disk0, ipg), Align(ipg, t.per);
            ipg1 > 0 &&
            SubFrom(CfgOf(t, ipg1), disk1, d, disk1[d].entries, i)
              == SubFrom(CfgOf(t, ipg), disk0, d, disk0[d].entries, i)
    decreases t.rank(d), 0, LiveLen(disk0[d].entries) - i
  {
    AlignStable(ipg, t.per);
    RenumberedLive(t, disk0, ipg, d);
    var es, c := disk0[d].entries, CfgOf(t, ipg);
    if i < LiveLen(es) {
      RenumberedEntry(t, disk0, ipg, d, i);
      var child := SlotOf(es[i].ino, ipg);
      if IsSub(c, disk0, es[i]) && t.rank(child) < t.rank(d) {
        SameSub(t, disk0, ipg, child);
      }
      SameSubFrom(t, disk0, ipg, d, i + 1);
    }
  }

  /** The tool may be started again on its own result, and leaves it as it is. */
  lemma RenumberedAgain(t: Tool, disk0: Disk, ipg: nat)
    requires Sound(t, disk0, ipg)
    ensures var disk1, ipg1 := Renumbered(t, disk0, ipg), Align(ipg, t.per);
            && Sound(t, disk1, ipg1)
            && Align(ipg1, t.per) == ipg1
            && Reach(t, disk1, ipg1) == Reach(t, disk0, ipg)
            && Renumbered(t, disk1, ipg1) == disk1
  {
    AlignStable(ipg, t.per);
    var disk1, ipg1 := Renumbered(t, disk0, ipg), Align(ipg, t.per);
    assert Root(ipg) == Root(ipg1) == Slot(0, 1);
    SameSub(t, disk0, ipg, Root(ipg));
    forall x | x in Reach(t, disk0, ipg)
      ensures DirWf(CfgOf(t, ipg1), disk1[x])
      ensures AfterDir(Updating, CfgOf(t, ipg1), disk1[x]) == disk1[x]
      ensures forall i :: Live(disk1[x].entries, i) ==>
                EntryWf(CfgOf(t, ipg1), disk1, x, disk1[x].entries[i])
    {
      RenumberedDir(t, disk0, ipg, x);
    }
    assert Renumbered(t, disk1, ipg1) == disk1;
  }

  lemma RenumberedDir(t: Tool, disk0: Disk, ipg: nat, x: Slot)
    requires Sound(t, disk0, ipg) && x in Reach(t, disk0, ipg)
    ensures var disk1, ipg1 := Renumbered(t, disk0, ipg), Align(ipg, t.per);
            && ipg1 > 0 && DirWf(CfgOf(t, ipg1), disk1[x])
            && AfterDir(Updating, CfgOf(t, ipg1), disk1[x]) == disk1[x]
            && forall i :: Live(disk1[x].entries, i) ==>
                 EntryWf(CfgOf(t, ipg1), disk1, x, disk1[x].entries[i])
  {
    AlignStable(ipg, t.per);
    var disk1, ipg1 := Renumbered(t, disk0, ipg), Align(ipg, t.per);
    var c1, es := CfgOf(t, ipg1), disk1[x].entries;
    RenumberedLive(t, disk0, ipg, x);
    forall i | Live(es, i)
      ensures && Fits(es[i].ino, ipg1, ipg1) && After(Updating, c1, es[i]) == es[i]
              && EntryWf(c1, disk1, x, es[i])
    {
      RenumberedRecord(t, disk0, ipg, x, i);
    }
    assert AfterDir(Updating, c1, disk1[x]).entries == es;
  }

  lemma RenumberedRecord(t: Tool, disk0: Disk, ipg: nat, x: Slot, i: nat)
    requires Sound(t, disk0, ipg) && x in Reach(t, disk0, ipg) && Live(disk0[x].entries, i)
    ensures var disk1, ipg1 := Renumbered(t, disk0, ipg), Align(ipg, t.per);
            var e := disk1[x].entries[i];
            && ipg1 > 0 && Fits(e.ino, ipg1, ipg1)
            && After(Updating, CfgOf(t, ipg1), e) == e && EntryWf(CfgOf(t, ipg1), disk1, x, e)
  {
    AlignStable(ipg, t.per);
    RenumberedEntry(t, disk0, ipg, x, i);
    assert EntryWf(CfgOf(t, ipg), disk0, x, disk0[x].entries[i]);
    NewInumIdentity(Renumbered(t, disk0, ipg)[x].entries[i].ino, Align(ipg, t.per));
  }

  /** The image belongs to a run over disk0 that has or has not reached its end. */
  ghost predicate Recoverable(t: Tool, disk0: Disk, ipg: nat, img: Image) {
    && Sound(t, disk0, ipg)
    && ToolWf(t, img)
    && (ImageInv(t, disk0, ipg, img) ||
        ImageInv(t, Renumbered(t, disk0, ipg), Align(ipg, t.per), img))
  }

  /** The image the tool is to produce. */
  ghost predicate Result(t: Tool, disk0: Disk, ipg: nat, img: Image) {
    && t.per > 0 && ipg > 0
    && img.disk == Renumbered(t, disk0, ipg)
    && img.state.Unset? && !img.locked
    && SbsAre(img.sbs, Align(ipg, t.per))
  }

  /** What a phase leaves behind: whether the run goes on, the image, the power. */
  ghost function PhaseEnd(img: Image, o: Outcome): (bool, Image, nat) {
    match o
    case Done(disk, power) =>
      var (img2, power2, alive) := SetState(img.(disk := disk), NextState(img.state), power);
      (alive, img2, power2)
    case _ => (false, img.(disk := o.disk), 0)
  }

  lemma PhaseStep(t: Tool, img: Image, power: nat)
    requires ToolWf(t, img) && (img.state.MarkingInums? || img.state.UpdatingInums?)
    ensures var ipg := img.sbs[0];
            var o := Walk(PhaseOf(img.state), CfgOf(t, ipg), img.disk, Root(ipg), power);
            var (alive, img2, power2) := PhaseEnd(img, o);
            (o.Done? || o.Crash?) ==>
              && ToolWf(t, img2) && img2.sbs == img.sbs
              && RunTool(t, img, power) ==
                   if alive then RunTool(t, img2, power2) else Boot(img2, PowerCut)
  {
  }

  /** From the first state word to the end, one start of the tool. */
  lemma {:induction false} RunKeeps(t: Tool, disk0: Disk, ipg: nat, img: Image, power: nat)
    requires ImageInv(t, disk0, ipg, img) && ToolWf(t, img)
    ensures Ran(t, disk0, ipg, RunTool(t, img, power))
    decreases StepsLeft(img.state)
  {
    if img.state.Unset? {
      var (img1, power1, alive) := SetState(img, MarkingInums, power);
      StartKeeps(t, disk0, ipg, img, power);
      if alive {
        RunKeeps(t, disk0, ipg, img1, power1);
      } else {
        CutKeeps(t, disk0, ipg, img1);
      }
    } else if img.state.UpdatingSb? {
      EndKeeps(t, disk0, ipg, img, power);
    } else {
      PhaseStep(t, img, power);
      PhaseKeeps(t, disk0, ipg, img, power);
      assert img.sbs[0] == ipg;
      var o := Walk(PhaseOf(img.state), CfgOf(t, ipg), img.disk, Root(ipg), power);
      PhaseEndKeeps(t, disk0, ipg, img, o);
      var (alive, img2, power2) := PhaseEnd(img, o);
      if alive {
        RunKeeps(t, disk0, ipg, img2, power2);
      } else {
        CutKeeps(t, disk0, ipg, img2);
      }
    }
  }

  /** A phase ends the run or leads to the next state. */
  lemma PhaseEndKeeps(t: Tool, disk0: Disk, ipg: nat, img: Image, o: Outcome)
    requires StageInv(t, disk0, ipg, img.state, o.disk, img.sbs)
    requires o.Done? ==> StageInv(t, disk0, ipg, NextState(img.state), o.disk, img.sbs)
    ensures ImageInv(t, disk0, ipg, PhaseEnd(img, o).1)
    ensures PhaseEnd(img, o).0 ==> PhaseEnd(img, o).1.state == NextState(img.state)
  {
    var img2 := PhaseEnd(img, o).1;
    assert img2.disk == o.disk && img2.sbs == img.sbs;
    assert img2.state == img.state || (o.Done? && img2.state == NextState(img.state));
  }

  lemma CutKeeps(t: Tool, disk0: Disk, ipg: nat, img: Image)
    requires ImageInv(t, disk0, ipg, img) && ToolWf(t, img)
    ensures Ran(t, disk0, ipg, Boot(img, PowerCut))
  {
  }

  /** What one start of the tool promises, however it ends. */
  ghost predicate Ran(t: Tool, disk0: Disk, ipg: nat, b: Boot) {
    && !b.ending.Error?
    && Recoverable(t, disk0, ipg, b.img)
    && (b.ending.Completed? ==> Result(t, disk0, ipg, b.img))
  }

  lemma StartKeeps(t: Tool, disk0: Disk, ipg: nat, img: Image, power: nat)
    requires ImageInv(t, disk0, ipg, img) && ToolWf(t, img) && img.state.Unset?
    ensures ImageInv(t, disk0, ipg, SetState(img, MarkingInums, power).0)
  {
    SoundIsWf(t, disk0, ipg);
    forall x | x in Reach(t, disk0, ipg) ensures img.disk[x] == BeforeDir(Marking, disk0[x]) {
      assert disk0[x].entries == BeforeDir(Marking, disk0[x]).entries;
    }
    PhaseStarts(Marking, CfgOf(t, ipg), GraphOf(t, disk0, ipg), img.disk);
  }

  lemma EndStep(t: Tool, img: Image, power: nat)
    requires ToolWf(t, img) && img.state.UpdatingSb?
    ensures var (sbs1, power1, alive) := WriteSbs(img.sbs, 0, Align(img.sbs[0], t.per), power);
            var (img2, _, alive2) := SetState(img.(sbs := sbs1), Unset, power1);
            RunTool(t, img, power) ==
              if !alive then Boot(img.(sbs := sbs1), PowerCut)
              else Boot(img2, if alive2 then Completed else PowerCut)
  {
  }

  lemma EndKeeps(t: Tool, disk0: Disk, ipg: nat, img: Image, power: nat)
    requires ImageInv(t, disk0, ipg, img) && ToolWf(t, img) && img.state.UpdatingSb?
    ensures Ran(t, disk0, ipg, RunTool(t, img, power))
  {
    AlignStable(ipg, t.per);
    EndStep(t, img, power);
    SbsWritten(img.sbs, 0, ipg, Align(ipg, t.per), power);
    RenumberedAgain(t, disk0, ipg);
  }

  // ------------------------------------------------------------- every history

  /** The image after a history of starts, each with its own power. */
  ghost function Boots(t: Tool, img: Image, powers: seq<nat>): Image
    requires ToolWf(t, img)
    decreases |powers|
  {
    if powers == [] then img
    else
      var img1 := Boots(t, img, powers[..|powers| - 1]);
      if ToolWf(t, img1) then RunTool(t, img1, powers[|powers| - 1]).img else img1
  }

  /** A fresh image, before the tool ever ran. */
  ghost predicate Fresh(t: Tool, disk0: Disk, ipg: nat, img: Image) {
    Sound(t, disk0, ipg) && img.disk == disk0 && img.state.Unset? && SbsAre(img.sbs, ipg)
  }

  lemma {:induction false} BootsRecoverable(t: Tool, disk0: Disk, ipg: nat, img: Image,
                                            powers: seq<nat>)
    requires Fresh(t, disk0, ipg, img)
    ensures ToolWf(t, img) && Recoverable(t, disk0, ipg, Boots(t, img, powers))
    decreases |powers|
  {
    if powers != [] {
      var img1 := Boots(t, img, powers[..|powers| - 1]);
      BootsRecoverable(t, disk0, ipg, img, powers[..|powers| - 1]);
      RecoverableRun(t, disk0, ipg, img1, powers[|powers| - 1]);
    }
  }

  /** Any start on any recoverable image stays recoverable, and if it completes
      it completes with the one renumbering of the original image. */
  lemma RecoverableRun(t: Tool, disk0: Disk, ipg: nat, img: Image, power: nat)
    requires Recoverable(t, disk0, ipg, img)
    ensures Ran(t, disk0, ipg, RunTool(t, img, power))
  {
    AlignStable(ipg, t.per);
    RenumberedAgain(t, disk0, ipg);
    if ImageInv(t, disk0, ipg, img) {
      RunKeeps(t, disk0, ipg, img, power);
    } else {
      RunKeeps(t, Renumbered(t, disk0, ipg), Align(ipg, t.per), img, power);
    }
  }

  /** However often and wherever the power fails, a start that completes leaves every
      entry that the tool comes to with its new number, applied exactly once, and nothing
      else changed. The tool comes to the records before the first unused one. The inodes
      of a group then fill whole blocks, the fewest that hold as many as before. */
  lemma CrashSafe(t: Tool, disk0: Disk, ipg: nat, img: Image, powers: seq<nat>, power: nat)
    requires Fresh(t, disk0, ipg, img)
    ensures ToolWf(t, img) && ToolWf(t, Boots(t, img, powers))
    ensures var b := RunTool(t, Boots(t, img, powers), power);
            && !b.ending.Error?
            && (b.ending.Completed? ==>
                  && Result(t, disk0, ipg, b.img)
                  && forall k :: 0 <= k < |b.img.sbs| ==>
                       b.img.sbs[k] % t.per == 0 && ipg <= b.img.sbs[k] < ipg + t.per)
  {
    AlignStable(ipg, t.per);
    BootsRecoverable(t, disk0, ipg, img, powers);
    RecoverableRun(t, disk0, ipg, Boots(t, img, powers), power);
  }
}
