/** The renumbering tool always gets to its end: on every image that a history of
    power cuts can leave, a start with enough power completes. */
module FixupLiveness {
  import opened InodeNumbers
  import opened FixupModel
  import opened FixupRuns

  lemma {:induction false} WritesAnyPower(disk: Disk, d: Slot, buf: seq<Entry>, k: nat, power: nat,
                                          other: nat)
    requires d in disk && WriteBlocks(disk, d, buf, k, power).Done?
    requires other + WriteBlocks(disk, d, buf, k, power).power >= power
    ensures var o := WriteBlocks(disk, d, buf, k, power);
            WriteBlocks(disk, d, buf, k, other) == Done(o.disk, other + o.power - power)
    decreases |disk[d].cuts| - k
  {
    if k + 1 < |disk[d].cuts| {
      WritesAnyPower(disk[d := WriteBlock(disk[d], buf, k)], d, buf, k + 1, power - 1, other - 1);
    }
  }

  /** A pass that ends makes the same writes with any power that is enough for them. */
  lemma {:induction false} WalkAnyPower(p: Phase, c: Cfg, disk: Disk, d: Slot, power: nat, other: nat)
    requires c.ipg0 > 0 && Walk(p, c, disk, d, power).Done?
    requires other + Walk(p, c, disk, d, power).power >= power
    ensures var o := Walk(p, c, disk, d, power);
            Walk(p, c, disk, d, other) == Done(o.disk, other + o.power - power)
    decreases c.rank(d), 1, 0
  {
    var buf := disk[d].entries;
    var o1 := Children(p, c, disk, d, buf, 0, power);
    ChildrenAnyPower(p, c, disk, d, buf, 0, power, other);
    WritesAnyPower(o1.disk, d, Edited(p, buf, c.ipg0, c.ipg1), 0, o1.power, other + o1.power - power);
  }

  lemma {:induction false} ChildrenAnyPower(p: Phase, c: Cfg, disk: Disk, d: Slot, buf: seq<Entry>,
                                            i: nat, power: nat, other: nat)
    requires c.ipg0 > 0 && Children(p, c, disk, d, buf, i, power).Done?
    requires other + Children(p, c, disk, d, buf, i, power).power >= power
    ensures var o := Children(p, c, disk, d, buf, i, power);
            Children(p, c, disk, d, buf, i, other) == Done(o.disk, other + o.power - power)
    decreases c.rank(d), 0, LiveLen(buf) - i
  {
    if i < LiveLen(buf) {
      if Descends(p, disk, buf[i], c.ipg0) {
        var child := SlotOf(Strip(buf[i].ino), c.ipg0);
        var o1 := Walk(p, c, disk, child, power);
        WalkAnyPower(p, c, disk, child, power, other);
        ChildrenAnyPower(p, c, o1.disk, d, buf, i + 1, o1.power, other + o1.power - power);
      } else {
        ChildrenAnyPower(p, c, disk, d, buf, i + 1, power, other);
      }
    }
  }

  lemma {:induction false} WritesEnough(disk: Disk, d: Slot, buf: seq<Entry>, k: nat) returns (n: nat)
    requires d in disk
    ensures WriteBlocks(disk, d, buf, k, n).Done?
    decreases |disk[d].cuts| - k
  {
    if k + 1 >= |disk[d].cuts| {
      n := 0;
    } else {
      n := WritesEnough(disk[d := WriteBlock(disk[d], buf, k)], d, buf, k + 1);
      n := n + 1;
    }
  }

  /** A pass that never fails completes with some amount of power. */
  lemma {:induction false} WalkEnough(p: Phase, c: Cfg, g: Graph, disk: Disk, d: Slot)
    returns (n: nat)
    requires Inv(p, c, g, disk) && d in g.reach
    ensures Walk(p, c, disk, d, n).Done?
    decreases c.rank(d), 1, 0
  {
    var buf := disk[d].entries;
    var a := ChildrenEnough(p, c, g, disk, d, 0);
    ChildrenKeep(p, c, g, disk, d, 0, a);
    var o1 := Children(p, c, disk, d, buf, 0, a);
    var b := WritesEnough(o1.disk, d, Edited(p, buf, c.ipg0, c.ipg1), 0);
    WalkCompose(p, c, disk, d, a, b);
    n := a + b;
  }

  lemma WalkCompose(p: Phase, c: Cfg, disk: Disk, d: Slot, a: nat, b: nat)
    requires c.ipg0 > 0 && d in disk && Children(p, c, disk, d, disk[d].entries, 0, a).Done?
    requires var disk1 := Children(p, c, disk, d, disk[d].entries, 0, a).disk;
             && d in disk1
             && WriteBlocks(disk1, d, Edited(p, disk[d].entries, c.ipg0, c.ipg1), 0, b).Done?
    ensures Walk(p, c, disk, d, a + b).Done?
  {
    var buf := disk[d].entries;
    var o1 := Children(p, c, disk, d, buf, 0, a);
    ChildrenAnyPower(p, c, disk, d, buf, 0, a, a + b);
    WritesAnyPower(o1.disk, d, Edited(p, buf, c.ipg0, c.ipg1), 0, b, b + o1.power);
  }

  lemma {:induction false} ChildrenEnough(p: Phase, c: Cfg, g: Graph, disk: Disk, d: Slot, i: nat)
    returns (n: nat)
    requires AtEntry(p, c, g, disk, d, i)
    ensures Children(p, c, disk, d, disk[d].entries, i, n).Done?
    decreases c.rank(d), 0, LiveLen(disk[d].entries) - i
  {
    var buf := disk[d].entries;
    if i == LiveLen(buf) {
      n := 0;
    } else {
      EntryCase(p, c, g, disk, d, i);
      if Descends(p, disk, buf[i], c.ipg0) {
        var a := WalkEnough(p, c, g, disk, ChildAt(c, g, d, i));
        DescentKeeps(p, c, g, disk, d, i, a);
        var disk1 := Walk(p, c, disk, ChildAt(c, g, d, i), a).disk;
        var b := ChildrenEnough(p, c, g, disk1, d, i + 1);
        ChildrenCompose(p, c, disk, d, buf, i, a, b);
        n := a + b;
      } else {
        n := ChildrenEnough(p, c, g, disk, d, i + 1);
        ChildrenStep(p, c, disk, d, buf, i, n);
      }
    }
  }

  lemma ChildrenCompose(p: Phase, c: Cfg, disk: Disk, d: Slot, buf: seq<Entry>, i: nat, a: nat, b: nat)
    requires c.ipg0 > 0 && i < LiveLen(buf) && Descends(p, disk, buf[i], c.ipg0)
    requires var child := SlotOf(Strip(buf[i].ino), c.ipg0);
             && child in disk && c.rank(child) < c.rank(d)
             && Walk(p, c, disk, child, a).Done?
             && Children(p, c, Walk(p, c, disk, child, a).disk, d, buf, i + 1, b).Done?
    ensures Children(p, c, disk, d, buf, i, a + b).Done?
  {
    var child := SlotOf(Strip(buf[i].ino), c.ipg0);
    var o1 := Walk(p, c, disk, child, a);
    WalkAnyPower(p, c, disk, child, a, a + b);
    ChildrenAnyPower(p, c, o1.disk, d, buf, i + 1, b, b + o1.power);
  }

  lemma {:induction false} SbsEnough(sbs: seq<nat>, k: nat, ipg: nat, power: nat)
    requires k <= |sbs| && power >= |sbs| - k
    ensures WriteSbs(sbs, k, ipg, power).2
    ensures WriteSbs(sbs, k, ipg, power).1 == power - (|sbs| - k)
    decreases |sbs| - k
  {
    if k < |sbs| {
      SbsEnough(sbs[k := ipg], k + 1, ipg, power - 1);
    }
  }

  /** So much power completes the run. */
  ghost predicate Completes(t: Tool, img: Image, n: nat)
    requires ToolWf(t, img)
  {
    RunTool(t, img, n).ending.Completed?
  }

  /** Power, of at least a given amount, that completes the run. */
  lemma {:induction false} RunEnough(t: Tool, disk0: Disk, ipg: nat, img: Image, more: nat)
    returns (n: nat)
    requires ImageInv(t, disk0, ipg, img) && ToolWf(t, img)
    ensures n >= more && Completes(t, img, n)
    decreases StepsLeft(img.state), 1
  {
    if img.state.UpdatingSb? {
      n := |img.sbs| + 2 + more;
      EndEnough(t, img, n);
    } else if img.state.Unset? {
      StartStep(t, disk0, ipg, img, more);
      var m := RunEnough(t, disk0, ipg, img.(state := MarkingInums, locked := true), more);
      StartStep(t, disk0, ipg, img, m);
      n := m + 2;
    } else {
      n := PhaseRunEnough(t, disk0, ipg, img, more);
    }
  }

  lemma {:induction false} PhaseRunEnough(t: Tool, disk0: Disk, ipg: nat, img: Image, more: nat)
    returns (n: nat)
    requires ImageInv(t, disk0, ipg, img) && ToolWf(t, img)
    requires img.state.MarkingInums? || img.state.UpdatingInums?
    ensures n >= more && Completes(t, img, n)
    decreases StepsLeft(img.state), 0
  {
    var a, r, img2 := PhaseEnough(t, disk0, ipg, img);
    var b := RunEnough(t, disk0, ipg, img2, more + r);
    n := PhaseCompose(t, img, a, r, img2, b);
  }

  /** Two writes take the tool into its first phase. */
  lemma StartStep(t: Tool, disk0: Disk, ipg: nat, img: Image, n: nat)
    requires ImageInv(t, disk0, ipg, img) && ToolWf(t, img) && img.state.Unset?
    ensures var img1 := img.(state := MarkingInums, locked := true);
            && ImageInv(t, disk0, ipg, img1) && ToolWf(t, img1) && StepsLeft(img1.state) < StepsLeft(img.state)
            && (Completes(t, img1, n) ==> Completes(t, img, n + 2))
  {
    StartKeeps(t, disk0, ipg, img, 2);
  }

  lemma EndEnough(t: Tool, img: Image, n: nat)
    requires ToolWf(t, img) && img.state.UpdatingSb? && n >= |img.sbs| + 2
    ensures Completes(t, img, n)
  {
    SbsEnough(img.sbs, 0, Align(img.sbs[0], t.per), n);
  }

  lemma PhaseCompose(t: Tool, img: Image, a: nat, r: nat, img2: Image, b: nat)
    returns (n: nat)
    requires ToolWf(t, img) && (img.state.MarkingInums? || img.state.UpdatingInums?)
    requires var o := Walk(PhaseOf(img.state), CfgOf(t, img.sbs[0]), img.disk, Root(img.sbs[0]), a);
             && o.Done? && o.power == r <= b
             && img2 == img.(disk := o.disk, locked := true, state := NextState(img.state))
    requires ToolWf(t, img2) && Completes(t, img2, b)
    ensures n == a + (b - r + 2) && Completes(t, img, n)
  {
    var p, c, root := PhaseOf(img.state), CfgOf(t, img.sbs[0]), Root(img.sbs[0]);
    n := a + (b - r + 2);
    WalkAnyPower(p, c, img.disk, root, a, n);
  }

  lemma PhaseEnough(t: Tool, disk0: Disk, ipg: nat, img: Image) returns (a: nat, r: nat, img2: Image)
    requires ImageInv(t, disk0, ipg, img) && (img.state.MarkingInums? || img.state.UpdatingInums?)
    ensures ToolWf(t, img)
    ensures var o := Walk(PhaseOf(img.state), CfgOf(t, img.sbs[0]), img.disk, Root(img.sbs[0]), a);
            && o.Done? && o.power == r
            && img2 == img.(disk := o.disk, locked := true, state := NextState(img.state))
    ensures ImageInv(t, disk0, ipg, img2) && ToolWf(t, img2) && StepsLeft(img2.state) < StepsLeft(img.state)
  {
    SoundIsWf(t, disk0, ipg);
    assert img.sbs[0] == ipg;
    var p, c := PhaseOf(img.state), CfgOf(t, ipg);
    a := WalkEnough(p, c, GraphOf(t, disk0, ipg), img.disk, Root(ipg));
    PhaseKeeps(t, disk0, ipg, img, a);
    var o := Walk(p, c, img.disk, Root(ipg), a);
    r := o.power;
    img2 := img.(disk := o.disk, locked := true, state := NextState(img.state));
  }

  /** After every history of power cuts the tool can still be brought to its end. */
  lemma AlwaysCompletes(t: Tool, disk0: Disk, ipg: nat, img: Image, powers: seq<nat>)
    returns (power: nat)
    requires Fresh(t, disk0, ipg, img)
    ensures ToolWf(t, img) && ToolWf(t, Boots(t, img, powers))
    ensures var b := RunTool(t, Boots(t, img, powers), power);
            b.ending.Completed? && Result(t, disk0, ipg, b.img)
  {
    BootsRecoverable(t, disk0, ipg, img, powers);
    var img1 := Boots(t, img, powers);
    if ImageInv(t, disk0, ipg, img1) {
      power := RunEnough(t, disk0, ipg, img1, 0);
    } else {
      RenumberedAgain(t, disk0, ipg);
      power := RunEnough(t, Renumbered(t, disk0, ipg), Align(ipg, t.per), img1, 0);
    }
    RecoverableRun(t, disk0, ipg, img1, power);
  }
}
