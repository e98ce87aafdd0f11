/** When a half-changed image can still be mounted: the state word is written before
    the bit that forbids mounting (android/ext4_utils/src/ext4fixup.c,
    set_fs_fixup_state). */
module FixupExposure {
  import opened InodeNumbers
  import opened FixupModel
  import opened FixupRuns
  import opened FixupCount

  /** The image is being changed although nothing keeps it from being mounted. */
  ghost predicate Exposed(img: Image) {
    !img.state.Unset? && !img.locked
  }

  /** Nothing is under way, and the image may be mounted. */
  ghost predicate Idle(img: Image) {
    img.state.Unset? && !img.locked
  }

  // -------------------------------------------------------------- one start

  /** The writes that a start makes until the mount bit is settled: those of the pass or
      of the superblocks, the state word, and on the way to the next phase the bit. */
  ghost function Needed(t: Tool, img: Image): nat {
    if !ToolWf(t, img) || img.state.Unset? then 0
    else if img.state.UpdatingSb? then |img.sbs| + 1
    else
      Count(PhaseOf(img.state), CfgOf(t, img.sbs[0]), img.disk, Root(img.sbs[0]), {}).writes + 2
  }

  lemma {:induction false} LockedStays(t: Tool, img: Image, power: nat)
    requires ToolWf(t, img) && img.locked
    ensures !Exposed(RunTool(t, img, power).img)
    decreases StepsLeft(img.state)
  {
    match img.state
    case Unset =>
      if power >= 2 {
        LockedStays(t, img.(state := MarkingInums), power - 2);
      }
    case UpdatingSb =>
    case _ =>
      var ipg := img.sbs[0];
      var o := Walk(PhaseOf(img.state), CfgOf(t, ipg), img.disk, Root(ipg), power);
      if o.Done? && o.power >= 2 {
        LockedStays(t, img.(disk := o.disk, state := NextState(img.state)), o.power - 2);
      }
  }

  /** The first start on an idle image exposes it exactly when the power fails between
      the state word and the mount bit. */
  lemma IdleExposed(t: Tool, img: Image, power: nat)
    requires ToolWf(t, img) && Idle(img)
    ensures Exposed(RunTool(t, img, power).img) <==> power == 1
  {
    if power >= 2 {
      LockedStays(t, img.(state := MarkingInums, locked := true), power - 2);
    }
  }

  lemma {:induction false} SbsPower(sbs: seq<nat>, k: nat, ipg: nat, power: nat)
    requires k <= |sbs|
    ensures WriteSbs(sbs, k, ipg, power).2 <==> power >= |sbs| - k
    ensures power >= |sbs| - k ==> WriteSbs(sbs, k, ipg, power).1 == power - (|sbs| - k)
    decreases |sbs| - k
  {
    if k < |sbs| && power > 0 {
      SbsPower(sbs[k := ipg], k + 1, ipg, power - 1);
    }
  }

  /** The pass that the image is in, with power for so many writes. */
  ghost function PassOf(t: Tool, img: Image, power: nat): Outcome
    requires ToolWf(t, img)
  {
    Walk(PhaseOf(img.state), CfgOf(t, img.sbs[0]), img.disk, Root(img.sbs[0]), power)
  }

  /** An exposed image stays exposed while a pass runs, and until the bit is settled. */
  lemma PassExposed(t: Tool, img: Image, power: nat)
    requires ToolWf(t, img) && !img.locked && (img.state.MarkingInums? || img.state.UpdatingInums?)
    requires var o := PassOf(t, img, power);
             && (o.Done? || o.Crash?)
             && (o.Done? <==> power + 2 >= Needed(t, img))
             && (o.Done? ==> o.power == power + 2 - Needed(t, img))
    ensures Exposed(RunTool(t, img, power).img) <==> power < Needed(t, img)
  {
    var o := PassOf(t, img, power);
    var (alive, img2, power2) := PhaseEnd(img, o);
    PhaseStep(t, img, power);
    if alive {
      LockedStays(t, img2, power2);
    }
  }

  lemma EndExposed(t: Tool, img: Image, power: nat)
    requires ToolWf(t, img) && !img.locked && img.state.UpdatingSb?
    ensures Exposed(RunTool(t, img, power).img) <==> power < Needed(t, img)
  {
    SbsPower(img.sbs, 0, Align(img.sbs[0], t.per), power);
  }

  /** One start on any image that a history of power cuts can leave: it leaves the image
      exposed exactly when it exposes an idle one, or has too little power to settle the
      mount bit of an exposed one. */
  lemma ExposedExactly(t: Tool, disk0: Disk, ipg: nat, img: Image, power: nat)
    requires Recoverable(t, disk0, ipg, img)
    ensures Exposed(RunTool(t, img, power).img) <==>
            if Exposed(img) then power < Needed(t, img) else Idle(img) && power == 1
  {
    if img.locked {
      LockedStays(t, img, power);
    } else if img.state.Unset? {
      IdleExposed(t, img, power);
    } else if img.state.UpdatingSb? {
      EndExposed(t, img, power);
    } else if ImageInv(t, disk0, ipg, img) {
      PhaseFits(t, disk0, ipg, img, power);
      PassExposed(t, img, power);
    } else {
      RenumberedAgain(t, disk0, ipg);
      PhaseFits(t, Renumbered(t, disk0, ipg), Align(ipg, t.per), img, power);
      PassExposed(t, img, power);
    }
  }

  /** A pass uses as much power as was counted beforehand. */
  lemma PhaseFits(t: Tool, disk0: Disk, ipg: nat, img: Image, power: nat)
    requires ImageInv(t, disk0, ipg, img) && (img.state.MarkingInums? || img.state.UpdatingInums?)
    ensures ToolWf(t, img)
    ensures var o := PassOf(t, img, power);
            && (o.Done? || o.Crash?)
            && (o.Done? <==> power + 2 >= Needed(t, img))
            && (o.Done? ==> o.power == power + 2 - Needed(t, img))
  {
    SoundIsWf(t, disk0, ipg);
    PhaseKeeps(t, disk0, ipg, img, power);
    assert img.sbs[0] == ipg;
    CountExactly(PhaseOf(img.state), CfgOf(t, ipg), GraphOf(t, disk0, ipg), img.disk, Root(ipg), power);
  }

  // ------------------------------------------------------------- every history

  /** Start j found an idle image and failed after one write, and no start since had the
      power to settle the mount bit. */
  ghost predicate ExposedSince(t: Tool, img: Image, powers: seq<nat>, j: nat)
    requires ToolWf(t, img) && j < |powers|
  {
    && Idle(Boots(t, img, powers[..j])) && powers[j] == 1
    && forall i {:trigger Short(t, img, powers, i)} :: j < i < |powers| ==> Short(t, img, powers, i)
  }

  /** Start i has too little power to settle the mount bit. */
  ghost predicate Short(t: Tool, img: Image, powers: seq<nat>, i: nat)
    requires ToolWf(t, img) && i < |powers|
  {
    powers[i] < Needed(t, Boots(t, img, powers[..i]))
  }

  /** A history of starts leaves an exposed image exactly when one of them exposes an
      idle image and none after it settles the mount bit. */
  lemma {:induction false} ExposedHistories(t: Tool, disk0: Disk, ipg: nat, img: Image, powers: seq<nat>)
    requires Fresh(t, disk0, ipg, img)
    ensures ToolWf(t, img)
    ensures Exposed(Boots(t, img, powers)) <==> exists j :: 0 <= j < |powers| && ExposedSince(t, img, powers, j)
    decreases |powers|
  {
    if powers != [] {
      var n := |powers| - 1;
      var before, img1 := powers[..n], Boots(t, img, powers[..n]);
      ExposedHistories(t, disk0, ipg, img, before);
      BootsRecoverable(t, disk0, ipg, img, before);
      ExposedExactly(t, disk0, ipg, img1, powers[n]);
      forall j | 0 <= j < n
        ensures ExposedSince(t, img, powers, j) <==>
                ExposedSince(t, img, before, j) && powers[n] < Needed(t, img1)
      {
        SinceGrows(t, img, powers, j);
      }
      assert ExposedSince(t, img, powers, n) <==> Idle(img1) && powers[n] == 1;
      if exists j :: 0 <= j < n && ExposedSince(t, img, powers, j) {
        assert Exposed(img1);
      }
      if Exposed(Boots(t, img, powers)) {
        if Exposed(img1) {
          var j :| 0 <= j < n && ExposedSince(t, img, before, j);
          assert ExposedSince(t, img, powers, j);
        } else {
          assert ExposedSince(t, img, powers, n);
        }
      }
    }
  }

  lemma SinceGrows(t: Tool, img: Image, powers: seq<nat>, j: nat)
    requires ToolWf(t, img) && j + 1 < |powers|
    ensures var n := |powers| - 1;
            ExposedSince(t, img, powers, j) <==>
            ExposedSince(t, img, powers[..n], j) && powers[n] < Needed(t, Boots(t, img, powers[..n]))
  {
    var n := |powers| - 1;
    var before := powers[..n];
    assert before[..j] == powers[..j];
    forall i | 0 <= i < n ensures Short(t, img, before, i) <==> Short(t, img, powers, i) {
      assert before[..i] == powers[..i];
    }
    assert Short(t, img, powers, n) <==> powers[n] < Needed(t, Boots(t, img, before));
    if ExposedSince(t, img, before, j) && Short(t, img, powers, n) {
      forall i | j < i < |powers| ensures Short(t, img, powers, i) {
        assert i < n ==> Short(t, img, before, i);
      }
    }
  }
}
