/** recurse_dir and the phase driver as they run: a directory buffer edited in
    place, blocks written one by one, a state word on the disk
    (android/ext4_utils/src/ext4fixup.c). */
module FixupTool {
  import opened InodeNumbers
  import opened FixupModel
  import opened FixupRuns

  datatype Status = Ok | Cut | Bad

  /** What the code reports, and leaves on the disk, is what the model says. */
  ghost predicate Agrees(o: Outcome, s: Status, disk: Disk, power: nat) {
    match s
    case Ok => o == Done(disk, power)
    case Cut => o == Crash(disk)
    case Bad => o == Failed(disk)
  }

  class Device {
    var disk: Disk
    var state: State
    var locked: bool
    var sbs: seq<nat>
    /** The writes that still happen before the power fails. */
    var power: nat

    ghost function View(): Image
      reads this
    {
      Image(disk, state, locked, sbs)
    }

    constructor (img: Image, power: nat)
      ensures View() == img && this.power == power
    {
      this.disk, this.state, this.locked, this.sbs := img.disk, img.state, img.locked, img.sbs;
      this.power := power;
    }

    /** recurse_dir. */
    method RecurseDir(d: Slot, p: Phase, ipg0: nat, ipg1: nat, ghost c: Cfg) returns (s: Status)
      requires c.ipg0 == ipg0 && c.ipg1 == ipg1 && ipg0 > 0
      requires !Walk(p, c, disk, d, power).Endless?
      modifies this`disk, this`power
      ensures Agrees(Walk(p, c, old(disk), d, old(power)), s, disk, power)
      decreases c.rank(d), 1
    {
      if d !in disk {
        return Bad;
      }
      var dirbuf;
      s, dirbuf := EditEntries(d, p, ipg0, ipg1, c);
      if s == Ok {
        if d !in disk {
          return Bad;
        }
        s := WriteDir(d, dirbuf);
      }
    }

    /** The loop of recurse_dir over the records: descend, then edit. */
    method EditEntries(d: Slot, p: Phase, ipg0: nat, ipg1: nat, ghost c: Cfg)
      returns (s: Status, dirbuf: array<Entry>)
      requires c.ipg0 == ipg0 && c.ipg1 == ipg1 && ipg0 > 0 && d in disk
      requires !Children(p, c, disk, d, disk[d].entries, 0, power).Endless?
      modifies this`disk, this`power
      ensures Agrees(Children(p, c, old(disk), d, old(disk)[d].entries, 0, old(power)), s, disk, power)
      ensures fresh(dirbuf)
      ensures s == Ok ==> dirbuf[..] == Edited(p, old(disk)[d].entries, ipg0, ipg1)
      decreases c.rank(d), 0
    {
      var entries := disk[d].entries;
      var n := |entries|;
      dirbuf := new Entry[n](i requires 0 <= i < n => entries[i]);
      var i := 0;
      while i < n && dirbuf[i].ino != 0
        invariant i <= LiveLen(entries) && n == |entries| == dirbuf.Length && fresh(dirbuf)
        invariant forall j :: 0 <= j < i ==>
                    dirbuf[j] == entries[j].(ino := EditIno(p, entries[j].ino, ipg0, ipg1))
        invariant forall j :: i <= j < n ==> dirbuf[j] == entries[j]
        invariant Children(p, c, disk, d, entries, i, power)
                    == Children(p, c, old(disk), d, entries, 0, old(power))
      {
        ChildrenStep(p, c, disk, d, entries, i, power);
        if Descends(p, disk, dirbuf[i], ipg0) {
          var child := SlotOf(Strip(dirbuf[i].ino), ipg0);
          if child !in disk {
            return Bad, dirbuf;
          }
          s := RecurseDir(child, p, ipg0, ipg1, c);
          if s != Ok {
            return;
          }
        }
        dirbuf[i] := dirbuf[i].(ino := EditIno(p, dirbuf[i].ino, ipg0, ipg1));
        i := i + 1;
      }
      assert i == LiveLen(entries);
      assert dirbuf[..] == Edited(p, entries, ipg0, ipg1);
      s := Ok;
    }

    /** The closing loop of recurse_dir: the blocks of the buffer, in order. */
    method WriteDir(d: Slot, dirbuf: array<Entry>) returns (s: Status)
      requires d in disk
      modifies this`disk, this`power
      ensures Agrees(WriteBlocks(old(disk), d, dirbuf[..], 0, old(power)), s, disk, power)
    {
      var k := 0;
      while k + 1 < |disk[d].cuts|
        invariant d in disk && disk[d].cuts == old(disk)[d].cuts
        invariant WriteBlocks(disk, d, dirbuf[..], k, power)
                    == WriteBlocks(old(disk), d, dirbuf[..], 0, old(power))
        decreases |disk[d].cuts| - k
      {
        if power == 0 {
          return Cut;
        }
        disk := disk[d := WriteBlock(disk[d], dirbuf[..], k)];
        power := power - 1;
        k := k + 1;
      }
      s := Ok;
    }

    /** set_fs_fixup_state. */
    method SetFixupState(s: State) returns (alive: bool)
      modifies this`state, this`locked, this`power
      ensures SetState(old(View()), s, old(power)) == (View(), power, alive)
    {
      if power == 0 {
        return false;
      }
      state, power := s, power - 1;
      if power == 0 {
        return false;
      }
      locked, power := s != Unset, power - 1;
      alive := true;
    }

    /** The superblock copies of update_superblocks_and_bg_desc. */
    method UpdateSuperblocks(ipg1: nat) returns (alive: bool)
      modifies this`sbs, this`power
      ensures WriteSbs(old(sbs), 0, ipg1, old(power)) == (sbs, power, alive)
    {
      var k := 0;
      while k < |sbs|
        invariant WriteSbs(sbs, k, ipg1, power) == WriteSbs(old(sbs), 0, ipg1, old(power))
        decreases |sbs| - k
      {
        if power == 0 {
          return false;
        }
        sbs := sbs[k := ipg1];
        power := power - 1;
        k := k + 1;
      }
      alive := true;
    }

    /** The run that was to end in `goal` has ended so, or goes on to it. */
    ghost predicate Heading(t: Tool, base: Disk, ipg: nat, goal: Boot, on: bool, e: Ending)
      reads this
    {
      if on then
        ToolWf(t, View()) && ImageInv(t, base, ipg, View()) && RunTool(t, View(), power) == goal
      else goal == Boot(View(), e)
    }

    /** The first state word. */
    method Start(ghost t: Tool, ghost base: Disk, ghost ipg: nat) returns (on: bool)
      requires ToolWf(t, View()) && ImageInv(t, base, ipg, View()) && state == Unset
      modifies this`power, this`state, this`locked
      ensures Heading(t, base, ipg, RunTool(t, old(View()), old(power)), on, PowerCut)
      ensures on ==> state == MarkingInums
    {
      StartKeeps(t, base, ipg, View(), power);
      on := SetFixupState(MarkingInums);
    }

    /** One phase: the recursive pass from the root, then the next state word. */
    method RunPhase(per: nat, ghost t: Tool, ghost base: Disk, ghost ipg: nat) returns (on: bool)
      requires per == t.per && ToolWf(t, View()) && ImageInv(t, base, ipg, View())
      requires state == MarkingInums || state == UpdatingInums
      modifies this`disk, this`power, this`state, this`locked
      ensures Heading(t, base, ipg, RunTool(t, old(View()), old(power)), on, PowerCut)
      ensures on ==> state == NextState(old(state))
    {
      PhaseFacts(t, base, ipg, View(), power);
      var ipg0 := sbs[0];
      var s := RecurseDir(Root(ipg0), PhaseOf(state), ipg0, Align(ipg0, per), CfgOf(t, ipg0));
      if s != Ok {
        return false;
      }
      on := SetFixupState(NextState(state));
    }

    /** The superblocks and the last state word. */
    method Finish(per: nat, ghost t: Tool) returns (e: Ending)
      requires per == t.per && ToolWf(t, View()) && state == UpdatingSb
      modifies this`sbs, this`power, this`state, this`locked
      ensures RunTool(t, old(View()), old(power)) == Boot(View(), e)
    {
      var alive := UpdateSuperblocks(Align(sbs[0], per));
      if alive {
        alive := SetFixupState(Unset);
      }
      e := if alive then Completed else PowerCut;
    }

    /** ext4fixup_internal: one start of the tool. */
    method Run(per: nat, ghost t: Tool, ghost disk0: Disk, ghost ipg: nat) returns (e: Ending)
      requires per == t.per && Recoverable(t, disk0, ipg, View())
      modifies this
      ensures RunTool(t, old(View()), old(power)) == Boot(View(), e)
      ensures Recoverable(t, disk0, ipg, View())
      ensures e.Completed? ==> Result(t, disk0, ipg, View())
    {
      RecoverableRun(t, disk0, ipg, View(), power);
      ghost var first := ImageInv(t, disk0, ipg, View());
      e := RunStates(per, t, if first then disk0 else Renumbered(t, disk0, ipg),
                     if first then ipg else Align(ipg, t.per));
    }

    method RunStates(per: nat, ghost t: Tool, ghost base: Disk, ghost ipg: nat) returns (e: Ending)
      requires per == t.per && ToolWf(t, View()) && ImageInv(t, base, ipg, View())
      modifies this
      ensures RunTool(t, old(View()), old(power)) == Boot(View(), e)
    {
      var on := true;
      if state == Unset {
        on := Start(t, base, ipg);
      }
      if on && state == MarkingInums {
        on := RunPhase(per, t, base, ipg);
      }
      if on && state == UpdatingInums {
        on := RunPhase(per, t, base, ipg);
      }
      e := PowerCut;
      if on {
        e := Finish(per, t);
      }
    }
  }

  lemma PhaseFacts(t: Tool, base: Disk, ipg: nat, img: Image, power: nat)
    requires ImageInv(t, base, ipg, img) && ToolWf(t, img)
    requires img.state.MarkingInums? || img.state.UpdatingInums?
    ensures var o := Walk(PhaseOf(img.state), CfgOf(t, img.sbs[0]), img.disk, Root(img.sbs[0]), power);
            var (alive, img2, power2) := PhaseEnd(img, o);
            && (o.Done? || o.Crash?) && ImageInv(t, base, ipg, img2) && ToolWf(t, img2)
            && (alive ==> img2.state == NextState(img.state))
            && RunTool(t, img, power) == if alive then RunTool(t, img2, power2) else Boot(img2, PowerCut)
  {
    assert img.sbs[0] == ipg;
    PhaseStep(t, img, power);
    PhaseKeeps(t, base, ipg, img, power);
    PhaseEndKeeps(t, base, ipg, img,
                  Walk(PhaseOf(img.state), CfgOf(t, ipg), img.disk, Root(ipg), power));
  }
}
