/** What renumbering is for: every entry gets its new number and every path leads to the
    same inode as before, as long as no unused record hides entries from the tool and
    "." and ".." do not lead out of the tree that is renumbered. */
module FixupPaths {
  import opened Arithmetic
  import opened InodeNumbers
  import opened FixupModel
  import opened FixupRuns

  datatype Option<+T> = None | Some(value: T)

  /** The position of the first record with a name, from record i on; records with inode
      0 are unused. */
  function Lookup(es: seq<Entry>, name: string, i: nat): (r: Option<nat>)
    ensures r.Some? ==> i <= r.value < |es| && es[r.value].ino != 0
    decreases |es| - i
  {
    if i >= |es| then None
    else if es[i].ino != 0 && es[i].name == name then Some(i)
    else Lookup(es, name, i + 1)
  }

  /** The inode that a path leads to from directory d. */
  function Resolve(disk: Disk, ipg: nat, d: Slot, path: seq<string>): Option<Slot>
    requires ipg > 0
  {
    if path == [] then Some(d)
    else
      var n := |path| - 1;
      match Resolve(disk, ipg, d, path[..n])
      case None => None
      case Some(x) => if x in disk then Follow(disk, ipg, x, path[n]) else None
  }

  /** One name in a directory. */
  function Follow(disk: Disk, ipg: nat, x: Slot, name: string): Option<Slot>
    requires ipg > 0 && x in disk
  {
    match Lookup(disk[x].entries, name, 0)
    case None => None
    case Some(k) => Some(SlotOf(disk[x].entries[k].ino, ipg))
  }

  /** They do so for the inodes of the first group, and for all if nothing changes. */
  lemma AlikeExactly(ino: u32, ipg0: nat, ipg1: nat)
    requires 0 < ipg0 <= ipg1 && ino >= 1
    ensures SlotOf(ino, ipg1) == SlotOf(ino, ipg0) <==> ipg0 == ipg1 || ino - 1 < ipg0
  {
    var n := ino - 1;
    assert Pred(ino) == n;
    Divides(n, ipg0);
    Divides(n, ipg1);
    StrictMul(n / ipg0, ipg0, ipg1);
    if n < ipg0 {
      DivModUnique(0, n, ipg0);
      DivModUnique(0, n, ipg1);
    }
  }

  lemma StrictMul(q: nat, a: nat, b: nat)
    ensures q > 0 && a < b ==> q * a < q * b
  {
    if q > 0 && a < b {
      MulStep(a, b, q);
    }
  }

  /** A number that renumbering leaves as it is. */
  lemma FixedExactly(ino: u32, ipg0: nat, ipg1: nat)
    requires 0 < ipg0 <= ipg1 && Fits(ino, ipg0, ipg1)
    ensures NewInum(ino, ipg0, ipg1) == ino <==> ipg0 == ipg1 || ino - 1 < ipg0
  {
    AlikeExactly(ino, ipg0, ipg1);
    NewInumKeepsSlot(ino, ipg0, ipg1);
    if SlotOf(ino, ipg1) == SlotOf(ino, ipg0) {
      SlotInjective(NewInum(ino, ipg0, ipg1), ino, ipg1);
    }
  }

  /** A path leads to a directory. */
  ghost predicate Reached(disk0: Disk, ipg: nat, path: seq<string>)
    requires ipg > 0
  {
    var x := Resolve(disk0, ipg, Root(ipg), path);
    x.Some? && x.value in disk0
  }

  ghost function DirAt(disk0: Disk, ipg: nat, path: seq<string>): Slot
    requires ipg > 0 && Reached(disk0, ipg, path)
  {
    Resolve(disk0, ipg, Root(ipg), path).value
  }

  /** The tool does not come to record k of directory x: it does not come to the
      directory, or an unused record stands before the record. */
  ghost predicate Missed(t: Tool, disk0: Disk, ipg: nat, x: Slot, k: nat)
    requires t.per > 0 && ipg > 0 && x in disk0
  {
    x !in Reach(t, disk0, ipg) || k >= LiveLen(disk0[x].entries)
  }

  /** A name leads to a record that the tool misses. */
  ghost predicate MissedName(t: Tool, disk0: Disk, ipg: nat, x: Slot, name: string)
    requires t.per > 0 && ipg > 0 && x in disk0
  {
    var k := Lookup(disk0[x].entries, name, 0);
    k.Some? && Missed(t, disk0, ipg, x, k.value)
  }

  /** The two group sizes read the number that a name leads to alike. */
  ghost predicate ReadAlike(ipg0: nat, ipg1: nat, es: seq<Entry>, name: string)
    requires ipg0 > 0 && ipg1 > 0
  {
    var k := Lookup(es, name, 0);
    k.Some? ==> SlotOf(es[k.value].ino, ipg1) == SlotOf(es[k.value].ino, ipg0)
  }

  /** Where paths come to records that the tool misses, both group sizes read their
      numbers alike. */
  ghost predicate MissedAlike(t: Tool, disk0: Disk, ipg: nat)
    requires t.per > 0 && ipg > 0 && Align(ipg, t.per) > 0
  {
    forall path, name :: Reached(disk0, ipg, path) && MissedName(t, disk0, ipg, DirAt(disk0, ipg, path), name) ==>
      ReadAlike(ipg, Align(ipg, t.per), disk0[DirAt(disk0, ipg, path)].entries, name)
  }

  /** The path leads to the same inode on both disks. */
  ghost predicate SamePath(disk1: Disk, ipg1: nat, disk0: Disk, ipg0: nat, path: seq<string>)
    requires ipg1 > 0 && ipg0 > 0
  {
    Resolve(disk1, ipg1, Root(ipg1), path) == Resolve(disk0, ipg0, Root(ipg0), path)
  }

  ghost predicate AllPaths(disk1: Disk, ipg1: nat, disk0: Disk, ipg0: nat)
    requires ipg1 > 0 && ipg0 > 0
  {
    forall path :: SamePath(disk1, ipg1, disk0, ipg0, path)
  }

  ghost predicate PathKept(t: Tool, disk0: Disk, ipg: nat, path: seq<string>)
    requires t.per > 0 && ipg > 0 && Align(ipg, t.per) > 0
  {
    SamePath(Renumbered(t, disk0, ipg), Align(ipg, t.per), disk0, ipg, path)
  }

  lemma SameRoot(t: Tool, ipg: nat)
    requires t.per > 0 && ipg >= 2
    ensures Align(ipg, t.per) > 0 && Root(Align(ipg, t.per)) == Root(ipg) == Slot(0, 1)
  {
    AlignStable(ipg, t.per);
  }

  // ------------------------------------------------------------- the records

  /** What becomes of one record. */
  lemma RecordAfter(t: Tool, disk0: Disk, ipg: nat, x: Slot, k: nat)
    requires Sound(t, disk0, ipg) && x in disk0 && k < |disk0[x].entries|
    ensures var ipg1, disk1 := Align(ipg, t.per), Renumbered(t, disk0, ipg);
            && ipg <= ipg1 && |disk1[x].entries| == |disk0[x].entries|
            && var o, e := disk0[x].entries[k], disk1[x].entries[k];
               && e == o.(ino := e.ino) && (e.ino == 0 <==> o.ino == 0)
               && (Missed(t, disk0, ipg, x, k) ==> e == o)
               && (!Missed(t, disk0, ipg, x, k) ==>
                     && o.ino != 0 && e.ino == NewInum(o.ino, ipg, ipg1)
                     && SlotOf(e.ino, ipg1) == SlotOf(o.ino, ipg))
  {
    AlignStable(ipg, t.per);
    if !Missed(t, disk0, ipg, x, k) {
      RenumberedEntry(t, disk0, ipg, x, k);
    }
  }

  /** Every record in use, in every directory that a path leads to, has its new number. */
  ghost predicate AllRenumbered(disk1: Disk, ipg1: nat, disk0: Disk, ipg: nat)
    requires ipg > 0
  {
    forall path, k: nat :: Reached(disk0, ipg, path) && InUse(disk0, DirAt(disk0, ipg, path), k) ==>
      HasNumber(disk1, DirAt(disk0, ipg, path), k, NewInum(disk0[DirAt(disk0, ipg, path)].entries[k].ino, ipg, ipg1))
  }

  predicate InUse(disk0: Disk, x: Slot, k: nat)
    requires x in disk0
  {
    k < |disk0[x].entries| && disk0[x].entries[k].ino != 0
  }

  predicate HasNumber(disk1: Disk, x: Slot, k: nat, ino: u32) {
    x in disk1 && k < |disk1[x].entries| && disk1[x].entries[k].ino == ino
  }

  /** The records in use that the tool misses keep their numbers by renumbering. */
  ghost predicate MissedFixed(t: Tool, disk0: Disk, ipg: nat)
    requires t.per > 0 && ipg > 0
  {
    forall path, k: nat :: Reached(disk0, ipg, path) && InUse(disk0, DirAt(disk0, ipg, path), k) &&
                           Missed(t, disk0, ipg, DirAt(disk0, ipg, path), k) ==>
      NewInum(disk0[DirAt(disk0, ipg, path)].entries[k].ino, ipg, Align(ipg, t.per))
        == disk0[DirAt(disk0, ipg, path)].entries[k].ino
  }

  /** Every entry is renumbered exactly when those that the tool misses need no new
      number. */
  lemma EntriesExactly(t: Tool, disk0: Disk, ipg: nat)
    requires Sound(t, disk0, ipg)
    ensures AllRenumbered(Renumbered(t, disk0, ipg), Align(ipg, t.per), disk0, ipg) <==> MissedFixed(t, disk0, ipg)
  {
    forall path, k: nat | Reached(disk0, ipg, path) && InUse(disk0, DirAt(disk0, ipg, path), k)
      ensures var x := DirAt(disk0, ipg, path);
              var n := NewInum(disk0[x].entries[k].ino, ipg, Align(ipg, t.per));
              HasNumber(Renumbered(t, disk0, ipg), x, k, n) <==>
              (Missed(t, disk0, ipg, x, k) ==> n == disk0[x].entries[k].ino)
    {
      RecordAfter(t, disk0, ipg, DirAt(disk0, ipg, path), k);
    }
  }

  /** After any history of power cuts, once a start of the tool completes, every entry of
      every directory that paths lead to has its new number, exactly when the entries
      that the tool misses need none. */
  lemma EntriesSurvive(t: Tool, disk0: Disk, ipg: nat, img: Image, powers: seq<nat>, power: nat)
    requires Fresh(t, disk0, ipg, img)
    ensures ToolWf(t, img) && ToolWf(t, Boots(t, img, powers)) && Align(ipg, t.per) > 0
    ensures var b := RunTool(t, Boots(t, img, powers), power);
            b.ending.Completed? ==>
              (AllRenumbered(b.img.disk, Align(ipg, t.per), disk0, ipg) <==> MissedFixed(t, disk0, ipg))
  {
    AlignStable(ipg, t.per);
    CrashSafe(t, disk0, ipg, img, powers, power);
    EntriesExactly(t, disk0, ipg);
  }

  // ------------------------------------------------------- what the tool misses

  /** The tool comes to every record in use of every directory that a path leads to. */
  ghost predicate NothingMissed(t: Tool, disk0: Disk, ipg: nat)
    requires t.per > 0 && ipg > 0
  {
    forall path, k: nat :: Reached(disk0, ipg, path) && InUse(disk0, DirAt(disk0, ipg, path), k) ==>
      !Missed(t, disk0, ipg, DirAt(disk0, ipg, path), k)
  }

  /** No record in use stands behind an unused one. */
  predicate GapFree(es: seq<Entry>) {
    forall i, k :: 0 <= i < k < |es| && es[k].ino != 0 ==> es[i].ino != 0
  }

  ghost predicate NoGaps(disk0: Disk, ipg: nat)
    requires ipg > 0
  {
    forall path :: Reached(disk0, ipg, path) ==> GapFree(disk0[DirAt(disk0, ipg, path)].entries)
  }

  /** Records that the tool comes to, "." and ".." among them, lead to no directory that
      it does not come to. */
  ghost predicate Contained(t: Tool, disk0: Disk, ipg: nat) {
    && Sound(t, disk0, ipg)
    && forall x, i :: x in Reach(t, disk0, ipg) && Live(disk0[x].entries, i) ==>
         SlotOf(disk0[x].entries[i].ino, ipg) in disk0 ==>
           SlotOf(disk0[x].entries[i].ino, ipg) in Reach(t, disk0, ipg)
  }

  lemma GapFreeLive(es: seq<Entry>)
    ensures GapFree(es) <==> forall k :: 0 <= k < |es| && es[k].ino != 0 ==> k < LiveLen(es)
  {
  }

  /** Without gaps, paths stay among the directories that the tool comes to. */
  lemma {:induction false} PathsInside(t: Tool, disk0: Disk, ipg: nat, path: seq<string>)
    requires Contained(t, disk0, ipg) && NoGaps(disk0, ipg) && Reached(disk0, ipg, path)
    ensures DirAt(disk0, ipg, path) in Reach(t, disk0, ipg)
    decreases |path|
  {
    if path != [] {
      var n := |path| - 1;
      PathsInside(t, disk0, ipg, path[..n]);
      var x := DirAt(disk0, ipg, path[..n]);
      GapFreeLive(disk0[x].entries);
      var k := Lookup(disk0[x].entries, path[n], 0).value;
      assert Live(disk0[x].entries, k);
    }
  }

  /** In a tree that "." and ".." do not leave, the tool comes to every record in use
      exactly when none of them stands behind an unused one. */
  lemma NothingMissedExactly(t: Tool, disk0: Disk, ipg: nat)
    requires Contained(t, disk0, ipg)
    ensures NothingMissed(t, disk0, ipg) <==> NoGaps(disk0, ipg)
  {
    if NothingMissed(t, disk0, ipg) {
      forall path | Reached(disk0, ipg, path) ensures GapFree(disk0[DirAt(disk0, ipg, path)].entries) {
        var x := DirAt(disk0, ipg, path);
        GapFreeLive(disk0[x].entries);
        forall k | 0 <= k < |disk0[x].entries| && disk0[x].entries[k].ino != 0
          ensures k < LiveLen(disk0[x].entries)
        {
          assert InUse(disk0, x, k);
        }
      }
    }
    if NoGaps(disk0, ipg) {
      forall path, k: nat | Reached(disk0, ipg, path) && InUse(disk0, DirAt(disk0, ipg, path), k)
        ensures !Missed(t, disk0, ipg, DirAt(disk0, ipg, path), k)
      {
        PathsInside(t, disk0, ipg, path);
        GapFreeLive(disk0[DirAt(disk0, ipg, path)].entries);
      }
    }
  }

  // --------------------------------------------------------------- the paths

  lemma {:induction false} SameLookup(es: seq<Entry>, es1: seq<Entry>, name: string, i: nat)
    requires |es1| == |es|
    requires forall k :: 0 <= k < |es| ==> es1[k].name == es[k].name && (es1[k].ino == 0 <==> es[k].ino == 0)
    ensures Lookup(es1, name, i) == Lookup(es, name, i)
    decreases |es| - i
  {
    if i < |es| {
      SameLookup(es, es1, name, i + 1);
    }
  }

  /** One name, found in a record that is renumbered or in one that is missed. */
  lemma SameFollow(t: Tool, disk0: Disk, ipg: nat, x: Slot, name: string)
    requires Sound(t, disk0, ipg) && x in disk0
    ensures Align(ipg, t.per) > 0
    ensures Follow(Renumbered(t, disk0, ipg), Align(ipg, t.per), x, name) == Follow(disk0, ipg, x, name) <==>
            (MissedName(t, disk0, ipg, x, name) ==> ReadAlike(ipg, Align(ipg, t.per), disk0[x].entries, name))
  {
    AlignStable(ipg, t.per);
    var es, es1 := disk0[x].entries, Renumbered(t, disk0, ipg)[x].entries;
    assert |es1| == |es|;
    forall k | 0 <= k < |es| ensures es1[k].name == es[k].name && (es1[k].ino == 0 <==> es[k].ino == 0) {
      RecordAfter(t, disk0, ipg, x, k);
    }
    SameLookup(es, es1, name, 0);
    if Lookup(es, name, 0).Some? {
      RecordAfter(t, disk0, ipg, x, Lookup(es, name, 0).value);
    }
  }

  /** A path is kept if those it starts with are, and no missed record on the way is
      misread. */
  lemma {:induction false} PathFollowed(t: Tool, disk0: Disk, ipg: nat, path: seq<string>)
    requires Sound(t, disk0, ipg) && Align(ipg, t.per) > 0 && MissedAlike(t, disk0, ipg)
    ensures PathKept(t, disk0, ipg, path)
    decreases |path|
  {
    SameRoot(t, ipg);
    if path != [] {
      var n := |path| - 1;
      PathFollowed(t, disk0, ipg, path[..n]);
      if Reached(disk0, ipg, path[..n]) {
        SameFollow(t, disk0, ipg, DirAt(disk0, ipg, path[..n]), path[n]);
      }
    }
  }

  /** Renumbering preserves the meaning of all paths exactly when those that come to a
      record that the tool misses read no number that changes its meaning. */
  lemma SamePaths(t: Tool, disk0: Disk, ipg: nat)
    requires Sound(t, disk0, ipg)
    ensures Align(ipg, t.per) > 0
    ensures AllPaths(Renumbered(t, disk0, ipg), Align(ipg, t.per), disk0, ipg) <==> MissedAlike(t, disk0, ipg)
  {
    SameRoot(t, ipg);
    if MissedAlike(t, disk0, ipg) {
      forall path ensures SamePath(Renumbered(t, disk0, ipg), Align(ipg, t.per), disk0, ipg, path) {
        PathFollowed(t, disk0, ipg, path);
      }
    }
    if AllPaths(Renumbered(t, disk0, ipg), Align(ipg, t.per), disk0, ipg) {
      forall path, name |
        Reached(disk0, ipg, path) && MissedName(t, disk0, ipg, DirAt(disk0, ipg, path), name)
        ensures ReadAlike(ipg, Align(ipg, t.per), disk0[DirAt(disk0, ipg, path)].entries, name)
      {
        assert (path + [name])[..|path|] == path;
        assert PathKept(t, disk0, ipg, path) && PathKept(t, disk0, ipg, path + [name]);
        SameFollow(t, disk0, ipg, DirAt(disk0, ipg, path), name);
      }
    }
  }

  /** In a tree that paths do not leave, and without gaps, every path is kept. */
  lemma ContainedKept(t: Tool, disk0: Disk, ipg: nat, path: seq<string>)
    requires Contained(t, disk0, ipg) && NoGaps(disk0, ipg)
    ensures Align(ipg, t.per) > 0 && PathKept(t, disk0, ipg, path)
  {
    AlignStable(ipg, t.per);
    NothingMissedExactly(t, disk0, ipg);
    forall p, name | Reached(disk0, ipg, p) ensures !MissedName(t, disk0, ipg, DirAt(disk0, ipg, p), name) {
      var k := Lookup(disk0[DirAt(disk0, ipg, p)].entries, name, 0);
      assert k.Some? ==> InUse(disk0, DirAt(disk0, ipg, p), k.value);
    }
    PathFollowed(t, disk0, ipg, path);
  }

  /** After any history of power cuts, once a start of the tool completes, every path
      from the root leads where it led on the original image, exactly when the paths
      that come to a record that the tool misses read no number that changes its
      meaning. */
  lemma PathsSurvive(t: Tool, disk0: Disk, ipg: nat, img: Image, powers: seq<nat>, power: nat)
    requires Fresh(t, disk0, ipg, img)
    ensures ToolWf(t, img) && ToolWf(t, Boots(t, img, powers)) && Align(ipg, t.per) > 0
    ensures var b := RunTool(t, Boots(t, img, powers), power);
            b.ending.Completed? ==>
              && |b.img.sbs| > 0 && b.img.sbs[0] > 0
              && (AllPaths(b.img.disk, b.img.sbs[0], disk0, ipg) <==> MissedAlike(t, disk0, ipg))
  {
    CrashSafe(t, disk0, ipg, img, powers, power);
    SamePaths(t, disk0, ipg);
  }

  // ------------------------------------------------------------- lost paths

  /** A root directory whose ".." leads to a directory that nothing else leads to; its one
      record has a number beyond the first group. */
  function LostDisk(): Disk {
    map[Slot(0, 1) := Dir([Entry(3, "..", Directory)], [0, 1]),
        Slot(0, 2) := Dir([Entry(5, "f", Other)], [0, 1])]
  }

  /** With four inodes a group and three a block, "../f" is lost. */
  lemma PathLost()
    ensures var t := Tool(3, _ => 0);
            Sound(t, LostDisk(), 4) && Align(4, 3) == 6 && !PathKept(t, LostDisk(), 4, ["..", "f"])
  {
    var t := Tool(3, _ => 0);
    SameRoot(t, 4);
    var disk0 := LostDisk();
    var c := CfgOf(t, 4);
    var es, fs := disk0[Slot(0, 1)].entries, disk0[Slot(0, 2)].entries;
    assert LiveLen(es) == 1 && LiveLen(fs) == 1;
    assert SubFrom(c, disk0, Slot(0, 1), es, 0) == {};
    assert Reach(t, disk0, 4) == {Slot(0, 1)};
    assert Lookup(es, "..", 0) == Some(0) && Lookup(fs, "f", 0) == Some(0);
    assert ["..", "f"][..1] == [".."] && [".."][..0] == [];
    assert Resolve(disk0, 4, Slot(0, 1), []) == Some(Slot(0, 1));
    assert Resolve(disk0, 4, Slot(0, 1), [".."]) == Some(Slot(0, 2));
    SameFollow(t, disk0, 4, Slot(0, 1), "..");
    SameFollow(t, disk0, 4, Slot(0, 2), "f");
    var disk1 := Renumbered(t, disk0, 4);
    assert Resolve(disk1, 6, Slot(0, 1), []) == Some(Slot(0, 1));
    assert Resolve(disk1, 6, Slot(0, 1), [".."]) == Some(Slot(0, 2));
  }

  /** A root directory with an unused record between two entries, as deleting a file can
      leave it; the second entry has a number beyond the first group. */
  function GapDisk(): Disk {
    map[Slot(0, 1) := Dir([Entry(3, "a", Other), Entry(0, "gone", Other), Entry(5, "f", Other)], [0, 3])]
  }

  lemma GapDirectory()
    ensures var es := GapDisk()[Slot(0, 1)].entries;
            LiveLen(es) == 1 && Lookup(es, "f", 0) == Some(2)
  {
    var es := GapDisk()[Slot(0, 1)].entries;
    assert LiveFrom(es, 1) == 1;
    assert Lookup(es, "f", 2) == Some(2);
    assert Lookup(es, "f", 1) == Lookup(es, "f", 2);
  }

  lemma GapTree()
    ensures var t := Tool(3, _ => 0);
            Contained(t, GapDisk(), 4) && Reach(t, GapDisk(), 4) == {Slot(0, 1)} && Align(4, 3) == 6
  {
    var t := Tool(3, _ => 0);
    SameRoot(t, 4);
    GapDirectory();
    assert SubFrom(CfgOf(t, 4), GapDisk(), Slot(0, 1), GapDisk()[Slot(0, 1)].entries, 0) == {};
  }

  /** With four inodes a group and three a block, entry "f" keeps its number and its path
      is lost, although no path leaves the tree. */
  lemma EntryHidden()
    ensures var t := Tool(3, _ => 0);
            && Contained(t, GapDisk(), 4) && Align(4, 3) == 6
            && HasNumber(Renumbered(t, GapDisk(), 4), Slot(0, 1), 2, 5) && NewInum(5, 4, 6) == 7
            && !AllRenumbered(Renumbered(t, GapDisk(), 4), 6, GapDisk(), 4)
            && !PathKept(t, GapDisk(), 4, ["f"])
  {
    var t, disk0 := Tool(3, _ => 0), GapDisk();
    SameRoot(t, 4);
    GapDirectory();
    GapTree();
    assert Resolve(disk0, 4, Slot(0, 1), []) == Some(Slot(0, 1));
    assert Reached(disk0, 4, []) && InUse(disk0, DirAt(disk0, 4, []), 2);
    assert Missed(t, disk0, 4, Slot(0, 1), 2);
    RecordAfter(t, disk0, 4, Slot(0, 1), 2);
    SameFollow(t, disk0, 4, Slot(0, 1), "f");
    assert ["f"][..0] == [];
    assert Resolve(Renumbered(t, disk0, 4), 6, Slot(0, 1), []) == Some(Slot(0, 1));
  }

  // ---------------------------------------------------------- a tree that is kept

  /** A root directory with a subdirectory "d" that holds a file "f" beyond the first
      group. */
  function TreeDisk(): Disk {
    map[Slot(0, 1) := Dir([Entry(2, ".", Directory), Entry(2, "..", Directory), Entry(3, "d", Directory)], [0, 3]),
        Slot(0, 2) := Dir([Entry(3, ".", Directory), Entry(2, "..", Directory), Entry(5, "f", Other)], [0, 3])]
  }

  function TreeTool(): Tool {
    Tool(3, s => if s == Slot(0, 1) then 1 else 0)
  }

  lemma TreeReach()
    ensures Reach(TreeTool(), TreeDisk(), 4) == {Slot(0, 1), Slot(0, 2)}
    ensures LiveLen(TreeDisk()[Slot(0, 1)].entries) == 3 && LiveLen(TreeDisk()[Slot(0, 2)].entries) == 3
  {
    var c, disk0 := CfgOf(TreeTool(), 4), TreeDisk();
    var es, fs := disk0[Slot(0, 1)].entries, disk0[Slot(0, 2)].entries;
    SameRoot(TreeTool(), 4);
    assert LiveFrom(es, 2) == 3 && LiveFrom(es, 1) == 3 && LiveFrom(fs, 2) == 3 && LiveFrom(fs, 1) == 3;
    assert SubFrom(c, disk0, Slot(0, 2), fs, 2) == {} && SubFrom(c, disk0, Slot(0, 2), fs, 1) == {};
    assert Sub(c, disk0, Slot(0, 2)) == {Slot(0, 2)};
    assert SlotOf(3, 4) == Slot(0, 2);
    assert SubFrom(c, disk0, Slot(0, 1), es, 2) == {Slot(0, 2)};
    assert SubFrom(c, disk0, Slot(0, 1), es, 1) == {Slot(0, 2)};
  }

  lemma TreeContained()
    ensures Contained(TreeTool(), TreeDisk(), 4)
  {
    TreeReach();
    SameRoot(TreeTool(), 4);
  }

  lemma TreeGapFree()
    ensures NoGaps(TreeDisk(), 4)
  {
    forall path | Reached(TreeDisk(), 4, path) ensures GapFree(TreeDisk()[DirAt(TreeDisk(), 4, path)].entries) {
      assert DirAt(TreeDisk(), 4, path) in {Slot(0, 1), Slot(0, 2)};
    }
  }

  /** With four inodes a group and three a block, the tool comes to all of it: "f" gets its
      new number, and every path is kept. */
  lemma TreeKept(path: seq<string>)
    ensures Contained(TreeTool(), TreeDisk(), 4)
    ensures HasNumber(Renumbered(TreeTool(), TreeDisk(), 4), Slot(0, 2), 2, 7)
    ensures PathKept(TreeTool(), TreeDisk(), 4, path)
  {
    TreeReach();
    TreeContained();
    TreeGapFree();
    SameRoot(TreeTool(), 4);
    ContainedKept(TreeTool(), TreeDisk(), 4, path);
  }
}
