/** The renumbering passes over the directories of an ext4 image, with a power
    cut possible before every block write (android/ext4_utils/src/ext4fixup.c). */
module FixupModel {
  import opened Arithmetic
  import opened InodeNumbers

  datatype FileType = Directory | Unknown | Other

  datatype Entry = Entry(ino: u32, name: string, ftype: FileType)

  /** A directory: its records in order; block k holds the records
      cuts[k] .. cuts[k+1]. */
  datatype Dir = Dir(entries: seq<Entry>, cuts: seq<nat>)

  /** The directories of the image, by inode slot. */
  type Disk = map<Slot, Dir>

  /** The two writing modes of recurse_dir. */
  datatype Phase = Marking | Updating

  /** Inodes per group before and after; `rank` witnesses that the directory
      graph has no cycle. */
  datatype Cfg = Cfg(ipg0: nat, ipg1: nat, rank: Slot -> nat)

  // ---------------------------------------------------------------- the code

  predicate Marked(n: u32) {
    n >= MARK
  }

  function Strip(n: u32): u32 {
    n % MARK
  }

  function SetMark(n: u32): u32 {
    if n < MARK then n + MARK else n
  }

  function EditIno(p: Phase, ino: u32, ipg0: nat, ipg1: nat): u32
    requires ipg0 > 0
  {
    match p
    case Marking => SetMark(ino)
    case Updating => if Marked(ino) then NewInum(Strip(ino), ipg0, ipg1) else ino
  }

  /** recurse_dir descends into this entry. */
  predicate Descends(p: Phase, disk: Disk, e: Entry, ipg0: nat)
    requires ipg0 > 0
  {
    && e.name != "." && e.name != ".."
    && (p.Marking? || Marked(e.ino))
    && (e.ftype.Directory? || (e.ftype.Unknown? && SlotOf(Strip(e.ino), ipg0) in disk))
  }

  /** The position, from i on, of the first record whose inode is zero, or the end. */
  function LiveFrom(es: seq<Entry>, i: nat): (n: nat)
    requires i <= |es|
    ensures i <= n <= |es|
    ensures forall j :: i <= j < n ==> es[j].ino != 0
    ensures n < |es| ==> es[n].ino == 0
    decreases |es| - i
  {
    if i == |es| || es[i].ino == 0 then i else LiveFrom(es, i + 1)
  }

  /** The records that the walk looks at: those before the first zero inode. */
  function LiveLen(es: seq<Entry>): (n: nat)
    ensures n <= |es|
  {
    LiveFrom(es, 0)
  }

  predicate Live(es: seq<Entry>, i: int) {
    0 <= i < LiveLen(es)
  }

  /** The directory buffer after the editing loop. */
  function Edited(p: Phase, es: seq<Entry>, ipg0: nat, ipg1: nat): (r: seq<Entry>)
    requires ipg0 > 0
    ensures |r| == |es|
  {
    seq(|es|, i requires 0 <= i < |es| =>
      if Live(es, i) then es[i].(ino := EditIno(p, es[i].ino, ipg0, ipg1)) else es[i])
  }

  /** Block k of the buffer reaches the disk. */
  function WriteBlock(dir: Dir, buf: seq<Entry>, k: nat): Dir
    requires k + 1 < |dir.cuts|
  {
    dir.(entries := seq(|dir.entries|, i requires 0 <= i < |dir.entries| =>
      if dir.cuts[k] <= i < dir.cuts[k + 1] && i < |buf| then buf[i] else dir.entries[i]))
  }

  /** How a pass ended: it returned with `power` writes left, it was cut off,
      it met a directory entry without a directory (critical_error), or it went
      round a cycle of directories and never returns. */
  datatype Outcome =
    | Done(disk: Disk, power: nat)
    | Crash(disk: Disk)
    | Failed(disk: Disk)
    | Endless(disk: Disk)

  function WriteBlocks(disk: Disk, d: Slot, buf: seq<Entry>, k: nat, power: nat): (o: Outcome)
    requires d in disk
    ensures o.Done? || o.Crash?
    ensures o.Done? ==> o.power <= power
    decreases |disk[d].cuts| - k
  {
    if k + 1 >= |disk[d].cuts| then Done(disk, power)
    else if power == 0 then Crash(disk)
    else WriteBlocks(disk[d := WriteBlock(disk[d], buf, k)], d, buf, k + 1, power - 1)
  }

  /** recurse_dir. */
  ghost function Walk(p: Phase, c: Cfg, disk: Disk, d: Slot, power: nat): (o: Outcome)
    requires c.ipg0 > 0
    ensures o.Done? ==> o.power <= power
    decreases c.rank(d), 1, 0
  {
    if d !in disk then Failed(disk)
    else
      var buf := disk[d].entries;
      match Children(p, c, disk, d, buf, 0, power)
      case Done(disk1, power1) =>
        if d !in disk1 then Failed(disk1)
        else WriteBlocks(disk1, d, Edited(p, buf, c.ipg0, c.ipg1), 0, power1)
      case o => o
  }

  /** The part of recurse_dir that descends, from entry i of the buffer on. */
  ghost function Children(p: Phase, c: Cfg, disk: Disk, d: Slot, buf: seq<Entry>, i: nat,
                          power: nat): (o: Outcome)
    requires c.ipg0 > 0
    ensures o.Done? ==> o.power <= power
    decreases c.rank(d), 0, LiveLen(buf) - i
  {
    if i >= LiveLen(buf) then Done(disk, power)
    else if Descends(p, disk, buf[i], c.ipg0) then
      var child := SlotOf(Strip(buf[i].ino), c.ipg0);
      if child !in disk then Failed(disk)
      else if c.rank(child) >= c.rank(d) then Endless(disk)
      else
        match Walk(p, c, disk, child, power)
        case Done(disk1, power1) => Children(p, c, disk1, d, buf, i + 1, power1)
        case o => o
    else Children(p, c, disk, d, buf, i + 1, power)
  }

  /** One record of the descending loop. */
  lemma ChildrenStep(p: Phase, c: Cfg, disk: Disk, d: Slot, buf: seq<Entry>, i: nat, power: nat)
    requires c.ipg0 > 0 && i < LiveLen(buf)
    ensures !Descends(p, disk, buf[i], c.ipg0) ==>
              Children(p, c, disk, d, buf, i, power) == Children(p, c, disk, d, buf, i + 1, power)
    ensures Descends(p, disk, buf[i], c.ipg0) ==>
              var child := SlotOf(Strip(buf[i].ino), c.ipg0);
              child in disk && c.rank(child) < c.rank(d) ==>
                var o1 := Walk(p, c, disk, child, power);
                Children(p, c, disk, d, buf, i, power) ==
                  if o1.Done? then Children(p, c, o1.disk, d, buf, i + 1, o1.power) else o1
  {
  }

  // ------------------------------------------------- the original directories

  /** The original directories, those to be renumbered, and for each of these
      the ones at or below it. */
  datatype Graph = Graph(disk0: Disk, reach: set<Slot>, sub: Slot -> set<Slot>)

  /** An original entry that leads to a subdirectory. */
  ghost predicate IsSub(c: Cfg, disk0: Disk, e: Entry)
    requires c.ipg0 > 0
  {
    && e.name != "." && e.name != ".."
    && (e.ftype.Directory? || (e.ftype.Unknown? && SlotOf(e.ino, c.ipg0) in disk0))
  }

  /** Record i of directory x is a live one that leads to a subdirectory. */
  ghost predicate SubAt(c: Cfg, g: Graph, x: Slot, i: int)
    requires c.ipg0 > 0 && x in g.disk0
  {
    Live(g.disk0[x].entries, i) && IsSub(c, g.disk0, g.disk0[x].entries[i])
  }

  ghost function ChildAt(c: Cfg, g: Graph, x: Slot, i: int): Slot
    requires c.ipg0 > 0 && x in g.disk0 && SubAt(c, g, x, i)
  {
    SlotOf(g.disk0[x].entries[i].ino, c.ipg0)
  }

  /** The records fit their blocks and the numbers leave the marker bit free. */
  ghost predicate DirWf(c: Cfg, dir: Dir)
    requires 0 < c.ipg0
  {
    && |dir.cuts| > 0 && dir.cuts[0] == 0 && dir.cuts[|dir.cuts| - 1] == |dir.entries|
    && forall i :: Live(dir.entries, i) ==> Fits(dir.entries[i].ino, c.ipg0, c.ipg1)
  }

  /** Directory entries lead to directories, without cycles. */
  ghost predicate LinksWf(c: Cfg, g: Graph, x: Slot)
    requires 0 < c.ipg0 && x in g.disk0
  {
    && x in g.sub(x) && g.sub(x) <= g.reach
    && (forall i :: SubAt(c, g, x, i) ==>
          var child := ChildAt(c, g, x, i);
          && child in g.reach && c.rank(child) < c.rank(x)
          && g.sub(child) <= g.sub(x) - {x})
  }

  /** What is below a directory is below one of its entries. */
  ghost predicate Covered(c: Cfg, g: Graph, x: Slot)
    requires 0 < c.ipg0 && x in g.disk0
  {
    forall y :: y in g.sub(x) && y != x ==>
      exists i :: SubAt(c, g, x, i) && y in g.sub(ChildAt(c, g, x, i))
  }

  /** Nothing on the original image stands in the way of the tool. */
  ghost predicate Wf(c: Cfg, g: Graph) {
    && 0 < c.ipg0 <= c.ipg1
    && g.reach <= g.disk0.Keys
    && (forall x {:trigger DirWf(c, g.disk0[x])} :: x in g.reach ==> DirWf(c, g.disk0[x]))
    && (forall x {:trigger LinksWf(c, g, x)} :: x in g.reach ==> LinksWf(c, g, x))
    && (forall x {:trigger Covered(c, g, x)} :: x in g.reach ==> Covered(c, g, x))
  }

  // ------------------------------------------------------------ the invariant

  /** The entry as a phase finds it, and as it leaves it. */
  function Before(p: Phase, o: Entry): Entry {
    match p
    case Marking => o
    case Updating => o.(ino := SetMark(o.ino))
  }

  ghost function After(p: Phase, c: Cfg, o: Entry): Entry
    requires c.ipg0 > 0
  {
    match p
    case Marking => o.(ino := SetMark(o.ino))
    case Updating => o.(ino := NewInum(o.ino, c.ipg0, c.ipg1))
  }

  ghost function AfterDir(p: Phase, c: Cfg, o: Dir): Dir
    requires c.ipg0 > 0
  {
    o.(entries := seq(|o.entries|, i requires 0 <= i < |o.entries| =>
      if Live(o.entries, i) then After(p, c, o.entries[i]) else o.entries[i]))
  }

  ghost function BeforeDir(p: Phase, o: Dir): Dir {
    o.(entries := seq(|o.entries|, i requires 0 <= i < |o.entries| =>
      if Live(o.entries, i) then Before(p, o.entries[i]) else o.entries[i]))
  }

  ghost predicate DirStage(p: Phase, c: Cfg, o: Dir, n: Dir)
    requires c.ipg0 > 0
  {
    && n.cuts == o.cuts && |n.entries| == |o.entries|
    && forall i :: 0 <= i < |o.entries| ==>
         if Live(o.entries, i)
         then n.entries[i] == Before(p, o.entries[i]) || n.entries[i] == After(p, c, o.entries[i])
         else n.entries[i] == o.entries[i]
  }

  ghost predicate FinishedDir(p: Phase, c: Cfg, g: Graph, disk: Disk, y: Slot)
    requires c.ipg0 > 0
  {
    y in g.disk0 && y in disk && disk[y] == AfterDir(p, c, g.disk0[y])
  }

  /** The phase is over for every directory of a set. */
  ghost predicate Finished(p: Phase, c: Cfg, g: Graph, disk: Disk, ds: set<Slot>)
    requires c.ipg0 > 0
  {
    forall y {:trigger FinishedDir(p, c, g, disk, y)} :: y in ds ==> FinishedDir(p, c, g, disk, y)
  }

  /** An entry that the phase has left behind has its whole subtree behind it. */
  ghost predicate SubtreesFirst(p: Phase, c: Cfg, g: Graph, disk: Disk, x: Slot)
    requires c.ipg0 > 0 && x in g.disk0 && x in disk
  {
    forall i :: SubAt(c, g, x, i) && i < |disk[x].entries| &&
                disk[x].entries[i] == After(p, c, g.disk0[x].entries[i]) ==>
      Finished(p, c, g, disk, g.sub(ChildAt(c, g, x, i)))
  }

  ghost predicate Inv(p: Phase, c: Cfg, g: Graph, disk: Disk) {
    && Wf(c, g)
    && disk.Keys == g.disk0.Keys
    && (forall x :: x in g.disk0 && x !in g.reach ==> disk[x] == g.disk0[x])
    && (forall x {:trigger DirStage(p, c, g.disk0[x], disk[x])} :: x in g.reach ==>
          DirStage(p, c, g.disk0[x], disk[x]))
    && (forall x {:trigger SubtreesFirst(p, c, g, disk, x)} :: x in g.reach ==>
          SubtreesFirst(p, c, g, disk, x))
  }

  // --------------------------------------------------------------- the proofs

  lemma MarkStep(n: u32)
    requires 1 <= n < MARK
    ensures SetMark(n) != n && Strip(n) == n == Strip(SetMark(n)) && Marked(SetMark(n))
    ensures SetMark(SetMark(n)) == SetMark(n)
  {
  }

  lemma EditStep(p: Phase, c: Cfg, o: Entry)
    requires 0 < c.ipg0 <= c.ipg1 && Fits(o.ino, c.ipg0, c.ipg1)
    ensures Before(p, o).ino != 0 && After(p, c, o).ino != 0
    ensures After(p, c, o) != Before(p, o)
    ensures EditIno(p, Before(p, o).ino, c.ipg0, c.ipg1) == After(p, c, o).ino
    ensures EditIno(p, After(p, c, o).ino, c.ipg0, c.ipg1) == After(p, c, o).ino
    ensures Strip(Before(p, o).ino) == o.ino
    ensures p.Marking? ==> Strip(After(p, c, o).ino) == o.ino
    ensures p.Updating? ==> Marked(Before(p, o).ino) && !Marked(After(p, c, o).ino)
  {
    MarkStep(o.ino);
    if p.Updating? {
      NewInumKeepsSlot(o.ino, c.ipg0, c.ipg1);
      assert Before(p, o).ino == SetMark(o.ino);
      assert Strip(SetMark(o.ino)) == o.ino;
    }
  }

  lemma SameLive(p: Phase, c: Cfg, o: Dir, n: Dir)
    requires 0 < c.ipg0 <= c.ipg1 && DirWf(c, o) && DirStage(p, c, o, n)
    ensures LiveLen(n.entries) == LiveLen(o.entries)
  {
    var k := LiveLen(o.entries);
    forall j | 0 <= j < k ensures n.entries[j].ino != 0 {
      EditStep(p, c, o.entries[j]);
    }
  }

  lemma EditedIsAfter(p: Phase, c: Cfg, o: Dir, n: Dir)
    requires 0 < c.ipg0 <= c.ipg1 && DirWf(c, o) && DirStage(p, c, o, n)
    ensures Edited(p, n.entries, c.ipg0, c.ipg1) == AfterDir(p, c, o).entries
  {
    var r := Edited(p, n.entries, c.ipg0, c.ipg1);
    SameLive(p, c, o, n);
    forall i | 0 <= i < |r| ensures r[i] == AfterDir(p, c, o).entries[i] {
      if Live(o.entries, i) {
        EditStep(p, c, o.entries[i]);
      }
    }
  }

  /** In place of the original, the buffer decides where the walk descends. */
  lemma DescendsIff(p: Phase, c: Cfg, disk0: Disk, disk: Disk, o: Entry, e: Entry)
    requires 0 < c.ipg0 <= c.ipg1 && Fits(o.ino, c.ipg0, c.ipg1) && disk.Keys == disk0.Keys
    requires e == Before(p, o) || e == After(p, c, o)
    ensures Descends(p, disk, e, c.ipg0) <==>
              IsSub(c, disk0, o) && (p.Marking? || e == Before(p, o))
    ensures Descends(p, disk, e, c.ipg0) ==> Strip(e.ino) == o.ino
  {
    EditStep(p, c, o);
  }

  /** What every stretch of a phase keeps: the invariant, the directories out
      of its way, and those already finished. */
  ghost predicate Kept(p: Phase, c: Cfg, g: Graph, disk: Disk, disk1: Disk, touched: set<Slot>) {
    && Inv(p, c, g, disk1)
    && (forall x :: x in disk && x !in touched ==> x in disk1 && disk1[x] == disk[x])
    && (forall x {:trigger FinishedDir(p, c, g, disk1, x)} ::
          x in g.reach && FinishedDir(p, c, g, disk, x) ==> FinishedDir(p, c, g, disk1, x))
  }

  lemma KeptChain(p: Phase, c: Cfg, g: Graph, disk: Disk, disk1: Disk, disk2: Disk,
                  t1: set<Slot>, t2: set<Slot>, t: set<Slot>)
    requires Kept(p, c, g, disk, disk1, t1) && Kept(p, c, g, disk1, disk2, t2)
    requires t1 <= t && t2 <= t
    ensures Kept(p, c, g, disk, disk2, t)
  {
  }

  lemma FinishedStays(p: Phase, c: Cfg, g: Graph, disk: Disk, disk1: Disk, touched: set<Slot>,
                      ds: set<Slot>)
    requires Kept(p, c, g, disk, disk1, touched)
    requires ds <= g.reach && Finished(p, c, g, disk, ds)
    ensures Finished(p, c, g, disk1, ds)
  {
    forall y | y in ds ensures FinishedDir(p, c, g, disk1, y) {
      assert FinishedDir(p, c, g, disk, y);
    }
  }

  /** The subtrees of the entries of d before i are finished. */
  ghost predicate BelowFinished(p: Phase, c: Cfg, g: Graph, disk: Disk, d: Slot, i: nat)
    requires c.ipg0 > 0 && d in g.disk0
  {
    forall j :: SubAt(c, g, d, j) && j < i ==> Finished(p, c, g, disk, g.sub(ChildAt(c, g, d, j)))
  }

  lemma BelowFinishedStays(p: Phase, c: Cfg, g: Graph, disk: Disk, disk1: Disk,
                           touched: set<Slot>, d: Slot, i: nat)
    requires Kept(p, c, g, disk, disk1, touched)
    requires d in g.reach && BelowFinished(p, c, g, disk, d, i)
    ensures BelowFinished(p, c, g, disk1, d, i)
  {
    forall j | SubAt(c, g, d, j) && j < i
      ensures Finished(p, c, g, disk1, g.sub(ChildAt(c, g, d, j)))
    {
      assert LinksWf(c, g, d);
      FinishedStays(p, c, g, disk, disk1, touched, g.sub(ChildAt(c, g, d, j)));
    }
  }

  /** The walk of directory d has finished the subtrees before record i. */
  ghost predicate AtEntry(p: Phase, c: Cfg, g: Graph, disk: Disk, d: Slot, i: nat) {
    && Inv(p, c, g, disk) && d in g.reach && i <= LiveLen(disk[d].entries)
    && BelowFinished(p, c, g, disk, d, i)
  }

  /** A live record of the buffer against the original one. */
  lemma RecordCase(p: Phase, c: Cfg, disk0: Disk, disk: Disk, d: Slot, i: nat)
    requires 0 < c.ipg0 <= c.ipg1 && d in disk0 && disk.Keys == disk0.Keys
    requires DirWf(c, disk0[d]) && DirStage(p, c, disk0[d], disk[d]) && Live(disk[d].entries, i)
    ensures Live(disk0[d].entries, i)
    ensures Descends(p, disk, disk[d].entries[i], c.ipg0) ==>
              && IsSub(c, disk0, disk0[d].entries[i])
              && Strip(disk[d].entries[i].ino) == disk0[d].entries[i].ino
    ensures !Descends(p, disk, disk[d].entries[i], c.ipg0) && IsSub(c, disk0, disk0[d].entries[i]) ==>
              disk[d].entries[i] == After(p, c, disk0[d].entries[i])
  {
    SameLive(p, c, disk0[d], disk[d]);
    DescendsIff(p, c, disk0, disk, disk0[d].entries[i], disk[d].entries[i]);
  }

  /** A record that leads nowhere, or only to finished directories, is passed over. */
  lemma PassedOver(p: Phase, c: Cfg, g: Graph, disk: Disk, d: Slot, i: nat)
    requires AtEntry(p, c, g, disk, d, i) && i < LiveLen(disk[d].entries)
    requires SubAt(c, g, d, i) ==> disk[d].entries[i] == After(p, c, g.disk0[d].entries[i])
    ensures AtEntry(p, c, g, disk, d, i + 1)
  {
    assert SubtreesFirst(p, c, g, disk, d);
  }

  /** What a live record asks of the walk. */
  lemma EntryCase(p: Phase, c: Cfg, g: Graph, disk: Disk, d: Slot, i: nat)
    requires AtEntry(p, c, g, disk, d, i) && i < LiveLen(disk[d].entries)
    ensures Descends(p, disk, disk[d].entries[i], c.ipg0) ==>
              && SubAt(c, g, d, i)
              && Strip(disk[d].entries[i].ino) == g.disk0[d].entries[i].ino
              && ChildAt(c, g, d, i) in g.reach && ChildAt(c, g, d, i) in disk
              && c.rank(ChildAt(c, g, d, i)) < c.rank(d)
    ensures !Descends(p, disk, disk[d].entries[i], c.ipg0) ==> AtEntry(p, c, g, disk, d, i + 1)
  {
    assert Live(disk[d].entries, i);
    RecordCase(p, c, g.disk0, disk, d, i);
    if Descends(p, disk, disk[d].entries[i], c.ipg0) {
      assert SubAt(c, g, d, i) && LinksWf(c, g, d);
    } else {
      PassedOver(p, c, g, disk, d, i);
    }
  }

  /** Where the walk stops looking at records, all subtrees are finished. */
  lemma EntriesOver(p: Phase, c: Cfg, g: Graph, disk: Disk, d: Slot, i: nat)
    requires AtEntry(p, c, g, disk, d, i)
    requires i == LiveLen(disk[d].entries)
    ensures BelowFinished(p, c, g, disk, d, |disk[d].entries|)
  {
    SameLive(p, c, g.disk0[d], disk[d]);
  }

  /** After a completed descent the walk of d goes on from record i + 1. */
  lemma AfterDescent(p: Phase, c: Cfg, g: Graph, disk: Disk, disk1: Disk, d: Slot, i: nat)
    requires AtEntry(p, c, g, disk, d, i) && i < LiveLen(disk[d].entries)
    requires SubAt(c, g, d, i)
    requires Kept(p, c, g, disk, disk1, g.sub(ChildAt(c, g, d, i)))
    requires Finished(p, c, g, disk1, g.sub(ChildAt(c, g, d, i)))
    ensures AtEntry(p, c, g, disk1, d, i + 1) && disk1[d] == disk[d]
  {
    assert LinksWf(c, g, d);
    BelowFinishedStays(p, c, g, disk, disk1, g.sub(ChildAt(c, g, d, i)), d, i);
  }

  lemma ChildTouches(p: Phase, c: Cfg, g: Graph, disk: Disk, disk1: Disk, d: Slot, i: nat)
    requires d in g.reach
    requires c.ipg0 > 0 && d in g.disk0 && SubAt(c, g, d, i)
    requires Kept(p, c, g, disk, disk1, g.sub(ChildAt(c, g, d, i)))
    ensures Kept(p, c, g, disk, disk1, g.sub(d) - {d})
  {
    assert LinksWf(c, g, d);
  }

  /** A whole directory, the descents and then the block writes. */
  lemma {:induction false} WalkKeeps(p: Phase, c: Cfg, g: Graph, disk: Disk, d: Slot, power: nat)
    requires Inv(p, c, g, disk) && d in g.reach
    ensures var o := Walk(p, c, disk, d, power);
            && (o.Done? || o.Crash?)
            && Kept(p, c, g, disk, o.disk, g.sub(d))
            && (o.Done? ==> Finished(p, c, g, o.disk, g.sub(d)))
    decreases c.rank(d), 1, 0
  {
    var buf := disk[d].entries;
    ChildrenKeep(p, c, g, disk, d, 0, power);
    var o1 := Children(p, c, disk, d, buf, 0, power);
    assert LinksWf(c, g, d);
    assert g.sub(d) - {d} <= g.sub(d);
    if o1.Done? {
      EditedIsAfter(p, c, g.disk0[d], disk[d]);
      DirectoryWritten(p, c, g, o1.disk, d, o1.power);
      var o2 := WriteBlocks(o1.disk, d, AfterDir(p, c, g.disk0[d]).entries, 0, o1.power);
      KeptChain(p, c, g, disk, o1.disk, o2.disk, g.sub(d) - {d}, {d}, g.sub(d));
    } else {
      KeptChain(p, c, g, disk, disk, o1.disk, {}, g.sub(d) - {d}, g.sub(d));
    }
  }

  /** What the descents below d leave behind, started on this disk. */
  ghost predicate DescentsKept(p: Phase, c: Cfg, g: Graph, disk: Disk, d: Slot, n: nat, o: Outcome)
    requires c.ipg0 > 0 && d in g.disk0
  {
    && (o.Done? || o.Crash?)
    && Kept(p, c, g, disk, o.disk, g.sub(d) - {d})
    && (o.Done? ==> BelowFinished(p, c, g, o.disk, d, n))
  }

  lemma DescentsChain(p: Phase, c: Cfg, g: Graph, disk: Disk, disk1: Disk, d: Slot, n: nat, o: Outcome)
    requires c.ipg0 > 0 && d in g.disk0 && Kept(p, c, g, disk, disk1, g.sub(d) - {d})
    requires DescentsKept(p, c, g, disk1, d, n, o)
    ensures DescentsKept(p, c, g, disk, d, n, o)
  {
    var others := g.sub(d) - {d};
    KeptChain(p, c, g, disk, disk1, o.disk, others, others, others);
  }

  /** The descents from record i on. */
  lemma {:induction false} ChildrenKeep(p: Phase, c: Cfg, g: Graph, disk: Disk, d: Slot, i: nat,
                                        power: nat)
    requires AtEntry(p, c, g, disk, d, i)
    ensures var o := Children(p, c, disk, d, disk[d].entries, i, power);
            DescentsKept(p, c, g, disk, d, |disk[d].entries|, o)
    decreases c.rank(d), 0, LiveLen(disk[d].entries) - i, 1
  {
    var buf := disk[d].entries;
    if i == LiveLen(buf) {
      EntriesOver(p, c, g, disk, d, i);
    } else if Descends(p, disk, buf[i], c.ipg0) {
      DescendsThere(p, c, g, disk, d, i, power);
      DescentKeeps(p, c, g, disk, d, i, power);
      var o1 := Walk(p, c, disk, ChildAt(c, g, d, i), power);
      if o1.Done? {
        RestKeeps(p, c, g, disk, o1.disk, d, i + 1, o1.power);
      }
    } else {
      EntryCase(p, c, g, disk, d, i);
      ChildrenStep(p, c, disk, d, buf, i, power);
      ChildrenKeep(p, c, g, disk, d, i + 1, power);
    }
  }

  /** Record i leads to a directory to descend into. */
  lemma DescendsThere(p: Phase, c: Cfg, g: Graph, disk: Disk, d: Slot, i: nat, power: nat)
    requires AtEntry(p, c, g, disk, d, i) && i < LiveLen(disk[d].entries)
    requires Descends(p, disk, disk[d].entries[i], c.ipg0)
    ensures SubAt(c, g, d, i)
    ensures var o1 := Walk(p, c, disk, ChildAt(c, g, d, i), power);
            Children(p, c, disk, d, disk[d].entries, i, power) ==
            if o1.Done? then Children(p, c, o1.disk, d, disk[d].entries, i + 1, o1.power) else o1
  {
    EntryCase(p, c, g, disk, d, i);
    ChildrenStep(p, c, disk, d, disk[d].entries, i, power);
  }

  lemma {:induction false} RestKeeps(p: Phase, c: Cfg, g: Graph, disk: Disk, disk1: Disk, d: Slot, i: nat,
                                     power: nat)
    requires AtEntry(p, c, g, disk1, d, i) && d in disk && disk1[d] == disk[d]
    requires Kept(p, c, g, disk, disk1, g.sub(d) - {d})
    ensures var o := Children(p, c, disk1, d, disk[d].entries, i, power);
            DescentsKept(p, c, g, disk, d, |disk[d].entries|, o)
    decreases c.rank(d), 0, LiveLen(disk[d].entries) - i, 2
  {
    ChildrenKeep(p, c, g, disk1, d, i, power);
    DescentsChain(p, c, g, disk, disk1, d, |disk[d].entries|,
                  Children(p, c, disk1, d, disk[d].entries, i, power));
  }

  /** The descent at record i. */
  lemma {:induction false} DescentKeeps(p: Phase, c: Cfg, g: Graph, disk: Disk, d: Slot, i: nat,
                                        power: nat)
    requires AtEntry(p, c, g, disk, d, i) && i < LiveLen(disk[d].entries)
    requires SubAt(c, g, d, i)
    ensures var o := Walk(p, c, disk, ChildAt(c, g, d, i), power);
            && (o.Done? || o.Crash?)
            && Kept(p, c, g, disk, o.disk, g.sub(d) - {d})
            && (o.Done? ==> AtEntry(p, c, g, o.disk, d, i + 1) && o.disk[d] == disk[d])
    decreases c.rank(d), 0, 0
  {
    var child := ChildAt(c, g, d, i);
    assert LinksWf(c, g, d);
    WalkKeeps(p, c, g, disk, child, power);
    var o := Walk(p, c, disk, child, power);
    ChildTouches(p, c, g, disk, o.disk, d, i);
    if o.Done? {
      AfterDescent(p, c, g, disk, o.disk, d, i);
    }
  }

  lemma DirectoryWritten(p: Phase, c: Cfg, g: Graph, disk: Disk, d: Slot, power: nat)
    requires Inv(p, c, g, disk) && d in g.reach
    requires BelowFinished(p, c, g, disk, d, |g.disk0[d].entries|)
    ensures var o := WriteBlocks(disk, d, AfterDir(p, c, g.disk0[d]).entries, 0, power);
            && Kept(p, c, g, disk, o.disk, {d})
            && (o.Done? ==> Finished(p, c, g, o.disk, g.sub(d)))
  {
    assert DirStage(p, c, g.disk0[d], disk[d]) && DirWf(c, g.disk0[d]);
    WritesKeep(p, c, g, disk, d, 0, power);
    var o := WriteBlocks(disk, d, AfterDir(p, c, g.disk0[d]).entries, 0, power);
    if o.Done? {
      BelowFinishedStays(p, c, g, disk, o.disk, {d}, d, |g.disk0[d].entries|);
      assert Covered(c, g, d);
      AllBelow(p, c, g, o.disk, d);
    }
  }

  lemma AllBelow(p: Phase, c: Cfg, g: Graph, disk: Disk, d: Slot)
    requires c.ipg0 > 0 && d in g.disk0 && Covered(c, g, d) && FinishedDir(p, c, g, disk, d)
    requires BelowFinished(p, c, g, disk, d, |g.disk0[d].entries|)
    ensures Finished(p, c, g, disk, g.sub(d))
  {
    forall y | y in g.sub(d) && y != d ensures FinishedDir(p, c, g, disk, y) {
      var i :| SubAt(c, g, d, i) && y in g.sub(ChildAt(c, g, d, i));
      assert Finished(p, c, g, disk, g.sub(ChildAt(c, g, d, i)));
    }
  }

  lemma WriteMonotone(p: Phase, c: Cfg, o: Dir, n: Dir, k: nat)
    requires c.ipg0 > 0 && DirStage(p, c, o, n) && k + 1 < |n.cuts|
    ensures var n1 := WriteBlock(n, AfterDir(p, c, o).entries, k);
            && DirStage(p, c, o, n1)
            && (n == AfterDir(p, c, o) ==> n1 == n)
  {
    var n1 := WriteBlock(n, AfterDir(p, c, o).entries, k);
    if n == AfterDir(p, c, o) {
      assert n1.entries == n.entries;
    }
  }

  ghost predicate CutsOk(dir: Dir) {
    && |dir.cuts| > 0 && dir.cuts[|dir.cuts| - 1] <= |dir.entries|
    && forall i, j {:trigger dir.cuts[i], dir.cuts[j]} :: 0 <= i <= j < |dir.cuts| ==> dir.cuts[i] <= dir.cuts[j]
  }

  /** The records of block j. */
  function BlockOf(dir: Dir, es: seq<Entry>, j: nat): seq<Entry>
    requires j + 1 < |dir.cuts| && dir.cuts[j] <= dir.cuts[j + 1] <= |es|
  {
    es[dir.cuts[j]..dir.cuts[j + 1]]
  }

  /** A block write puts the block of the buffer in its place, and leaves every other block
      of the directory as it is. */
  lemma OneBlockWritten(dir: Dir, buf: seq<Entry>, k: nat, j: nat)
    requires CutsOk(dir) && |buf| == |dir.entries| && k + 1 < |dir.cuts| && j + 1 < |dir.cuts|
    ensures var dir1 := WriteBlock(dir, buf, k);
            && dir1.cuts == dir.cuts && |dir1.entries| == |dir.entries|
            && dir.cuts[j] <= dir.cuts[j + 1] <= |dir.entries|
            && BlockOf(dir, dir1.entries, j) == BlockOf(dir, if j == k then buf else dir.entries, j)
  {
    var dir1 := WriteBlock(dir, buf, k);
    assert dir.cuts[j] <= dir.cuts[j + 1] && dir.cuts[j + 1] <= dir.cuts[|dir.cuts| - 1];
    if j < k {
      assert dir.cuts[j + 1] <= dir.cuts[k];
    } else if k < j {
      assert dir.cuts[k + 1] <= dir.cuts[j];
    }
  }

  /** One block write, once everything below the directory is finished. */
  lemma WriteKeeps(p: Phase, c: Cfg, g: Graph, disk: Disk, d: Slot, k: nat)
    requires Inv(p, c, g, disk) && d in g.reach && k + 1 < |disk[d].cuts|
    requires BelowFinished(p, c, g, disk, d, |g.disk0[d].entries|)
    ensures Kept(p, c, g, disk,
                 disk[d := WriteBlock(disk[d], AfterDir(p, c, g.disk0[d]).entries, k)], {d})
  {
    WriteMonotone(p, c, g.disk0[d], disk[d], k);
    var disk1 := disk[d := WriteBlock(disk[d], AfterDir(p, c, g.disk0[d]).entries, k)];
    forall x | x in g.reach ensures SubtreesFirst(p, c, g, disk1, x) {
      assert SubtreesFirst(p, c, g, disk, x);
      if x == d {
        OwnSubtrees(p, c, g, disk, disk1, d);
      } else {
        OtherSubtrees(p, c, g, disk, disk1, d, x);
      }
    }
  }

  lemma OwnSubtrees(p: Phase, c: Cfg, g: Graph, disk: Disk, disk1: Disk, d: Slot)
    requires c.ipg0 > 0 && d in g.disk0 && BelowFinished(p, c, g, disk, d, |g.disk0[d].entries|)
    requires d in disk && d in disk1 && disk1 == disk[d := disk1[d]]
    requires |disk1[d].entries| == |g.disk0[d].entries|
    requires FinishedDir(p, c, g, disk, d) ==> disk1[d] == disk[d]
    ensures SubtreesFirst(p, c, g, disk1, d)
  {
    forall i | SubAt(c, g, d, i) ensures Finished(p, c, g, disk1, g.sub(ChildAt(c, g, d, i))) {
      assert Finished(p, c, g, disk, g.sub(ChildAt(c, g, d, i)));
      StaysAcrossWrite(p, c, g, disk, disk1, d, g.sub(ChildAt(c, g, d, i)));
    }
  }

  lemma OtherSubtrees(p: Phase, c: Cfg, g: Graph, disk: Disk, disk1: Disk, d: Slot, x: Slot)
    requires c.ipg0 > 0 && x != d && x in g.disk0 && x in disk
    requires d in disk && d in disk1 && disk1 == disk[d := disk1[d]]
    requires FinishedDir(p, c, g, disk, d) ==> disk1[d] == disk[d]
    requires SubtreesFirst(p, c, g, disk, x)
    ensures SubtreesFirst(p, c, g, disk1, x)
  {
    forall i | SubAt(c, g, x, i) && i < |disk1[x].entries| &&
               disk1[x].entries[i] == After(p, c, g.disk0[x].entries[i])
      ensures Finished(p, c, g, disk1, g.sub(ChildAt(c, g, x, i)))
    {
      assert Finished(p, c, g, disk, g.sub(ChildAt(c, g, x, i)));
      StaysAcrossWrite(p, c, g, disk, disk1, d, g.sub(ChildAt(c, g, x, i)));
    }
  }

  lemma StaysAcrossWrite(p: Phase, c: Cfg, g: Graph, disk: Disk, disk1: Disk, d: Slot, ds: set<Slot>)
    requires c.ipg0 > 0 && Finished(p, c, g, disk, ds)
    requires d in disk1 && disk1 == disk[d := disk1[d]]
    requires FinishedDir(p, c, g, disk, d) ==> disk1[d] == disk[d]
    ensures Finished(p, c, g, disk1, ds)
  {
    forall y | y in ds ensures FinishedDir(p, c, g, disk1, y) {
      assert FinishedDir(p, c, g, disk, y);
    }
  }

  /** Block k of directory d is next. */
  ghost predicate AtBlock(p: Phase, c: Cfg, g: Graph, disk: Disk, d: Slot, k: nat) {
    && Inv(p, c, g, disk) && d in g.reach && k < |disk[d].cuts|
    && BelowFinished(p, c, g, disk, d, |g.disk0[d].entries|)
    && WrittenBelow(disk[d], AfterDir(p, c, g.disk0[d]).entries, disk[d].cuts[k])
  }

  lemma BlockWritten(p: Phase, c: Cfg, g: Graph, disk: Disk, d: Slot, k: nat)
    requires AtBlock(p, c, g, disk, d, k) && k + 1 < |disk[d].cuts|
    ensures var disk1 := disk[d := WriteBlock(disk[d], AfterDir(p, c, g.disk0[d]).entries, k)];
            Kept(p, c, g, disk, disk1, {d}) && AtBlock(p, c, g, disk1, d, k + 1)
  {
    var goal := AfterDir(p, c, g.disk0[d]).entries;
    WriteKeeps(p, c, g, disk, d, k);
    BelowFinishedStays(p, c, g, disk, disk[d := WriteBlock(disk[d], goal, k)], {d}, d, |g.disk0[d].entries|);
    WriteProgress(disk[d], goal, k);
  }

  lemma BlocksOver(p: Phase, c: Cfg, g: Graph, disk: Disk, d: Slot, k: nat)
    requires AtBlock(p, c, g, disk, d, k) && k + 1 == |disk[d].cuts|
    ensures Kept(p, c, g, disk, disk, {d}) && FinishedDir(p, c, g, disk, d)
  {
    assert DirStage(p, c, g.disk0[d], disk[d]) && DirWf(c, g.disk0[d]);
    WrittenAll(disk[d], AfterDir(p, c, g.disk0[d]).entries);
  }

  /** The block writes from block k on. */
  lemma {:induction false} WritesKeep(p: Phase, c: Cfg, g: Graph, disk: Disk, d: Slot, k: nat,
                                      power: nat)
    requires AtBlock(p, c, g, disk, d, k)
    ensures Wrote(p, c, g, disk, d, WriteBlocks(disk, d, AfterDir(p, c, g.disk0[d]).entries, k, power))
    decreases |disk[d].cuts| - k
  {
    if k + 1 == |disk[d].cuts| {
      BlocksOver(p, c, g, disk, d, k);
    } else if power > 0 {
      var goal := AfterDir(p, c, g.disk0[d]).entries;
      var disk1 := disk[d := WriteBlock(disk[d], goal, k)];
      BlockWritten(p, c, g, disk, d, k);
      WritesKeep(p, c, g, disk1, d, k + 1, power - 1);
      WroteMore(p, c, g, disk, disk1, d, WriteBlocks(disk1, d, goal, k + 1, power - 1));
    }
  }

  /** What block writes of d leave behind. */
  ghost predicate Wrote(p: Phase, c: Cfg, g: Graph, disk: Disk, d: Slot, o: Outcome)
    requires c.ipg0 > 0
  {
    && (o.Done? || o.Crash?)
    && Kept(p, c, g, disk, o.disk, {d})
    && (o.Done? ==> FinishedDir(p, c, g, o.disk, d))
  }

  lemma WroteMore(p: Phase, c: Cfg, g: Graph, disk: Disk, disk1: Disk, d: Slot, o: Outcome)
    requires c.ipg0 > 0 && Kept(p, c, g, disk, disk1, {d}) && Wrote(p, c, g, disk1, d, o)
    ensures Wrote(p, c, g, disk, d, o)
  {
    KeptChain(p, c, g, disk, disk1, o.disk, {d}, {d}, {d});
  }

  ghost predicate WrittenBelow(dir: Dir, goal: seq<Entry>, cut: nat) {
    |goal| == |dir.entries| && forall i :: 0 <= i < |goal| && i < cut ==> dir.entries[i] == goal[i]
  }

  lemma WriteProgress(n: Dir, goal: seq<Entry>, k: nat)
    requires k + 1 < |n.cuts| && WrittenBelow(n, goal, n.cuts[k])
    ensures WrittenBelow(WriteBlock(n, goal, k), goal, n.cuts[k + 1])
  {
  }

  lemma WrittenAll(n: Dir, goal: seq<Entry>)
    requires WrittenBelow(n, goal, |n.entries|)
    ensures n.entries == goal
  {
  }
}
