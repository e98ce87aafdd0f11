/** The block allocator over all groups: the single-pass search and the loop that
    collects regions (android/ext4_utils/src/allocate.c). */
module Allocator {
  import opened BlockGroups
  import opened BestFit

  class BlockAllocator {
    const bgs: seq<BlockGroup>

    ghost function Bitmaps(): set<array<bv8>> {
      set g | g in bgs :: g.bitmap
    }

    ghost predicate Valid()
      reads bgs, Bitmaps()
    {
      && (forall i :: 0 <= i < |bgs| ==> bgs[i].Valid())
      && (forall i, j :: 0 <= i < j < |bgs| ==> bgs[i] != bgs[j] && bgs[i].bitmap != bgs[j].bitmap)
    }

    ghost function View(): (gs: seq<Group>)
      reads bgs
      ensures |gs| == |bgs|
    {
      seq(|bgs|, i requires 0 <= i < |bgs| reads bgs =>
        Group(bgs[i].firstBlock, bgs[i].header, bgs[i].limit, bgs[i].firstFree, bgs[i].freeBlocks))
    }

    constructor (bgs: seq<BlockGroup>)
      requires forall i :: 0 <= i < |bgs| ==> bgs[i].Valid()
      requires forall i, j :: 0 <= i < j < |bgs| ==>
                 bgs[i] != bgs[j] && bgs[i].bitmap != bgs[j].bitmap
      ensures this.bgs == bgs && Valid()
    {
      this.bgs := bgs;
    }

    /** The scan of ext4_allocate_best_fit_partial: one pass over the groups finds
        the smallest that fits or, failing that, the largest. */
    method FindBest(len: nat) returns (found: nat, foundLen: nat)
      requires len > 0
      ensures foundLen == 0 <==> forall j :: 0 <= j < |bgs| ==> View()[j].free == 0
      ensures foundLen > 0 ==> IsBest(View(), len, found) && View()[found].free == foundLen
    {
      found, foundLen := 0, 0;
      var i := 0;
      while i < |bgs|
        invariant i <= |bgs|
        invariant foundLen > 0 ==> found < i && View()[found].free == foundLen
        invariant foundLen > 0 ==> forall j :: 0 <= j < found ==> View()[j].free != foundLen
        invariant foundLen >= len ==>
                    forall j :: 0 <= j < i && len <= View()[j].free ==> foundLen <= View()[j].free
        invariant foundLen < len ==> forall j :: 0 <= j < i ==> View()[j].free <= foundLen
      {
        var bgLen := bgs[i].freeBlocks;
        if (len <= bgLen && (foundLen == 0 || bgLen < foundLen)) ||
           (len > foundLen && bgLen > foundLen) {
          found, foundLen := i, bgLen;
        }
        i := i + 1;
      }
    }

    /** The first blocks of the free range of one group. */
    method TakeFrom(found: nat, len: nat) returns (r: Region)
      requires Valid() && found < |bgs| && len <= bgs[found].freeBlocks
      modifies bgs[found], bgs[found].bitmap
      ensures Valid()
      ensures r.bg == found && r.len == len
      ensures r.block == bgs[found].firstBlock + old(bgs[found].firstFree)
      ensures View() == old(View())[found := Carve(old(View())[found], len)]
    {
      var ok, block := bgs[found].Allocate(len);
      r := Region(found, block, len);
      forall i | 0 <= i < |bgs| && i != found
        ensures bgs[i].Valid() && View()[i] == old(View())[i]
      {
        assert bgs[i] != bgs[found] && bgs[i].bitmap != bgs[found].bitmap;
      }
    }

    /** free_blocks on one group: the last blocks handed out of it go back. */
    method GiveBack(bg: nat, len: nat)
      requires Valid() && bg < |bgs| && bgs[bg].header + len <= bgs[bg].firstFree <= bgs[bg].limit
      modifies bgs[bg], bgs[bg].bitmap
      ensures Valid()
      ensures View() == old(View())[bg := Restore(old(View())[bg], len)]
    {
      bgs[bg].Release(len);
      forall i | 0 <= i < |bgs| && i != bg
        ensures bgs[i].Valid() && View()[i] == old(View())[i]
      {
        assert bgs[i] != bgs[bg] && bgs[i].bitmap != bgs[bg].bitmap;
      }
    }

    /** ext4_allocate_best_fit_partial: one region, if any block is free. */
    method BestFitPartial(len: nat) returns (ok: bool, r: Region)
      requires Valid() && len > 0
      modifies bgs, Bitmaps()
      ensures Valid()
      ensures ok <==> TotalFree(old(View())) > 0
      ensures ok ==> NextBest(old(View()), r, len) && View() == Without(old(View()), r)
      ensures !ok ==> View() == old(View())
    {
      var found, foundLen := FindBest(len);
      r := Region(0, 0, 0);
      ghost var gs := View();
      if foundLen == 0 {
        NoneFree(gs);
        return false, r;
      }
      TotalBound(gs, found);
      var allocateLen := if len < foundLen then len else foundLen;
      r := TakeFrom(found, allocateLen);
      ok := true;
    }

    /** One turn of the loop below. */
    method NextRegion(rs: seq<Region>, len: nat, ghost gs0: seq<Group>, ghost want: nat)
      returns (ok: bool, rs1: seq<Region>, len1: nat)
      requires Valid() && len > 0 && Leads(gs0, rs, want, View(), len)
      modifies bgs, Bitmaps()
      ensures Valid() && Leads(gs0, rs1, want, View(), len1)
      ensures ok ==> len1 < len
      ensures !ok ==> len1 == len && rs1 == rs && TotalFree(View()) == 0 && TotalFree(gs0) < want
    {
      ghost var gs := View();
      LeadsTotal(gs0, rs, want, gs, len);
      var r;
      ok, r := BestFitPartial(len);
      rs1, len1 := rs, len;
      if ok {
        LeadsOn(gs0, rs, want, gs, len, r);
        rs1, len1 := rs + [r], len - r.len;
      }
    }

    /** ext4_allocate_best_fit: succeeds exactly when enough blocks are free, and
        then hands out the fewest regions; a failed attempt keeps the part it took. */
    method BestFit(want: nat) returns (ok: bool, rs: seq<Region>, ghost part: seq<Region>, ghost left: nat)
      requires Valid()
      modifies bgs, Bitmaps()
      ensures Valid()
      ensures ok <==> 0 < want <= TotalFree(old(View()))
      ensures ok ==> Greedy(old(View()), rs, want) && View() == After(old(View()), rs, want)
      ensures !ok && want > 0 ==> TotalFree(View()) == 0 && left > 0
      ensures !ok ==> Leads(old(View()), part, want, View(), left)
    {
      rs := [];
      var len: nat := want;
      ghost var gs0 := View();
      while len > 0
        invariant Valid() && Leads(gs0, rs, want, View(), len)
      {
        var more;
        more, rs, len := NextRegion(rs, len, gs0, want);
        if !more {
          return false, [], rs, len;
        }
      }
      LeadsDone(gs0, rs, want, View());
      ok, part, left := rs != [], rs, 0;
    }
  }
}
