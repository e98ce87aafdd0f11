/** The allocator of dynamic ports: always the smallest free number
    (emulator/plugin/vsock_goldfish/vsock.cpp, UniqueIdAllocator). */
module PortIds {
  /** mLastId and mReturnedIds. */
  datatype Ids = Ids(last: nat, returned: set<nat>)

  ghost predicate IsMin(s: set<nat>, m: nat) {
    m in s && forall x :: x in s ==> m <= x
  }

  lemma {:induction false} MinExists(s: set<nat>)
    requires s != {}
    ensures exists m :: IsMin(s, m)
    decreases |s|
  {
    var x :| x in s;
    if s == {x} {
      assert IsMin(s, x);
    } else {
      var t := s - {x};
      assert t + {x} == s && t != {};
      MinExists(t);
      var m :| IsMin(t, m);
      assert IsMin(s, if x < m then x else m);
    }
  }

  ghost function Min(s: set<nat>): (m: nat)
    requires s != {}
    ensures IsMin(s, m)
  {
    MinExists(s);
    var m :| IsMin(s, m);
    m
  }

  /** UniqueIdAllocator::get: the new state and the number. */
  ghost function Get(ids: Ids): (Ids, nat) {
    if ids.returned != {} then
      var id := Min(ids.returned);
      (Ids(ids.last, ids.returned - {id}), id)
    else (Ids(ids.last + 1, {}), ids.last + 1)
  }

  /** The loop of UniqueIdAllocator::put. */
  function Shrink(ids: Ids): Ids
    decreases ids.last
  {
    if ids.last > 0 && ids.last in ids.returned
    then Shrink(Ids(ids.last - 1, ids.returned - {ids.last})) else ids
  }

  /** UniqueIdAllocator::put. */
  function Put(ids: Ids, id: nat): Ids {
    if id == ids.last && id > 0 then Shrink(Ids(ids.last - 1, ids.returned))
    else Ids(ids.last, ids.returned + {id})
  }

  /** The state for a set of numbers in use: the largest of them, and the gaps. */
  ghost predicate Canonical(ids: Ids, live: set<nat>) {
    && (ids.last > 0 ==> ids.last in live)
    && (forall x :: x in live <==> 1 <= x <= ids.last && x !in ids.returned)
    && (forall x :: x in ids.returned ==> 1 <= x < ids.last)
  }

  /** As Canonical, but the largest number may have just become free. */
  ghost predicate Loose(ids: Ids, live: set<nat>) {
    && (forall x :: x in live <==> 1 <= x <= ids.last && x !in ids.returned)
    && (forall x :: x in ids.returned ==> 1 <= x <= ids.last)
  }

  lemma {:induction false} ShrinkCanonical(ids: Ids, live: set<nat>)
    requires Loose(ids, live)
    ensures Canonical(Shrink(ids), live)
    decreases ids.last
  {
    if ids.last > 0 && ids.last in ids.returned {
      ShrinkCanonical(Ids(ids.last - 1, ids.returned - {ids.last}), live);
    }
  }

  /** get hands out the smallest positive number that is not in use. */
  lemma GetsSmallest(ids: Ids, live: set<nat>)
    requires Canonical(ids, live)
    ensures var (ids1, id) := Get(ids);
            && id >= 1 && id !in live && (forall x :: 1 <= x < id ==> x in live)
            && Canonical(ids1, live + {id})
  {
    var (ids1, id) := Get(ids);
    if ids.returned != {} {
      assert IsMin(ids.returned, id);
    }
  }

  lemma PutFrees(ids: Ids, live: set<nat>, id: nat)
    requires Canonical(ids, live) && id in live
    ensures Canonical(Put(ids, id), live - {id})
  {
    if id == ids.last {
      ShrinkCanonical(Ids(ids.last - 1, ids.returned), live - {id});
    }
  }

  /** The state is a function of the numbers in use, whatever the history. */
  lemma CanonicalUnique(a: Ids, b: Ids, live: set<nat>)
    requires Canonical(a, live) && Canonical(b, live)
    ensures a == b
  {
    if a.last > 0 {
      assert a.last in live;
    }
    if b.last > 0 {
      assert b.last in live;
    }
    assert a.last == b.last;
    assert forall x :: x in a.returned <==> 1 <= x <= a.last && x !in live;
    assert forall x :: x in b.returned <==> 1 <= x <= b.last && x !in live;
  }

  /** The numbers stay small: below the count in use plus two. */
  lemma {:induction false} SmallestIsSmall(live: set<nat>, id: nat)
    requires id >= 1 && forall x :: 1 <= x < id ==> x in live
    ensures id <= |live| + 1
    decreases id
  {
    if id > 1 {
      SmallestIsSmall(live - {id - 1}, id - 1);
    }
  }

  class UniqueIdAllocator {
    var last: nat
    var returned: set<nat>

    ghost function View(): Ids
      reads this
    {
      Ids(last, returned)
    }

    constructor ()
      ensures View() == Ids(0, {}) && Canonical(View(), {})
    {
      last, returned := 0, {};
    }

    method GetId() returns (id: nat)
      modifies this
      ensures Get(old(View())) == (View(), id)
    {
      if returned != {} {
        MinExists(returned);
        id :| id in returned && forall x :: x in returned ==> id <= x;
        assert IsMin(returned, id) && IsMin(returned, Min(returned));
        returned := returned - {id};
      } else {
        last := last + 1;
        id := last;
      }
    }

    method PutId(id: nat, ghost live: set<nat>)
      requires Canonical(View(), live) && id in live
      modifies this
      ensures View() == Put(old(View()), id) && Canonical(View(), live - {id})
    {
      PutFrees(View(), live, id);
      if id == last {
        last := last - 1;
        while last in returned
          invariant Loose(View(), live - {id})
          invariant Shrink(View()) == Put(old(View()), id)
          decreases last
        {
          returned := returned - {last};
          last := last - 1;
        }
      } else {
        returned := returned + {id};
      }
    }
  }
}
