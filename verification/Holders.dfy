/**
 * What `held_once` of `src/cash/_plain_data.py` (lines 754-762) says about who holds what: each level's
 * containers are read for their reference counts while the level's own lists hold them too.
 */
module Holders {
  import opened PlainHeap
  import opened SpineCheck

  // ---- Levels of a finite tree -------------------------------------------

  /** No container is met `n` steps below the top. */
  ghost predicate Ends(h: Heap, value: Id, n: nat)
  {
    |NodesAt(h, [value], n)| == 0
  }

  lemma {:induction false} NothingBelow(h: Heap, value: Id, n: nat, m: nat)
    requires Ends(h, value, n) && n <= m
    ensures Ends(h, value, m)
    decreases m
  {
    if n < m {
      NothingBelow(h, value, n, m - 1);
      var level := NodesAt(h, [value], m - 1);
      assert |Flat(h, level)| == 0;
    }
  }

  /** A container of a level is held by one of the level above. */
  lemma Parent(h: Heap, value: Id, k: nat, x: Id) returns (p: Id)
    requires x in NodesAt(h, [value], k + 1)
    ensures p in NodesAt(h, [value], k) && x in Kids(h, p) && IsNode(h, x)
  {
    var level := NodesAt(h, [value], k);
    NodesAre(h, Flat(h, level), x);
    p := FlatFrom(h, level, x);
  }

  lemma Child(h: Heap, value: Id, k: nat, p: Id, x: Id)
    requires p in NodesAt(h, [value], k) && x in Kids(h, p) && IsNode(h, x)
    ensures x in NodesAt(h, [value], k + 1)
  {
    var level := NodesAt(h, [value], k);
    FlatHas(h, level, p, x);
    NodesHas(h, Flat(h, level), x);
  }

  /** If the top is met again `k` levels down, so is all below it. */
  lemma {:induction false} MetAgain(h: Heap, value: Id, k: nat, m: nat, y: Id)
    requires value in NodesAt(h, [value], k) && y in NodesAt(h, [value], m)
    ensures y in NodesAt(h, [value], m + k)
  {
    if m > 0 {
      var p := Parent(h, value, m - 1, y);
      MetAgain(h, value, k, m - 1, p);
      Child(h, value, m - 1 + k, p, y);
    }
  }

  /** A tree that ends does not hold its top. */
  lemma {:induction false} TopIsNotBelow(h: Heap, value: Id, n: nat, k: nat)
    requires Ends(h, value, n) && value in NodesAt(h, [value], k)
    ensures k == 0
    decreases n
  {
    if k > 0 && n > 0 {
      var level := NodesAt(h, [value], n - 1);
      if Ends(h, value, n - 1) {
        TopIsNotBelow(h, value, n - 1, k);
      } else {
        MetAgain(h, value, k, n - 1, level[0]);
        NothingBelow(h, value, n, n - 1 + k);
      }
    }
  }

  // ---- What the counts tell ----------------------------------------------

  /** `held(x)`, the references to an object, are at least the slots of any containers that hold it. */
  ghost predicate Covers(h: Heap, held: Id -> nat)
  {
    forall owners: seq<Id>, x: Id {:trigger SlotsCounted(h, held, owners, x)} |
      Distinct(owners) :: SlotsCounted(h, held, owners, x)
  }

  ghost predicate SlotsCounted(h: Heap, held: Id -> nat, owners: seq<Id>, x: Id)
  {
    held(x) >= Count(Flat(h, owners), x)
  }

  /** The containers were picked out of the flat list, into a list of their own. */
  predicate PickedOut(h: Heap, flat: seq<Id>)
  {
    |Nodes(h, flat)| != |flat|
  }

  /** How often the lists of a level hold a container while its count is read. */
  function InLists(h: Heap, flat: seq<Id>, x: Id): nat
  {
    Count(flat, x) + if PickedOut(h, flat) then Count(Nodes(h, flat), x) else 0
  }

  /**
   * `over` is the test of a level: the count is above that of an object with one slot and one place in
   * each list (the caller's extra references to the top's items are in both). While level `k + 1` is
   * read, more may hold containers met above it (`above`): the walk's list of dicts, the levels it
   * collects, and the caller's extra references when one of the top's items is met again.
   */
  ghost predicate ReadsCounts(h: Heap, value: Id, held: Id -> nat, above: (nat, Id) -> nat, over: (nat, Id) -> bool)
  {
    forall k: nat, x: Id {:trigger over(k, x)} | x in NodesAt(h, [value], k + 1) ::
      var flat := Flat(h, NodesAt(h, [value], k));
      && (over(k, x) <==> held(x) + InLists(h, flat, x) + above(k, x) > 1 + (if PickedOut(h, flat) then 2 else 1))
      && (NotAbove(h, value, k, x) ==> above(k, x) == 0)
  }

  ghost predicate NotAbove(h: Heap, value: Id, k: nat, x: Id)
  {
    forall j: nat | j <= k :: x !in NodesAt(h, [value], j)
  }

  /** No container `k + 1` steps down is referenced more than an item held once. */
  ghost predicate HeldAt(h: Heap, value: Id, over: (nat, Id) -> bool, k: nat)
  {
    forall x <- NodesAt(h, [value], k + 1) :: !over(k, x)
  }

  /** What the full walk reads of the reference counts, level by level. */
  ghost predicate HeldOnce(h: Heap, value: Id, over: (nat, Id) -> bool)
  {
    forall k: nat {:trigger HeldAt(h, value, over, k)} :: HeldAt(h, value, over, k)
  }

  /** A container has one reference and is met once on its level. */
  ghost predicate Single(h: Heap, value: Id, held: Id -> nat, k: nat, x: Id)
  {
    held(x) == 1 && Count(NodesAt(h, [value], k), x) == 1
  }

  /** And on no other level. */
  ghost predicate InOnePlace(h: Heap, value: Id, held: Id -> nat, k: nat, x: Id)
  {
    && Single(h, value, held, k, x)
    && forall j: nat | x in NodesAt(h, [value], j) :: j == k
  }

  /** Every container below the top is referenced by its parent alone, and once. */
  ghost predicate ByParentsAlone(h: Heap, value: Id, held: Id -> nat)
  {
    forall k: nat, x: Id {:trigger InOnePlace(h, value, held, k, x)} |
      k > 0 && x in NodesAt(h, [value], k) :: InOnePlace(h, value, held, k, x)
  }

  lemma ParentHolds(h: Heap, held: Id -> nat, p: Id, x: Id)
    requires Covers(h, held) && x in Kids(h, p)
    ensures held(x) >= Count(Kids(h, p), x) >= 1
  {
    assert Distinct([p]);
    assert SlotsCounted(h, held, [p], x);
    CountAppend(Kids(h, p), Flat(h, [p][1..]), x);
    CountIn(Kids(h, p), x);
  }

  /** Something with one reference has one container that holds it, in one slot. */
  lemma OneParent(h: Heap, held: Id -> nat, p: Id, q: Id, x: Id)
    requires Covers(h, held) && held(x) == 1 && x in Kids(h, p) && x in Kids(h, q)
    ensures p == q && Count(Kids(h, p), x) == 1
  {
    ParentHolds(h, held, p, x);
    if p != q {
      var both := [p, q];
      assert Distinct(both) && both[1..] == [q];
      assert SlotsCounted(h, held, both, x);
      CountAppend(Kids(h, p), Flat(h, both[1..]), x);
      CountAppend(Kids(h, q), Flat(h, [q][1..]), x);
      CountIn(Kids(h, p), x);
      CountIn(Kids(h, q), x);
    }
  }

  /** A container is not over exactly when it has one reference, is met once on its level and the walk holds it no further. */
  lemma NotOver(h: Heap, value: Id, held: Id -> nat, above: (nat, Id) -> nat, over: (nat, Id) -> bool, k: nat, x: Id)
    requires Covers(h, held) && ReadsCounts(h, value, held, above, over) && x in NodesAt(h, [value], k + 1)
    ensures !over(k, x) <==> Single(h, value, held, k + 1, x) && above(k, x) == 0
  {
    var p := Parent(h, value, k, x);
    ParentHolds(h, held, p, x);
    NodesCount(h, Flat(h, NodesAt(h, [value], k)), x);
    CountIn(NodesAt(h, [value], k + 1), x);
  }

  ghost predicate OneEach(h: Heap, value: Id, held: Id -> nat)
  {
    forall k: nat, x: Id {:trigger Single(h, value, held, k, x)} |
      k > 0 && x in NodesAt(h, [value], k) :: Single(h, value, held, k, x)
  }

  lemma SameParent(h: Heap, value: Id, held: Id -> nat, j: nat, k: nat, x: Id) returns (p: Id)
    requires Covers(h, held) && Single(h, value, held, j + 1, x)
    requires x in NodesAt(h, [value], j + 1) && x in NodesAt(h, [value], k + 1)
    ensures p in NodesAt(h, [value], j) && p in NodesAt(h, [value], k)
  {
    p := Parent(h, value, j, x);
    var q := Parent(h, value, k, x);
    OneParent(h, held, p, q, x);
  }

  /** With one reference each, no container is met on two levels. */
  lemma {:induction false} OneLevel(h: Heap, value: Id, held: Id -> nat, n: nat, j: nat, k: nat, x: Id)
    requires Covers(h, held) && OneEach(h, value, held) && Ends(h, value, n)
    requires x in NodesAt(h, [value], j) && x in NodesAt(h, [value], k)
    ensures j == k
    decreases j
  {
    if j == 0 {
      TopIsNotBelow(h, value, n, k);
    } else if k == 0 {
      TopIsNotBelow(h, value, n, j);
    } else {
      assert Single(h, value, held, j, x);
      var p := SameParent(h, value, held, j - 1, k - 1, x);
      OneLevel(h, value, held, n, j - 1, k - 1, p);
    }
  }

  lemma HeldEach(h: Heap, value: Id, held: Id -> nat, above: (nat, Id) -> nat, over: (nat, Id) -> bool)
    requires Covers(h, held) && ReadsCounts(h, value, held, above, over) && HeldOnce(h, value, over)
    ensures OneEach(h, value, held)
  {
    forall k: nat, x: Id | k > 0 && x in NodesAt(h, [value], k) ensures Single(h, value, held, k, x) {
      assert HeldAt(h, value, over, k - 1);
      NotOver(h, value, held, above, over, k - 1, x);
    }
  }

  /**
   * Of a tree that ends, the counts are never over exactly when every container below the top is met
   * once and has one reference, that of its parent.
   */
  lemma HeldOnceIs(h: Heap, value: Id, held: Id -> nat, above: (nat, Id) -> nat, over: (nat, Id) -> bool, n: nat)
    requires Covers(h, held) && ReadsCounts(h, value, held, above, over) && Ends(h, value, n)
    ensures HeldOnce(h, value, over) <==> ByParentsAlone(h, value, held)
  {
    if HeldOnce(h, value, over) {
      HeldEach(h, value, held, above, over);
      forall k: nat, x: Id | k > 0 && x in NodesAt(h, [value], k) ensures InOnePlace(h, value, held, k, x) {
        forall j: nat | x in NodesAt(h, [value], j) ensures j == k {
          OneLevel(h, value, held, n, j, k, x);
        }
      }
    }
    if ByParentsAlone(h, value, held) {
      forall k: nat ensures HeldAt(h, value, over, k) {
        forall x <- NodesAt(h, [value], k + 1) ensures !over(k, x) {
          assert InOnePlace(h, value, held, k + 1, x);
          assert NotAbove(h, value, k, x);
          NotOver(h, value, held, above, over, k, x);
        }
      }
    }
  }

  /** And then no container anywhere holds one of them but its parent, which holds it in one slot. */
  lemma NobodyElse(h: Heap, value: Id, held: Id -> nat, k: nat, x: Id, p: Id, q: Id)
    requires Covers(h, held) && ByParentsAlone(h, value, held) && k > 0 && x in NodesAt(h, [value], k)
    requires p in NodesAt(h, [value], k - 1) && x in Kids(h, p) && x in Kids(h, q)
    ensures q == p && Count(Kids(h, p), x) == 1
  {
    assert InOnePlace(h, value, held, k, x);
    OneParent(h, held, p, q, x);
  }

  // ---- The counts of a heap ----------------------------------------------

  /** Those of the owners that hold anything are among all. */
  ghost predicate Among(h: Heap, owners: seq<Id>, all: seq<Id>)
  {
    forall o <- owners :: o in all || |Kids(h, o)| == 0
  }

  function WithoutAt(all: seq<Id>, i: nat): seq<Id>
    requires i < |all|
  {
    all[..i] + all[i + 1..]
  }

  lemma AmongOthers(h: Heap, owners: seq<Id>, all: seq<Id>, i: nat)
    requires Distinct(owners) && Among(h, owners, all) && owners != [] && i < |all| && all[i] == owners[0]
    ensures Distinct(owners[1..]) && Among(h, owners[1..], WithoutAt(all, i))
  {
    forall q <- owners[1..] ensures q in WithoutAt(all, i) || |Kids(h, q)| == 0 {
      assert all == all[..i] + [all[i]] + all[i + 1..];
    }
  }

  lemma {:induction false} SlotsAtMost(h: Heap, owners: seq<Id>, all: seq<Id>, x: Id)
    requires Distinct(owners) && Among(h, owners, all)
    ensures Count(Flat(h, owners), x) <= Count(Flat(h, all), x)
    decreases |owners|
  {
    if owners != [] {
      CountAppend(Kids(h, owners[0]), Flat(h, owners[1..]), x);
      if owners[0] in all {
        var i :| 0 <= i < |all| && all[i] == owners[0];
        SplitOff(h, all, i, x);
        AmongOthers(h, owners, all, i);
        SlotsAtMost(h, owners[1..], WithoutAt(all, i), x);
      } else {
        SlotsAtMost(h, owners[1..], all, x);
      }
    }
  }

  lemma SplitOff(h: Heap, all: seq<Id>, i: nat, x: Id)
    requires i < |all|
    ensures Count(Flat(h, all), x) == Count(Kids(h, all[i]), x) + Count(Flat(h, WithoutAt(all, i)), x)
  {
    var a, b := all[..i], all[i..];
    assert all == a + b && b[1..] == all[i + 1..];
    FlatAppend(h, a, b);
    CountAppend(Flat(h, a), Flat(h, b), x);
    CountAppend(Kids(h, b[0]), Flat(h, b[1..]), x);
    FlatAppend(h, a, b[1..]);
    CountAppend(Flat(h, a), Flat(h, b[1..]), x);
  }

  /** The slots of all containers of a heap cover the holders, and so do they with any further references. */
  lemma SlotsCover(h: Heap, all: seq<Id>, outside: Id -> nat)
    requires forall o <- h :: o in all
    ensures Covers(h, (x: Id) => Count(Flat(h, all), x) + outside(x))
  {
    var held := (x: Id) => Count(Flat(h, all), x) + outside(x);
    forall owners: seq<Id>, x: Id | Distinct(owners) ensures SlotsCounted(h, held, owners, x) {
      SlotsAtMost(h, owners, all, x);
    }
  }
}
