/**
 * What the memo of `_spine_copy` promises (`src/cash/_plain_data.py`, lines 1228-1232 and 1412-1423):
 * a value holding a list or dict that was copied for another name is not copied. The test asks
 * only the lists and dicts counted over their base, so a shared tuple hides what it holds.
 */
module CopyMemo {
  import opened PlainHeap
  import opened SpineCheck
  import opened Holders

  // ---- What a memo and the counts hold -----------------------------------

  /** What was copied is still held: by a name, or by something that was copied too. */
  ghost predicate Kept(h: Heap, memo: map<Id, Id>, named: set<Id>)
  {
    forall x <- memo :: x in named || Owned(h, memo, x)
  }

  ghost predicate Owned(h: Heap, memo: map<Id, Id>, x: Id)
  {
    exists q: Id :: q in memo && x in Kids(h, q)
  }

  /**
   * The count read of an object of level `k` is at least its slots in any containers, its name, and its
   * places in the walk's lists.
   */
  ghost predicate ReadsSlots(
    h: Heap, levels: seq<seq<Id>>, named: set<Id>, unshared: nat, refs: Id -> nat, k: nat, x: Id, owners: seq<Id>)
    requires 0 < k < |levels|
  {
    refs(x) + 2 >= unshared + Count(Flat(h, owners), x) + (if x in named then 1 else 0)
                   + FlatRefs(h, levels, |levels|, x) + Count(levels[0], x)
                   + (if OwnList(h, levels, k) then Count(levels[k], x) else 0)
  }

  ghost predicate SlotsRead(h: Heap, levels: seq<seq<Id>>, named: set<Id>, unshared: nat, refs: Id -> nat)
  {
    forall k: nat, x: Id, owners: seq<Id> {:trigger ReadsSlots(h, levels, named, unshared, refs, k, x, owners)} |
      0 < k < |levels| && x in levels[k] && Distinct(owners) :: ReadsSlots(h, levels, named, unshared, refs, k, x, owners)
  }

  /** A container below the top has a holder on the level above. */
  lemma HolderAbove(h: Heap, value: Id, levels: seq<seq<Id>>, k: nat, x: Id) returns (p: Id)
    requires Chain(h, value, levels) && 0 < k < |levels| && x in levels[k]
    ensures p in levels[k - 1] && x in Kids(h, p) && IsNode(h, x)
  {
    assert Linked(h, levels, k);
    NodesAre(h, Flat(h, levels[k - 1]), x);
    p := FlatFrom(h, levels[k - 1], x);
  }

  lemma OneSlot(h: Heap, p: Id, x: Id)
    requires x in Kids(h, p)
    ensures Distinct([p]) && Count(Flat(h, [p]), x) >= 1
  {
    CountAppend(Kids(h, p), Flat(h, [p][1..]), x);
    CountIn(Kids(h, p), x);
  }

  lemma TwoSlots(h: Heap, p: Id, q: Id, x: Id)
    requires p != q && x in Kids(h, p) && x in Kids(h, q)
    ensures Distinct([p, q]) && Count(Flat(h, [p, q]), x) >= 2
  {
    assert [p, q][1..] == [q];
    OneSlot(h, q, x);
    CountAppend(Kids(h, p), Flat(h, [q]), x);
    CountIn(Kids(h, p), x);
  }

  /** Counts of the slots cover the holders. */
  lemma SlotsCoverHolders(h: Heap, value: Id, levels: seq<seq<Id>>, named: set<Id>, unshared: nat, refs: Id -> nat)
    requires Chain(h, value, levels) && SlotsRead(h, levels, named, unshared, refs)
    ensures RefsCover(h, levels, unshared, refs)
  {
    forall k: nat, x: Id | 0 < k < |levels| && x in levels[k]
      ensures refs(x) + 1 >= unshared + FlatRefs(h, levels, |levels|, x) + Count(levels[0], x)
                             + (if OwnList(h, levels, k) then Count(levels[k], x) else 0)
    {
      var p := HolderAbove(h, value, levels, k, x);
      OneSlot(h, p, x);
      assert ReadsSlots(h, levels, named, unshared, refs, k, x, [p]);
    }
  }

  // ---- Where copied parts begin ------------------------------------------

  /** A copied container of the value that is the top, or that something not copied holds. */
  ghost predicate Entry(h: Heap, levels: seq<seq<Id>>, memo: map<Id, Id>, k: nat, e: Id)
  {
    k < |levels| && e in levels[k] && e in memo && (k == 0 || exists p <- levels[k - 1] :: e in Kids(h, p) && p !in memo)
  }

  /** The slots of some containers that hold `x`, and its name. */
  ghost function Held(h: Heap, named: set<Id>, owners: seq<Id>, x: Id): nat
  {
    Count(Flat(h, owners), x) + if x in named then 1 else 0
  }

  lemma TwoHolders(h: Heap, memo: map<Id, Id>, named: set<Id>, p: Id, x: Id) returns (owners: seq<Id>)
    requires Kept(h, memo, named) && x in memo && p !in memo && x in Kids(h, p)
    ensures Distinct(owners) && Held(h, named, owners, x) >= 2
  {
    if x in named {
      owners := [p];
      OneSlot(h, p, x);
    } else {
      var q: Id :| q in memo && x in Kids(h, q);
      owners := [p, q];
      TwoSlots(h, p, q, x);
    }
  }

  lemma InFlatAbove(h: Heap, value: Id, levels: seq<seq<Id>>, k: nat, x: Id)
    requires Chain(h, value, levels) && 0 < k < |levels| && x in levels[k]
    ensures x in Flat(h, levels[k - 1])
  {
    assert Linked(h, levels, k);
    NodesAre(h, Flat(h, levels[k - 1]), x);
  }

  lemma InLevelLists(h: Heap, levels: seq<seq<Id>>, k: nat, x: Id)
    requires 0 < k < |levels| && x in levels[k] && x in Flat(h, levels[k - 1])
    ensures FlatRefs(h, levels, |levels|, x) >= 1 && Count(levels[k], x) >= 1
  {
    CountIn(levels[k], x);
    CountIn(Flat(h, levels[k - 1]), x);
    FlatRefsHas(h, levels, |levels|, k - 1, x);
  }

  lemma TwoIsOver(
    h: Heap, levels: seq<seq<Id>>, named: set<Id>, unshared: nat, refs: Id -> nat, k: nat, x: Id, owners: seq<Id>)
    requires 0 < k < |levels| && FlatRefs(h, levels, |levels|, x) >= 1 && Count(levels[k], x) >= 1
    requires ReadsSlots(h, levels, named, unshared, refs, k, x, owners) && Held(h, named, owners, x) >= 2
    ensures refs(x) > Base(h, levels, k, unshared)
  {
  }

  /** It has two holders, so its count is over its base. */
  lemma EntryIsSuspect(
    h: Heap, value: Id, levels: seq<seq<Id>>, memo: map<Id, Id>, named: set<Id>, unshared: nat, refs: Id -> nat, k: nat, e: Id)
    requires Chain(h, value, levels) && SlotsRead(h, levels, named, unshared, refs) && Kept(h, memo, named)
    requires Entry(h, levels, memo, k, e)
    ensures Suspect(h, levels, unshared, refs, k, e)
  {
    if k > 0 {
      var p :| p in levels[k - 1] && e in Kids(h, p) && p !in memo;
      var owners := TwoHolders(h, memo, named, p, e);
      assert ReadsSlots(h, levels, named, unshared, refs, k, e, owners);
      InFlatAbove(h, value, levels, k, e);
      InLevelLists(h, levels, k, e);
      TwoIsOver(h, levels, named, unshared, refs, k, e, owners);
    }
  }

  lemma {:induction false} FlatRefsHas(h: Heap, levels: seq<seq<Id>>, k: nat, j: nat, x: Id)
    requires j < k <= |levels|
    ensures FlatRefs(h, levels, k, x) >= Count(Flat(h, levels[j]), x)
  {
    if j < k - 1 {
      FlatRefsHas(h, levels, k - 1, j, x);
    }
  }

  lemma ReachesSelf(h: Heap, x: Id)
    ensures Reaches(h, x, x)
  {
    assert x in NodesAt(h, [x], 0);
  }

  lemma ReachesOn(h: Heap, e: Id, p: Id, x: Id)
    requires Reaches(h, e, p) && x in Kids(h, p) && IsNode(h, x)
    ensures Reaches(h, e, x)
  {
    var n: nat :| p in NodesAt(h, [e], n);
    Child(h, e, n, p, x);
  }

  /** Above every copied container of the value there is such a beginning. */
  lemma {:induction false} EntryAbove(h: Heap, value: Id, levels: seq<seq<Id>>, memo: map<Id, Id>, k: nat, x: Id)
    returns (j: nat, e: Id)
    requires Chain(h, value, levels) && k < |levels| && x in levels[k] && x in memo
    ensures Entry(h, levels, memo, j, e) && Reaches(h, e, x)
  {
    j, e := k, x;
    ReachesSelf(h, x);
    if k > 0 {
      var p := HolderAbove(h, value, levels, k, x);
      if p in memo {
        j, e := EntryAbove(h, value, levels, memo, k - 1, p);
        ReachesOn(h, e, p, x);
      }
    }
  }

  /** What a container of the value reaches is met in the value. */
  lemma {:induction false} ReachedBelow(h: Heap, value: Id, levels: seq<seq<Id>>, k: nat, e: Id, n: nat, x: Id)
    requires Chain(h, value, levels) && k < |levels| && e in levels[k] && x in NodesAt(h, [e], n)
    ensures k + n < |levels| && x in levels[k + n]
  {
    if n > 0 {
      var p := Parent(h, e, n - 1, x);
      ReachedBelow(h, value, levels, k, e, n - 1, p);
      HeldBelow(h, value, levels, k + n - 1, p, x);
    }
  }

  // ---- When the promise is kept ------------------------------------------

  /** The test sees it: it is a list or dict, or a copied list or dict below it is counted over its base. */
  ghost predicate Shown(
    h: Heap, levels: seq<seq<Id>>, memo: map<Id, Id>, unshared: nat, refs: Id -> nat, e: Id)
  {
    Writable(h, e) || exists j: nat, x: Id :: SeenBelow(h, levels, memo, unshared, refs, e, j, x)
  }

  ghost predicate SeenBelow(
    h: Heap, levels: seq<seq<Id>>, memo: map<Id, Id>, unshared: nat, refs: Id -> nat, e: Id, j: nat, x: Id)
  {
    Suspect(h, levels, unshared, refs, j, x) && Writable(h, x) && x in memo && Reaches(h, e, x)
  }

  ghost predicate HidesCopied(h: Heap, memo: map<Id, Id>, e: Id)
  {
    At(h, e).Tuple? && exists x: Id :: Reaches(h, e, x) && Writable(h, x) && x in memo
  }

  /** Copied parts begin with a tuple over a copied list or dict, and none of their beginnings is seen. */
  ghost predicate Hidden(h: Heap, levels: seq<seq<Id>>, memo: map<Id, Id>, unshared: nat, refs: Id -> nat)
  {
    && (exists k: nat, e: Id :: Entry(h, levels, memo, k, e) && HidesCopied(h, memo, e))
    && (forall k: nat, e: Id | Entry(h, levels, memo, k, e) :: !Shown(h, levels, memo, unshared, refs, e))
  }

  lemma SeenIsSuspect(
    h: Heap, value: Id, levels: seq<seq<Id>>, memo: map<Id, Id>, named: set<Id>, unshared: nat, refs: Id -> nat, k: nat, e: Id)
    requires Chain(h, value, levels) && SlotsRead(h, levels, named, unshared, refs) && Kept(h, memo, named)
    requires Entry(h, levels, memo, k, e) && Shown(h, levels, memo, unshared, refs, e)
    ensures !NoSuspectInMemo(h, levels, unshared, refs, memo)
  {
    if Writable(h, e) {
      EntryIsSuspect(h, value, levels, memo, named, unshared, refs, k, e);
    } else {
      var j: nat, x: Id :| SeenBelow(h, levels, memo, unshared, refs, e, j, x);
    }
  }

  lemma MissedIsHidden(
    h: Heap, value: Id, levels: seq<seq<Id>>, memo: map<Id, Id>, named: set<Id>, unshared: nat, refs: Id -> nat)
    requires Chain(h, value, levels) && SlotsRead(h, levels, named, unshared, refs) && Kept(h, memo, named)
    requires NoSuspectInMemo(h, levels, unshared, refs, memo) && !NotInMemo(h, levels, memo)
    ensures Hidden(h, levels, memo, unshared, refs)
  {
    forall k: nat, e: Id | Entry(h, levels, memo, k, e) ensures !Shown(h, levels, memo, unshared, refs, e) {
      if Shown(h, levels, memo, unshared, refs, e) {
        SeenIsSuspect(h, value, levels, memo, named, unshared, refs, k, e);
      }
    }
    var k: nat, x: Id :| k < |levels| && x in levels[k] && Writable(h, x) && x in memo;
    var j, e := EntryAbove(h, value, levels, memo, k, x);
    ChainNode(h, value, levels, j, e);
    assert HidesCopied(h, memo, e);
  }

  lemma HiddenIsMissed(h: Heap, value: Id, levels: seq<seq<Id>>, memo: map<Id, Id>, unshared: nat, refs: Id -> nat)
    requires Chain(h, value, levels) && Hidden(h, levels, memo, unshared, refs)
    ensures NoSuspectInMemo(h, levels, unshared, refs, memo) && !NotInMemo(h, levels, memo)
  {
    forall j: nat, x: Id | Suspect(h, levels, unshared, refs, j, x) && Writable(h, x) ensures x !in memo {
      if x in memo {
        var k, e := EntryAbove(h, value, levels, memo, j, x);
        assert SeenBelow(h, levels, memo, unshared, refs, e, j, x);
      }
    }
    var k: nat, e: Id :| Entry(h, levels, memo, k, e) && HidesCopied(h, memo, e);
    var x: Id :| Reaches(h, e, x) && Writable(h, x) && x in memo;
    var n: nat :| x in NodesAt(h, [e], n);
    ReachedBelow(h, value, levels, k, e, n, x);
  }

  /**
   * Where what was copied is still held and the counts are at least the slots and names, the test
   * passes over a list or dict that was copied before exactly when copied parts of the value begin with a
   * tuple over one, and no beginning is a list or dict or has a copied list or dict below it
   * that is counted over its base.
   */
  lemma MemoPromise(
    h: Heap, value: Id, levels: seq<seq<Id>>, memo: map<Id, Id>, named: set<Id>, unshared: nat, refs: Id -> nat)
    requires Chain(h, value, levels) && SlotsRead(h, levels, named, unshared, refs) && Kept(h, memo, named)
    ensures NoSuspectInMemo(h, levels, unshared, refs, memo) && !NotInMemo(h, levels, memo)
            <==> Hidden(h, levels, memo, unshared, refs)
  {
    if NoSuspectInMemo(h, levels, unshared, refs, memo) && !NotInMemo(h, levels, memo) {
      MissedIsHidden(h, value, levels, memo, named, unshared, refs);
    }
    if Hidden(h, levels, memo, unshared, refs) {
      HiddenIsMissed(h, value, levels, memo, unshared, refs);
    }
  }

  // ---- A tuple that hides a list -----------------------------------------

  /** `t = ([1],); a = [t]; b = [t]`: ids 2, 0 and 1; the list in the tuple is 3. */
  const SHARED_TUPLE: Heap := map[0 := List([2]), 1 := List([2]), 2 := Tuple([3]), 3 := List([4]), 4 := Leaf(Prim(0), 1)]

  ghost predicate SharesTuple(h: Heap, top: Id)
  {
    && At(h, top) == List([2]) && At(h, 2) == Tuple([3]) && At(h, 3) == List([4]) && At(h, 4) == Leaf(Prim(0), 1)
    && (top == 0 || top == 1)
  }

  lemma FlatSingle(h: Heap, a: Id, b: Id)
    requires Kids(h, a) == [b]
    ensures Flat(h, [a]) == [b] && forall x: Id :: Count([b], x) == if x == b then 1 else 0
    ensures Nodes(h, [b]) == if IsNode(h, b) then [b] else []
  {
    assert [a][1..] == [] && [b][1..] == [];
    assert Flat(h, [a]) == Kids(h, a) + Flat(h, [a][1..]);
  }

  lemma SingleKeys(h: Heap, a: Id)
    requires !At(h, a).Dict?
    ensures FlatKeys(h, [a]) == []
  {
    assert [a][1..] == [];
  }

  lemma SharedWalk(h: Heap, leaves: set<LeafTy>, top: Id)
    requires SharesTuple(h, top) && Prim(0) in leaves
    ensures IsWalk(h, leaves, top, MAX_LEVELS, [[top], [2], [3]]) && NoRepeat(h, [[top], [2], [3]])
  {
    var levels: seq<seq<Id>> := [[top], [2], [3]];
    FlatSingle(h, top, 2);
    FlatSingle(h, 2, 3);
    FlatSingle(h, 3, 4);
    SingleKeys(h, top);
    SingleKeys(h, 2);
    SingleKeys(h, 3);
    assert Linked(h, levels, 1) && Linked(h, levels, 2);
    assert LevelPlain(h, leaves, levels[0]) && LevelPlain(h, leaves, levels[1]) && LevelPlain(h, leaves, levels[2]);
    forall x: Id ensures Total(levels, x) <= 1 {
      SharedMet(top, levels, x);
    }
  }

  lemma SharedMet(top: Id, levels: seq<seq<Id>>, x: Id)
    requires levels == [[top], [2], [3]] && (top == 0 || top == 1)
    ensures Total(levels, x) == if x == top || x == 2 || x == 3 then 1 else 0
  {
    CountOne(top, x);
    CountOne(2, x);
    CountOne(3, x);
    assert Met(levels, 1, x) == Met(levels, 0, x) + Count(levels[0], x);
    assert Met(levels, 2, x) == Met(levels, 1, x) + Count(levels[1], x);
    assert Met(levels, 3, x) == Met(levels, 2, x) + Count(levels[2], x);
  }

  lemma CountOne(a: Id, x: Id)
    ensures Count([a], x) == if x == a then 1 else 0
  {
    assert [a][1..] == [];
  }

  lemma SharedReach(h: Heap, leaves: set<LeafTy>, top: Id, x: Id)
    requires SharesTuple(h, top) && Prim(0) in leaves
    ensures Reaches(h, top, x) <==> x == top || x == 2 || x == 3
  {
    var levels: seq<seq<Id>> := [[top], [2], [3]];
    SharedWalk(h, leaves, top);
    if Reaches(h, top, x) {
      var k := ReachedIsWalked(h, top, levels, x);
      assert k == 0 || k == 1 || k == 2;
    }
    ChainReach(h, top, levels, 0);
    ChainReach(h, top, levels, 1);
    ChainReach(h, top, levels, 2);
    assert x == 2 ==> x in NodesAt(h, [top], 1);
    assert x == 3 ==> x in NodesAt(h, [top], 2);
    assert x == top ==> x in NodesAt(h, [top], 0);
  }

  /** Read with `unshared` 2, the tuple has 3 references and the list in it 2. */
  lemma SharedSuspects(h: Heap, top: Id, refs: Id -> nat, memo: map<Id, Id>)
    requires SharesTuple(h, top) && refs(2) == 3 && refs(3) == 2 && top !in memo
    ensures NoSuspectInMemo(h, [[top], [2], [3]], 2, refs, memo)
  {
    var levels: seq<seq<Id>> := [[top], [2], [3]];
    FlatSingle(h, top, 2);
    FlatSingle(h, 2, 3);
    forall k: nat, x: Id | Suspect(h, levels, 2, refs, k, x) && Writable(h, x) ensures x !in memo {
      assert k == 0 || k == 1 || k == 2;
    }
  }

  /** How often the containers of the example hold the tuple and the list. */
  lemma SharedSlots(h: Heap, owners: seq<Id>, x: Id)
    requires h == SHARED_TUPLE && Distinct(owners) && (x == 2 || x == 3)
    ensures Count(Flat(h, owners), x) <= if x == 2 then 2 else 1
  {
    var all: seq<Id> := [0, 1, 2, 3];
    FlatSingle(h, 0, 2);
    FlatSingle(h, 1, 2);
    FlatSingle(h, 2, 3);
    FlatSingle(h, 3, 4);
    assert all[1..] == [1, 2, 3] && [1, 2, 3][1..] == [2, 3] && [2, 3][1..] == [3];
    CountAppend(Kids(h, 2), Flat(h, [3]), x);
    CountAppend(Kids(h, 1), Flat(h, [2, 3]), x);
    CountAppend(Kids(h, 0), Flat(h, [1, 2, 3]), x);
    SlotsAtMost(h, owners, all, x);
  }

  lemma SharedFlatRefs(h: Heap, levels: seq<seq<Id>>, x: Id)
    requires SharesTuple(h, 1) && levels == [[1], [2], [3]] && (x == 2 || x == 3)
    ensures FlatRefs(h, levels, 3, x) == 1 && Count(levels[0], x) == 0
    ensures !OwnList(h, levels, 1) && !OwnList(h, levels, 2)
  {
    FlatSingle(h, 1, 2);
    FlatSingle(h, 2, 3);
    FlatSingle(h, 3, 4);
    CountOne(1, x);
    assert FlatRefs(h, levels, 1, x) == FlatRefs(h, levels, 0, x) + Count(Flat(h, levels[0]), x);
    assert FlatRefs(h, levels, 2, x) == FlatRefs(h, levels, 1, x) + Count(Flat(h, levels[1]), x);
    assert FlatRefs(h, levels, 3, x) == FlatRefs(h, levels, 2, x) + Count(Flat(h, levels[2]), x);
  }

  /**
   * After `a` was copied, with the counts of its tuple and list as they are: the tuple hides the list, so
   * copying `b` copies it again.
   */
  lemma TupleHides(memo: map<Id, Id>, refs: Id -> nat)
    requires memo.Keys == {0, 2, 3} && refs(2) == 3 && refs(3) == 2
    ensures Chain(SHARED_TUPLE, 1, [[1], [2], [3]]) && NoRepeat(SHARED_TUPLE, [[1], [2], [3]])
    ensures SlotsRead(SHARED_TUPLE, [[1], [2], [3]], {0, 1}, 2, refs) && Kept(SHARED_TUPLE, memo, {0, 1})
    ensures Hidden(SHARED_TUPLE, [[1], [2], [3]], memo, 2, refs)
  {
    var h := SHARED_TUPLE;
    var levels: seq<seq<Id>> := [[1], [2], [3]];
    SharedWalk(h, {Prim(0)}, 1);
    forall k: nat, x: Id, owners: seq<Id> | 0 < k < |levels| && x in levels[k] && Distinct(owners)
      ensures ReadsSlots(h, levels, {0, 1}, 2, refs, k, x, owners)
    {
      assert k == 1 || k == 2;
      SharedSlots(h, owners, x);
      SharedFlatRefs(h, levels, x);
    }
    assert Owned(h, memo, 2) by {
      assert 0 in memo && 2 in Kids(h, 0);
    }
    assert Owned(h, memo, 3) by {
      assert 2 in memo && 3 in Kids(h, 2);
    }
    SharedSuspects(h, 1, refs, memo);
    assert 3 in levels[2] && Writable(h, 3) && 3 in memo;
    MemoPromise(h, 1, levels, memo, {0, 1}, 2, refs);
  }
}
