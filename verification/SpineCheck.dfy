/**
 * The test in front of `_spine_copy`: is a list or dict met twice? It compares only the
 * objects whose reference count is over that of an object held once.
 */
module SpineCheck {
  import opened PlainHeap

  // ---- How often a container is met --------------------------------------

  /** How often `x` is in `s`. */
  function Count(s: seq<Id>, x: Id): nat
  {
    if s == [] then 0 else (if s[0] == x then 1 else 0) + Count(s[1..], x)
  }

  lemma {:induction false} CountAppend(a: seq<Id>, b: seq<Id>, x: Id)
    ensures Count(a + b, x) == Count(a, x) + Count(b, x)
  {
    if a == [] {
      assert a + b == b;
    } else {
      assert (a + b)[1..] == a[1..] + b;
      CountAppend(a[1..], b, x);
    }
  }

  lemma {:induction false} CountIn(s: seq<Id>, x: Id)
    ensures Count(s, x) > 0 <==> x in s
  {
    if s != [] {
      CountIn(s[1..], x);
    }
  }

  /** In how many places of the first `k` levels `x` is met. */
  ghost function Met(levels: seq<seq<Id>>, k: nat, x: Id): nat
    requires k <= |levels|
  {
    if k == 0 then 0 else Met(levels, k - 1, x) + Count(levels[k - 1], x)
  }

  ghost function Total(levels: seq<seq<Id>>, x: Id): nat
  {
    Met(levels, |levels|, x)
  }

  /** How many references the flat lists of the first `k` levels hold to `x`. */
  ghost function FlatRefs(h: Heap, levels: seq<seq<Id>>, k: nat, x: Id): nat
    requires k <= |levels|
  {
    if k == 0 then 0 else FlatRefs(h, levels, k - 1, x) + Count(Flat(h, levels[k - 1]), x)
  }

  lemma {:induction false} NodesCount(h: Heap, flat: seq<Id>, x: Id)
    requires IsNode(h, x)
    ensures Count(Nodes(h, flat), x) == Count(flat, x)
  {
    if flat != [] {
      NodesCount(h, flat[1..], x);
      CountAppend([flat[0]], Nodes(h, flat[1..]), x);
    }
  }

  /** Whatever holds `c` is met at most as often as `c` is, one level down. */
  lemma {:induction false} FlatCount(h: Heap, level: seq<Id>, x: Id, c: Id)
    requires c in Kids(h, x)
    ensures Count(Flat(h, level), c) >= Count(level, x)
  {
    if level != [] {
      FlatCount(h, level[1..], x, c);
      CountAppend(Kids(h, level[0]), Flat(h, level[1..]), c);
      CountIn(Kids(h, level[0]), c);
    }
  }

  /** A container of level `k` is met one level down as often as the level's flat list holds it. */
  lemma LevelBelow(h: Heap, value: Id, levels: seq<seq<Id>>, k: nat, c: Id)
    requires Chain(h, value, levels) && k < |levels| && IsNode(h, c)
    ensures Count(Flat(h, levels[k]), c) == if k + 1 < |levels| then Count(levels[k + 1], c) else 0
  {
    NodesCount(h, Flat(h, levels[k]), c);
    if k + 1 < |levels| {
      assert Linked(h, levels, k + 1);
    }
  }

  /** A container is met in at most as many places as anything it holds. */
  lemma {:induction false} MetBelow(h: Heap, value: Id, levels: seq<seq<Id>>, k: nat, x: Id, c: Id)
    requires Chain(h, value, levels) && c in Kids(h, x) && IsNode(h, c) && k <= |levels|
    ensures Met(levels, k, x) <= if k < |levels| then Met(levels, k + 1, c) else Total(levels, c)
  {
    if k > 0 {
      MetBelow(h, value, levels, k - 1, x, c);
      FlatCount(h, levels[k - 1], x, c);
      LevelBelow(h, value, levels, k - 1, c);
    }
  }

  /** The flat lists hold a container once per place below the top. */
  lemma {:induction false} FlatRefsUpto(h: Heap, value: Id, levels: seq<seq<Id>>, k: nat, x: Id)
    requires Chain(h, value, levels) && IsNode(h, x) && k < |levels|
    ensures FlatRefs(h, levels, k, x) + Met(levels, 1, x) == Met(levels, k + 1, x)
  {
    if k > 0 {
      FlatRefsUpto(h, value, levels, k - 1, x);
      LevelBelow(h, value, levels, k - 1, x);
    }
  }

  lemma FlatRefsAre(h: Heap, value: Id, levels: seq<seq<Id>>, x: Id)
    requires Chain(h, value, levels) && IsNode(h, x)
    ensures FlatRefs(h, levels, |levels|, x) + Count(levels[0], x) == Total(levels, x)
  {
    FlatRefsUpto(h, value, levels, |levels| - 1, x);
    LevelBelow(h, value, levels, |levels| - 1, x);
    assert Met(levels, 1, x) == Met(levels, 0, x) + Count(levels[0], x);
  }

  lemma {:induction false} MetHas(levels: seq<seq<Id>>, k: nat, j: nat, x: Id)
    requires j < k <= |levels|
    ensures Met(levels, k, x) >= Met(levels, j, x) + Count(levels[j], x)
  {
    if j < k - 1 {
      MetHas(levels, k - 1, j, x);
    }
  }

  lemma MetTwice(levels: seq<seq<Id>>, j: nat, k: nat, x: Id)
    requires j < k < |levels| && x in levels[j] && x in levels[k]
    ensures Total(levels, x) >= 2
  {
    MetHas(levels, |levels|, k, x);
    MetHas(levels, k, j, x);
    CountIn(levels[j], x);
    CountIn(levels[k], x);
  }

  lemma {:induction false} MetSomewhere(levels: seq<seq<Id>>, k: nat, x: Id) returns (j: nat)
    requires k <= |levels| && Met(levels, k, x) >= 1
    ensures j < k && x in levels[j]
  {
    CountIn(levels[k - 1], x);
    if x in levels[k - 1] {
      j := k - 1;
    } else {
      j := MetSomewhere(levels, k - 1, x);
    }
  }

  // ---- What the reference counts promise ---------------------------------

  /** Level `k` was picked out of the flat list above rather than being it. */
  predicate OwnList(h: Heap, levels: seq<seq<Id>>, k: nat)
    requires 0 < k < |levels|
  {
    |levels[k]| != |Flat(h, levels[k - 1])|
  }

  /** The count an object of level `k` has when it is held once. */
  function Base(h: Heap, levels: seq<seq<Id>>, k: nat, unshared: nat): nat
    requires 0 < k < |levels|
  {
    unshared + (if OwnList(h, levels, k) then 1 else 0)
  }

  /**
   * A count is at least the number of holders: one slot of a parent, every flat list, the
   * top's own list and, where it is one, the level's own. `unshared` is what the probe
   * reads for an object with one slot and one flat list.
   */
  ghost predicate RefsCover(h: Heap, levels: seq<seq<Id>>, unshared: nat, refs: Id -> nat)
    requires |levels| > 0
  {
    forall k: nat, x: Id | 0 < k < |levels| && x in levels[k] ::
      refs(x) + 1 >= unshared + FlatRefs(h, levels, |levels|, x) + Count(levels[0], x)
                     + (if OwnList(h, levels, k) then Count(levels[k], x) else 0)
  }

  /** The object is the top, or its count on level `k` is over that of an object held once. */
  predicate Suspect(h: Heap, levels: seq<seq<Id>>, unshared: nat, refs: Id -> nat, k: nat, x: Id)
  {
    k < |levels| && x in levels[k] && (k == 0 || refs(x) > Base(h, levels, k, unshared))
  }

  /** No list or dict that is the top or is counted over its base was copied for another name before. */
  ghost predicate NoSuspectInMemo(h: Heap, levels: seq<seq<Id>>, unshared: nat, refs: Id -> nat, memo: map<Id, Id>)
  {
    forall k: nat, x: Id | Suspect(h, levels, unshared, refs, k, x) && Writable(h, x) :: x !in memo
  }

  /** Every list and dict is met in at most one place. */
  ghost predicate NoRepeat(h: Heap, levels: seq<seq<Id>>)
  {
    forall x: Id | Writable(h, x) :: Total(levels, x) <= 1
  }

  /** No list or dict of the levels was copied for another name before. */
  ghost predicate NotInMemo(h: Heap, levels: seq<seq<Id>>, memo: map<Id, Id>)
  {
    forall k: nat, x: Id | k < |levels| && x in levels[k] && Writable(h, x) :: x !in memo
  }

  // ---- The objects it compares -------------------------------------------

  function CountedOver(level: seq<Id>, base: nat, refs: Id -> nat): seq<Id>
  {
    if level == [] then []
    else if refs(level[0]) > base then [level[0]] + CountedOver(level[1..], base, refs)
    else CountedOver(level[1..], base, refs)
  }

  lemma {:induction false} CountedOverCount(level: seq<Id>, base: nat, refs: Id -> nat, x: Id)
    ensures Count(CountedOver(level, base, refs), x) == if refs(x) > base then Count(level, x) else 0
  {
    if level != [] {
      CountedOverCount(level[1..], base, refs, x);
      CountAppend(if refs(level[0]) > base then [level[0]] else [], CountedOver(level[1..], base, refs), x);
    }
  }

  function WithoutTuples(h: Heap, s: seq<Id>): seq<Id>
  {
    if s == [] then []
    else (if At(h, s[0]).Tuple? then [] else [s[0]]) + WithoutTuples(h, s[1..])
  }

  lemma {:induction false} WithoutTuplesCount(h: Heap, s: seq<Id>, x: Id)
    ensures Count(WithoutTuples(h, s), x) == if At(h, x).Tuple? then 0 else Count(s, x)
  {
    if s != [] {
      WithoutTuplesCount(h, s[1..], x);
      CountAppend(if At(h, s[0]).Tuple? then [] else [s[0]], WithoutTuples(h, s[1..]), x);
    }
  }

  predicate Distinct(s: seq<Id>)
  {
    forall i, j | 0 <= i < j < |s| :: s[i] != s[j]
  }

  lemma {:induction false} DistinctCount(s: seq<Id>, x: Id)
    requires Distinct(s)
    ensures Count(s, x) <= 1
  {
    if s != [] {
      DistinctCount(s[1..], x);
      CountIn(s[1..], x);
    }
  }

  lemma {:induction false} CountsDistinct(s: seq<Id>)
    requires forall x: Id :: Count(s, x) <= 1
    ensures Distinct(s)
  {
    if s != [] {
      forall x: Id ensures Count(s[1..], x) <= 1 {
        assert Count(s, x) <= 1;
      }
      CountsDistinct(s[1..]);
      assert Count(s, s[0]) <= 1;
      CountIn(s[1..], s[0]);
    }
  }

  /** The objects picked from the levels before `k`: the top, and every container counted over its base. */
  function Suspects(h: Heap, levels: seq<seq<Id>>, k: nat, unshared: nat, refs: Id -> nat): seq<Id>
    requires 1 <= k <= |levels|
  {
    if k == 1 then levels[0]
    else Suspects(h, levels, k - 1, unshared, refs)
         + CountedOver(levels[k - 1], Base(h, levels, k - 1, unshared), refs)
  }

  /** The counts tell: an object met twice is over its base wherever it is met. */
  lemma MetTwiceIsOver(h: Heap, value: Id, levels: seq<seq<Id>>, k: nat, unshared: nat, refs: Id -> nat, x: Id)
    requires Chain(h, value, levels) && RefsCover(h, levels, unshared, refs)
    requires 0 < k < |levels| && x in levels[k] && Total(levels, x) >= 2
    ensures refs(x) > Base(h, levels, k, unshared)
  {
    ChainNode(h, value, levels, k, x);
    FlatRefsAre(h, value, levels, x);
    CountIn(levels[k], x);
  }

  /** Nothing is picked more often than it is met. */
  lemma {:induction false} SuspectsAtMost(h: Heap, levels: seq<seq<Id>>, k: nat, unshared: nat, refs: Id -> nat, x: Id)
    requires 1 <= k <= |levels|
    ensures Count(Suspects(h, levels, k, unshared, refs), x) <= Met(levels, k, x)
  {
    if k == 1 {
      assert Met(levels, 1, x) == Met(levels, 0, x) + Count(levels[0], x);
    } else {
      CountAppend(Suspects(h, levels, k - 1, unshared, refs),
                  CountedOver(levels[k - 1], Base(h, levels, k - 1, unshared), refs), x);
      SuspectsAtMost(h, levels, k - 1, unshared, refs, x);
      CountedOverCount(levels[k - 1], Base(h, levels, k - 1, unshared), refs, x);
    }
  }

  /** What is met twice is picked in each of its places. */
  lemma {:induction false} SuspectsAll(
    h: Heap, value: Id, levels: seq<seq<Id>>, k: nat, unshared: nat, refs: Id -> nat, x: Id)
    requires Chain(h, value, levels) && RefsCover(h, levels, unshared, refs)
    requires 1 <= k <= |levels| && Total(levels, x) >= 2
    ensures Count(Suspects(h, levels, k, unshared, refs), x) == Met(levels, k, x)
  {
    if k > 1 {
      CountAppend(Suspects(h, levels, k - 1, unshared, refs),
                  CountedOver(levels[k - 1], Base(h, levels, k - 1, unshared), refs), x);
      CountIn(levels[k - 1], x);
      SuspectsAll(h, value, levels, k - 1, unshared, refs, x);
      CountedOverCount(levels[k - 1], Base(h, levels, k - 1, unshared), refs, x);
      if x in levels[k - 1] {
        MetTwiceIsOver(h, value, levels, k - 1, unshared, refs, x);
      }
    } else {
      assert Met(levels, 1, x) == Met(levels, 0, x) + Count(levels[0], x);
    }
  }

  /** What is picked is exactly what is suspect somewhere. */
  lemma {:induction false} SuspectsHas(
    h: Heap, levels: seq<seq<Id>>, k: nat, unshared: nat, refs: Id -> nat, j: nat, x: Id)
    requires 1 <= k <= |levels| && j < k && Suspect(h, levels, unshared, refs, j, x)
    ensures x in Suspects(h, levels, k, unshared, refs)
  {
    if j < k - 1 {
      SuspectsHas(h, levels, k - 1, unshared, refs, j, x);
    } else if k > 1 {
      OverHas(levels[k - 1], Base(h, levels, k - 1, unshared), refs, x);
    }
  }

  lemma OverHas(level: seq<Id>, base: nat, refs: Id -> nat, x: Id)
    ensures x in CountedOver(level, base, refs) <==> x in level && refs(x) > base
  {
    CountedOverCount(level, base, refs, x);
    CountIn(level, x);
    CountIn(CountedOver(level, base, refs), x);
  }

  lemma {:induction false} SuspectsFrom(h: Heap, levels: seq<seq<Id>>, k: nat, unshared: nat, refs: Id -> nat, x: Id)
    returns (j: nat)
    requires 1 <= k <= |levels| && x in Suspects(h, levels, k, unshared, refs)
    ensures j < k && Suspect(h, levels, unshared, refs, j, x)
  {
    if k == 1 {
      j := 0;
    } else if x in Suspects(h, levels, k - 1, unshared, refs) {
      j := SuspectsFrom(h, levels, k - 1, unshared, refs, x);
    } else {
      OverHas(levels[k - 1], Base(h, levels, k - 1, unshared), refs, x);
      j := k - 1;
    }
  }

  lemma WithoutTuplesHas(h: Heap, s: seq<Id>, x: Id)
    ensures x in WithoutTuples(h, s) <==> x in s && !At(h, x).Tuple?
  {
    WithoutTuplesCount(h, s, x);
    CountIn(s, x);
    CountIn(WithoutTuples(h, s), x);
  }

  /** What is compared is in no memo exactly when no suspect list or dict is. */
  lemma NoneInMemo(
    h: Heap, value: Id, levels: seq<seq<Id>>, unshared: nat, refs: Id -> nat, memo: map<Id, Id>, shared: seq<Id>)
    requires Chain(h, value, levels) && shared == WithoutTuples(h, Suspects(h, levels, |levels|, unshared, refs))
    ensures (forall x <- shared :: x !in memo) <==> NoSuspectInMemo(h, levels, unshared, refs, memo)
  {
    var picked := Suspects(h, levels, |levels|, unshared, refs);
    forall k: nat, x: Id | Suspect(h, levels, unshared, refs, k, x) && Writable(h, x) ensures x in shared {
      SuspectsHas(h, levels, |levels|, unshared, refs, k, x);
      WithoutTuplesHas(h, picked, x);
    }
    forall x <- shared ensures exists k: nat :: Suspect(h, levels, unshared, refs, k, x) && Writable(h, x) {
      WithoutTuplesHas(h, picked, x);
      var k := SuspectsFrom(h, levels, |levels|, unshared, refs, x);
      ChainNode(h, value, levels, k, x);
      assert Suspect(h, levels, unshared, refs, k, x) && Writable(h, x);
    }
  }

  /** When no list or dict is met twice, none is compared twice. */
  lemma OnceMeansDistinct(h: Heap, value: Id, levels: seq<seq<Id>>, unshared: nat, refs: Id -> nat, shared: seq<Id>)
    requires Chain(h, value, levels) && NoRepeat(h, levels)
    requires shared == WithoutTuples(h, Suspects(h, levels, |levels|, unshared, refs))
    ensures Distinct(shared)
  {
    forall x: Id ensures Count(shared, x) <= 1 {
      WithoutTuplesCount(h, Suspects(h, levels, |levels|, unshared, refs), x);
      SuspectsAtMost(h, levels, |levels|, unshared, refs, x);
      if Count(shared, x) > 0 {
        var k := MetSomewhere(levels, |levels|, x);
        ChainNode(h, value, levels, k, x);
        assert Writable(h, x);
        assert Total(levels, x) == Met(levels, |levels|, x);
      }
    }
    CountsDistinct(shared);
  }

  lemma DistinctMeansOnce(h: Heap, value: Id, levels: seq<seq<Id>>, unshared: nat, refs: Id -> nat, shared: seq<Id>)
    requires Chain(h, value, levels) && RefsCover(h, levels, unshared, refs)
    requires shared == WithoutTuples(h, Suspects(h, levels, |levels|, unshared, refs)) && Distinct(shared)
    ensures NoRepeat(h, levels)
  {
    forall x: Id | Writable(h, x)
      ensures Total(levels, x) <= 1
    {
      if Total(levels, x) >= 2 {
        DistinctCount(shared, x);
        SuspectsAll(h, value, levels, |levels|, unshared, refs, x);
        WithoutTuplesCount(h, Suspects(h, levels, |levels|, unshared, refs), x);
        assert false;
      }
    }
  }

  /**
   * A list or dict held twice, here or by a name copied before (lines 1412-1423). Where the counts
   * cover the holders, it is False exactly when no list or dict is met twice and no suspect one is in
   * the memo.
   */
  method HeldTwice(
    h: Heap, value: Id, levels: seq<seq<Id>>, unshared: nat, refs: Id -> nat, memo: map<Id, Id>) returns (twice: bool)
    requires Chain(h, value, levels)
    ensures NoRepeat(h, levels) ==> (!twice <==> NoSuspectInMemo(h, levels, unshared, refs, memo))
    ensures RefsCover(h, levels, unshared, refs) ==>
              (!twice <==> NoRepeat(h, levels) && NoSuspectInMemo(h, levels, unshared, refs, memo))
  {
    var held: seq<Id> := levels[0];
    for k := 1 to |levels|
      invariant held == Suspects(h, levels, k, unshared, refs)
    {
      held := held + CountedOver(levels[k], Base(h, levels, k, unshared), refs);
    }
    var shared: seq<Id> := WithoutTuples(h, held);
    twice := !Distinct(shared) || exists x <- shared :: x in memo;
    NoneInMemo(h, value, levels, unshared, refs, memo, shared);
    if NoRepeat(h, levels) {
      OnceMeansDistinct(h, value, levels, unshared, refs, shared);
    }
    if RefsCover(h, levels, unshared, refs) && !twice {
      DistinctMeansOnce(h, value, levels, unshared, refs, shared);
    }
  }
}
