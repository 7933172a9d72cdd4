/**
 * `identity_snapshot` and `identity_changed` of `src/cash/_plain_data.py` (lines 963-1012): did a call
 * change a value, seen by comparing which objects each level holds?
 */
module Identity {
  import opened Options
  import opened PlainHeap

  /** A level's items, or None where only tuples hold them. */
  type Snapshot = seq<Option<seq<Id>>>

  predicate IsSeq(h: Heap, x: Id)
  {
    At(h, x).List? || At(h, x).Tuple?
  }

  /** `[x for x in flat if type(x) in PLAIN_SEQS]`. */
  function Seqs(h: Heap, flat: seq<Id>): seq<Id>
  {
    if flat == [] then []
    else if IsSeq(h, flat[0]) then [flat[0]] + Seqs(h, flat[1..])
    else Seqs(h, flat[1..])
  }

  lemma {:induction false} SeqsHas(h: Heap, flat: seq<Id>, x: Id)
    ensures x in Seqs(h, flat) <==> x in flat && IsSeq(h, x)
  {
    if flat != [] {
      SeqsHas(h, flat[1..], x);
      assert flat == [flat[0]] + flat[1..];
    }
  }

  /** The containers `k` steps below a value. */
  function LevelAt(h: Heap, value: Id, k: nat): seq<Id>
  {
    if k == 0 then [value] else Seqs(h, Flat(h, LevelAt(h, value, k - 1)))
  }

  predicate HasList(h: Heap, level: seq<Id>)
  {
    exists x <- level :: At(h, x).List?
  }

  /** Leaves that do not change in place, lists and tuples. */
  predicate LevelOk(h: Heap, leaves: set<LeafTy>, level: seq<Id>)
  {
    forall x <- Flat(h, level) :: (IsLeafOf(h, leaves, x) && At(h, x).ty != Bytearray) || IsSeq(h, x)
  }

  ghost predicate OkAt(h: Heap, leaves: set<LeafTy>, value: Id, k: nat)
  {
    LevelAt(h, value, k) != [] && LevelOk(h, leaves, LevelAt(h, value, k))
  }

  /** The first `n` levels are plain. */
  ghost predicate OkTo(h: Heap, leaves: set<LeafTy>, value: Id, n: nat)
  {
    forall k: nat {:trigger OkAt(h, leaves, value, k)} | k < n :: OkAt(h, leaves, value, k)
  }

  /** `n` plain levels, and nothing below. */
  ghost predicate PlainTo(h: Heap, leaves: set<LeafTy>, value: Id, limit: nat, n: nat)
  {
    0 < n <= limit && IsSeq(h, value) && OkTo(h, leaves, value, n) && LevelAt(h, value, n) == []
  }

  /** What the snapshot holds of level `k`. */
  function SnapAt(h: Heap, value: Id, k: nat): Option<seq<Id>>
  {
    if HasList(h, LevelAt(h, value, k)) then Some(Flat(h, LevelAt(h, value, k))) else None
  }

  ghost predicate TakenAt(h: Heap, value: Id, snap: Snapshot, k: nat)
  {
    k < |snap| && snap[k] == SnapAt(h, value, k)
  }

  ghost predicate Taken(h: Heap, value: Id, snap: Snapshot)
  {
    forall k: nat {:trigger TakenAt(h, value, snap, k)} | k < |snap| :: TakenAt(h, value, snap, k)
  }

  lemma TakenMore(h: Heap, value: Id, snap: Snapshot, s: Option<seq<Id>>)
    requires Taken(h, value, snap) && s == SnapAt(h, value, |snap|)
    ensures Taken(h, value, snap + [s])
  {
    forall k: nat | k <= |snap| ensures TakenAt(h, value, snap + [s], k) {
      assert k < |snap| ==> TakenAt(h, value, snap, k);
    }
  }

  lemma NotOk(h: Heap, leaves: set<LeafTy>, value: Id, limit: nat, d: nat)
    requires OkTo(h, leaves, value, d) && LevelAt(h, value, d) != []
    requires d == limit || !LevelOk(h, leaves, LevelAt(h, value, d))
    ensures forall n: nat :: !PlainTo(h, leaves, value, limit, n)
  {
    assert d < limit ==> !OkAt(h, leaves, value, d);
    forall n: nat ensures !PlainTo(h, leaves, value, limit, n) {
      assert n < d ==> OkAt(h, leaves, value, n);
    }
  }

  lemma OkMore(h: Heap, leaves: set<LeafTy>, value: Id, d: nat, level: seq<Id>)
    requires OkTo(h, leaves, value, d) && level == LevelAt(h, value, d) && level != [] && LevelOk(h, leaves, level)
    ensures OkTo(h, leaves, value, d + 1)
  {
    assert OkAt(h, leaves, value, d);
  }

  lemma ListsBelow(h: Heap, flat: seq<Id>)
    ensures HasList(h, Seqs(h, flat)) <==> exists x <- flat :: At(h, x).List?
  {
    forall x: Id {
      SeqsHas(h, flat, x);
    }
  }

  /** `identity_snapshot`. */
  method TakeSnapshot(h: Heap, leaves: set<LeafTy>, value: Id, limit: nat) returns (r: Option<Snapshot>)
    ensures r.None? ==> forall n: nat :: !PlainTo(h, leaves, value, limit, n)
    ensures r.Some? ==> PlainTo(h, leaves, value, limit, |r.value|) && Taken(h, value, r.value)
  {
    if !IsSeq(h, value) {
      return None;
    }
    var snap: Snapshot, level, parentsCanChange := [], [value], At(h, value).List?;
    for depth := 0 to limit
      invariant level == LevelAt(h, value, depth) && level != [] && |snap| == depth
      invariant OkTo(h, leaves, value, depth) && Taken(h, value, snap)
      invariant parentsCanChange == HasList(h, level)
    {
      if !LevelOk(h, leaves, level) {
        NotOk(h, leaves, value, limit, depth);
        return None;
      }
      OkMore(h, leaves, value, depth, level);
      var flat := Flat(h, level);
      TakenMore(h, value, snap, if parentsCanChange then Some(flat) else None);
      snap := snap + [if parentsCanChange then Some(flat) else None];
      ListsBelow(h, flat);
      parentsCanChange := exists x <- flat :: At(h, x).List?;
      level := Seqs(h, flat);
      if level == [] {
        return Some(snap);
      }
    }
    NotOk(h, leaves, value, limit, limit);
    return None;
  }

  // ---- The comparison ----------------------------------------------------

  /** Level `k` holds the objects the snapshot says, where it says any. */
  ghost predicate SameAt(h: Heap, value: Id, snap: Snapshot, k: nat)
  {
    k < |snap| && (snap[k].Some? ==> Flat(h, LevelAt(h, value, k)) == snap[k].value)
  }

  ghost predicate SameTo(h: Heap, value: Id, snap: Snapshot, n: nat)
  {
    forall k: nat {:trigger SameAt(h, value, snap, k)} | k < n :: SameAt(h, value, snap, k)
  }

  lemma SameMore(h: Heap, value: Id, snap: Snapshot, d: nat, flat: seq<Id>)
    requires SameTo(h, value, snap, d) && d < |snap| && flat == Flat(h, LevelAt(h, value, d))
    requires snap[d].Some? ==> flat == snap[d].value
    ensures SameTo(h, value, snap, d + 1)
  {
    assert SameAt(h, value, snap, d);
  }

  lemma NotSame(h: Heap, value: Id, snap: Snapshot, d: nat, flat: seq<Id>)
    requires d < |snap| && flat == Flat(h, LevelAt(h, value, d)) && snap[d].Some? && flat != snap[d].value
    ensures !SameTo(h, value, snap, |snap|)
  {
    assert !SameAt(h, value, snap, d);
  }

  /** `identity_changed`. */
  method Changed(h: Heap, value: Id, snap: Snapshot) returns (changed: bool)
    ensures !changed <==> IsSeq(h, value) && snap != [] && SameTo(h, value, snap, |snap|)
  {
    if !IsSeq(h, value) || snap == [] {
      return true;
    }
    var level := [value];
    for depth := 0 to |snap|
      invariant level == LevelAt(h, value, depth) && SameTo(h, value, snap, depth)
    {
      var flat := Flat(h, level);
      if snap[depth].Some? && flat != snap[depth].value {
        NotSame(h, value, snap, depth, flat);
        return true;
      }
      SameMore(h, value, snap, depth, flat);
      level := Seqs(h, flat);
    }
    return false;
  }

  // ---- What the answer means ---------------------------------------------

  /** What a call can do to the heap: lists change what they hold; tuples and leaves do not change, nor does any type. */
  ghost predicate Evolves(h: Heap, h': Heap)
  {
    forall x <- h :: if At(h, x).List? then At(h', x).List? else At(h', x) == At(h, x)
  }

  /** What the containers of level `k` hold is as it was. */
  ghost predicate Untouched(h: Heap, h': Heap, level: seq<Id>)
  {
    forall x <- level :: Kids(h', x) == Kids(h, x)
  }

  ghost predicate UntouchedAt(h: Heap, h': Heap, value: Id, k: nat)
  {
    Untouched(h, h', LevelAt(h, value, k))
  }

  /** No list met in the first `n` levels holds anything else than it did. */
  ghost predicate Unchanged(h: Heap, h': Heap, value: Id, n: nat)
  {
    forall k: nat {:trigger UntouchedAt(h, h', value, k)} | k < n :: UntouchedAt(h, h', value, k)
  }

  ghost predicate LengthsAt(h: Heap, h': Heap, value: Id, k: nat)
  {
    forall x <- LevelAt(h, value, k) :: |Kids(h', x)| == |Kids(h, x)|
  }

  ghost predicate SameLengths(h: Heap, h': Heap, value: Id, n: nat)
  {
    forall k: nat {:trigger LengthsAt(h, h', value, k)} | k < n :: LengthsAt(h, h', value, k)
  }

  /** Flat lists that agree, from containers whose lengths agree, are split the same way. */
  lemma {:induction false} SplitSame(h: Heap, h': Heap, level: seq<Id>)
    requires Flat(h', level) == Flat(h, level) && forall x <- level :: |Kids(h', x)| == |Kids(h, x)|
    ensures Untouched(h, h', level)
  {
    if level != [] {
      var x, rest := level[0], level[1..];
      var a, b := Kids(h, x), Kids(h', x);
      SplitFront(a, Flat(h, rest), b, Flat(h', rest));
      SplitSame(h, h', rest);
      forall y <- level ensures Kids(h', y) == Kids(h, y) {
        assert y == x || y in rest;
      }
    }
  }

  lemma SplitFront(a: seq<Id>, s: seq<Id>, b: seq<Id>, t: seq<Id>)
    requires a + s == b + t && |a| == |b|
    ensures a == b && s == t
  {
    assert a == (a + s)[..|a|] && b == (b + t)[..|b|];
    assert s == (a + s)[|a|..] && t == (b + t)[|b|..];
  }

  lemma {:induction false} FlatSame(h: Heap, h': Heap, level: seq<Id>)
    requires Untouched(h, h', level)
    ensures Flat(h', level) == Flat(h, level)
  {
    if level != [] {
      assert level[0] in level;
      FlatSame(h, h', level[1..]);
    }
  }

  lemma {:induction false} SeqsSame(h: Heap, h': Heap, leaves: set<LeafTy>, flat: seq<Id>)
    requires Evolves(h, h') && Absent !in leaves && forall x <- flat :: IsLeafOf(h, leaves, x) || IsSeq(h, x)
    ensures Seqs(h', flat) == Seqs(h, flat)
  {
    if flat != [] {
      assert flat[0] in flat;
      SeqsSame(h, h', leaves, flat[1..]);
    }
  }

  /** The next level is the same when this one is untouched. */
  lemma LevelSame(h: Heap, h': Heap, leaves: set<LeafTy>, value: Id, k: nat)
    requires Evolves(h, h') && Absent !in leaves && OkAt(h, leaves, value, k)
    requires LevelAt(h', value, k) == LevelAt(h, value, k) && UntouchedAt(h, h', value, k)
    ensures Flat(h', LevelAt(h', value, k)) == Flat(h, LevelAt(h, value, k))
    ensures LevelAt(h', value, k + 1) == LevelAt(h, value, k + 1)
  {
    FlatSame(h, h', LevelAt(h, value, k));
    SeqsSame(h, h', leaves, Flat(h, LevelAt(h, value, k)));
  }

  lemma {:induction false} LevelSeq(h: Heap, value: Id, k: nat, x: Id)
    requires IsSeq(h, value) && x in LevelAt(h, value, k)
    ensures IsSeq(h, x)
  {
    if k > 0 {
      SeqsHas(h, Flat(h, LevelAt(h, value, k - 1)), x);
    }
  }

  /** Tuples alone cannot change. */
  lemma TuplesUntouched(h: Heap, h': Heap, value: Id, k: nat)
    requires Evolves(h, h') && IsSeq(h, value) && !HasList(h, LevelAt(h, value, k))
    ensures UntouchedAt(h, h', value, k)
  {
    forall x <- LevelAt(h, value, k) ensures Kids(h', x) == Kids(h, x) {
      LevelSeq(h, value, k, x);
    }
  }

  lemma SameIsUntouched(h: Heap, h': Heap, value: Id, snap: Snapshot, k: nat)
    requires Evolves(h, h') && IsSeq(h, value) && LevelAt(h', value, k) == LevelAt(h, value, k)
    requires TakenAt(h, value, snap, k) && SameAt(h', value, snap, k) && LengthsAt(h, h', value, k)
    ensures UntouchedAt(h, h', value, k)
  {
    if HasList(h, LevelAt(h, value, k)) {
      SplitSame(h, h', LevelAt(h, value, k));
    } else {
      TuplesUntouched(h, h', value, k);
    }
  }

  lemma UnchangedMore(h: Heap, h': Heap, value: Id, n: nat)
    requires Unchanged(h, h', value, n) && UntouchedAt(h, h', value, n)
    ensures Unchanged(h, h', value, n + 1)
  {
  }

  /** With no list's length changed, levels that hold the same objects are untouched. */
  lemma {:induction false} SameIsUnchanged(
    h: Heap, h': Heap, leaves: set<LeafTy>, value: Id, snap: Snapshot, n: nat)
    requires Evolves(h, h') && Absent !in leaves && IsSeq(h, value) && OkTo(h, leaves, value, |snap|) && n <= |snap|
    requires Taken(h, value, snap) && SameTo(h', value, snap, n) && SameLengths(h, h', value, n)
    ensures Unchanged(h, h', value, n) && LevelAt(h', value, n) == LevelAt(h, value, n)
  {
    if n > 0 {
      var k := n - 1;
      SameIsUnchanged(h, h', leaves, value, snap, k);
      assert TakenAt(h, value, snap, k) && SameAt(h', value, snap, k) && LengthsAt(h, h', value, k) && OkAt(h, leaves, value, k);
      SameIsUntouched(h, h', value, snap, k);
      LevelSame(h, h', leaves, value, k);
      UnchangedMore(h, h', value, k);
    }
  }

  /** If no list met holds anything else, every level holds the same objects. */
  lemma {:induction false} UnchangedIsSame(
    h: Heap, h': Heap, leaves: set<LeafTy>, value: Id, snap: Snapshot, n: nat)
    requires Evolves(h, h') && Absent !in leaves && IsSeq(h, value) && OkTo(h, leaves, value, |snap|) && n <= |snap|
    requires Taken(h, value, snap) && Unchanged(h, h', value, n)
    ensures SameTo(h', value, snap, n) && LevelAt(h', value, n) == LevelAt(h, value, n)
  {
    if n > 0 {
      var k := n - 1;
      UnchangedIsSame(h, h', leaves, value, snap, k);
      assert TakenAt(h, value, snap, k) && UntouchedAt(h, h', value, k) && OkAt(h, leaves, value, k);
      LevelSame(h, h', leaves, value, k);
      assert SameAt(h', value, snap, k);
    }
  }

  lemma UnchangedLengths(h: Heap, h': Heap, value: Id, n: nat)
    requires Unchanged(h, h', value, n)
    ensures SameLengths(h, h', value, n)
  {
    forall k: nat | k < n ensures LengthsAt(h, h', value, k) {
      assert UntouchedAt(h, h', value, k);
    }
  }

  /**
   * `identity_changed` against the snapshot of a plain value: False whenever no list changed; and a
   * False means that no list changed exactly when no list's length did.
   */
  lemma AnswerIs(h: Heap, h': Heap, leaves: set<LeafTy>, value: Id, limit: nat, snap: Snapshot)
    requires Evolves(h, h') && Absent !in leaves && PlainTo(h, leaves, value, limit, |snap|) && Taken(h, value, snap)
    ensures Unchanged(h, h', value, |snap|) ==> SameTo(h', value, snap, |snap|)
    ensures SameTo(h', value, snap, |snap|) ==> (Unchanged(h, h', value, |snap|) <==> SameLengths(h, h', value, |snap|))
  {
    if Unchanged(h, h', value, |snap|) {
      UnchangedIsSame(h, h', leaves, value, snap, |snap|);
      UnchangedLengths(h, h', value, |snap|);
    }
    if SameTo(h', value, snap, |snap|) && SameLengths(h, h', value, |snap|) {
      SameIsUnchanged(h, h', leaves, value, snap, |snap|);
    }
  }

  /** What a container holds is met one level down, or is a leaf, which does not change. */
  lemma KidBelow(h: Heap, h': Heap, leaves: set<LeafTy>, value: Id, limit: nat, n: nat, k: nat, x: Id, c: Id)
    requires Evolves(h, h') && Absent !in leaves && PlainTo(h, leaves, value, limit, n) && k < n
    requires x in LevelAt(h, value, k) && c in Kids(h, x)
    ensures IsSeq(h, c) ==> k + 1 < n && c in LevelAt(h, value, k + 1)
    ensures !IsSeq(h, c) ==> At(h, c).Leaf? && At(h', c) == At(h, c)
  {
    assert OkAt(h, leaves, value, k);
    FlatHas(h, LevelAt(h, value, k), x, c);
    SeqsHas(h, Flat(h, LevelAt(h, value, k)), c);
  }

  /** What is met unchanged unfolds to the same value. */
  lemma {:induction false} UnchangedUnfolds(
    h: Heap, h': Heap, leaves: set<LeafTy>, value: Id, limit: nat, n: nat, k: nat, x: Id, m: nat)
    requires Evolves(h, h') && Absent !in leaves && PlainTo(h, leaves, value, limit, n) && Unchanged(h, h', value, n)
    requires k < n && x in LevelAt(h, value, k)
    ensures Unfold(h, x, m) == Unfold(h', x, m)
    decreases m, 0
  {
    NodeKept(h, h', value, k, n, x);
    if m > 0 {
      var kids := Kids(h, x);
      forall i | 0 <= i < |kids| ensures Unfold(h, kids[i], m - 1) == Unfold(h', kids[i], m - 1) {
        KidUnfolds(h, h', leaves, value, limit, n, k, x, kids[i], m - 1);
      }
      UnfoldStep(h, x, h', x, m);
    }
  }

  lemma {:induction false} KidUnfolds(
    h: Heap, h': Heap, leaves: set<LeafTy>, value: Id, limit: nat, n: nat, k: nat, x: Id, c: Id, m: nat)
    requires Evolves(h, h') && Absent !in leaves && PlainTo(h, leaves, value, limit, n) && Unchanged(h, h', value, n)
    requires k < n && x in LevelAt(h, value, k) && c in Kids(h, x)
    ensures Unfold(h, c, m) == Unfold(h', c, m)
    decreases m, 1
  {
    KidBelow(h, h', leaves, value, limit, n, k, x, c);
    if IsSeq(h, c) {
      UnchangedUnfolds(h, h', leaves, value, limit, n, k + 1, c, m);
    } else {
      LeafUnfolds(h, h', c, m);
    }
  }

  lemma NodeKept(h: Heap, h': Heap, value: Id, k: nat, n: nat, x: Id)
    requires Evolves(h, h') && IsSeq(h, value) && Unchanged(h, h', value, n) && k < n && x in LevelAt(h, value, k)
    ensures IsNode(h, x) && IsNode(h', x) && TypeOf(At(h', x)) == TypeOf(At(h, x))
    ensures KeysOf(h', x) == KeysOf(h, x) == [] && Kids(h', x) == Kids(h, x)
  {
    LevelSeq(h, value, k, x);
    assert UntouchedAt(h, h', value, k);
    SameKind(h, h', x);
  }

  lemma LeafUnfolds(h: Heap, h': Heap, c: Id, m: nat)
    requires At(h, c).Leaf? && At(h', c) == At(h, c)
    ensures Unfold(h, c, m) == Unfold(h', c, m)
  {
  }

  lemma SameKind(h: Heap, h': Heap, x: Id)
    requires Evolves(h, h') && IsSeq(h, x)
    ensures TypeOf(At(h', x)) == TypeOf(At(h, x)) && KeysOf(h', x) == KeysOf(h, x) == []
  {
    assert x in h;
  }

  /** A False with no list's length changed: the value is deep-equal to what it was. */
  lemma FalseIsEqual(h: Heap, h': Heap, leaves: set<LeafTy>, value: Id, limit: nat, snap: Snapshot)
    requires Evolves(h, h') && Absent !in leaves && PlainTo(h, leaves, value, limit, |snap|) && Taken(h, value, snap)
    requires SameTo(h', value, snap, |snap|) && SameLengths(h, h', value, |snap|)
    ensures DeepEqual(h, value, h', value)
  {
    AnswerIs(h, h', leaves, value, limit, snap);
    forall m: nat ensures Unfold(h, value, m) == Unfold(h', value, m) {
      UnchangedUnfolds(h, h', leaves, value, limit, |snap|, 0, value, m);
    }
  }

  // ---- Why lengths matter ------------------------------------------------

  lemma TwoLists(h: Heap, a: seq<Id>, b: seq<Id>)
    requires At(h, 0) == List([1, 2]) && At(h, 1) == List(a) && At(h, 2) == List(b) && (forall x <- a + b :: At(h, x).Leaf?)
    ensures LevelAt(h, 0, 0) == [0] && Flat(h, [0]) == [1, 2] && LevelAt(h, 0, 1) == [1, 2] && Flat(h, [1, 2]) == a + b
  {
    assert [0][1..] == [] && [1, 2][1..] == [2] && [2][1..] == [];
    assert Flat(h, [2]) == b + [] == b;
    assert Flat(h, [0]) == [1, 2] + [];
    assert Seqs(h, [2]) == [2];
    assert Seqs(h, [1, 2]) == [1] + [2];
    assert LevelAt(h, 0, 1) == Seqs(h, Flat(h, LevelAt(h, 0, 0)));
  }

  /** `[[1, 2], [3]]`, and the same lists as `[[1], [2, 3]]`. */
  const BEFORE: Heap :=
    map[0 := List([1, 2]), 1 := List([3, 4]), 2 := List([5]), 3 := Leaf(Prim(0), 1), 4 := Leaf(Prim(0), 2), 5 := Leaf(Prim(0), 3)]

  const MOVED: Heap := BEFORE[1 := List([3])][2 := List([4, 5])]

  lemma TwoListsPlain(h: Heap, leaves: set<LeafTy>, a: seq<Id>, b: seq<Id>)
    requires At(h, 0) == List([1, 2]) && At(h, 1) == List(a) && At(h, 2) == List(b)
    requires forall x <- a + b :: IsLeafOf(h, leaves, x) && At(h, x).ty != Bytearray
    ensures PlainTo(h, leaves, 0, MAX_LEVELS, 2)
  {
    TwoLists(h, a, b);
    SeqsNone(h, a + b);
    assert LevelAt(h, 0, 2) == Seqs(h, Flat(h, LevelAt(h, 0, 1)));
    forall k: nat | k < 2 ensures OkAt(h, leaves, 0, k) {
      assert k == 0 || k == 1;
    }
  }

  lemma {:induction false} SeqsNone(h: Heap, flat: seq<Id>)
    requires forall x <- flat :: At(h, x).Leaf?
    ensures Seqs(h, flat) == []
  {
    if flat != [] {
      SeqsNone(h, flat[1..]);
    }
  }

  lemma MovedIn(h: Heap, h': Heap, snap: Snapshot)
    requires At(h, 0) == List([1, 2]) && At(h, 1) == List([3, 4]) && At(h, 2) == List([5])
    requires At(h', 0) == List([1, 2]) && At(h', 1) == List([3]) && At(h', 2) == List([4, 5])
    requires forall x | 3 <= x <= 5 :: At(h, x).Leaf? && At(h', x).Leaf?
    requires |snap| == 2 && Taken(h, 0, snap)
    ensures SameTo(h', 0, snap, 2) && !UntouchedAt(h, h', 0, 1)
  {
    TwoLists(h, [3, 4], [5]);
    TwoLists(h', [3], [4, 5]);
    assert [3, 4] + [5] == [3] + [4, 5];
    assert TakenAt(h, 0, snap, 0) && TakenAt(h, 0, snap, 1);
    forall k: nat | k < 2 ensures SameAt(h', 0, snap, k) {
      assert k == 0 || k == 1;
    }
    assert 1 in LevelAt(h, 0, 1) && |Kids(h, 1)| != |Kids(h', 1)|;
  }

  /** What an object of the two heaps is. */
  lemma MovedHeaps(h: Heap, h': Heap)
    requires h == BEFORE && h' == MOVED
    ensures At(h, 0) == List([1, 2]) && At(h, 1) == List([3, 4]) && At(h, 2) == List([5])
    ensures At(h', 0) == List([1, 2]) && At(h', 1) == List([3]) && At(h', 2) == List([4, 5])
    ensures forall x | 3 <= x <= 5 :: At(h', x) == At(h, x) && IsLeafOf(h, {Prim(0)}, x) && At(h, x).ty != Bytearray
    ensures Evolves(h, h')
  {
  }

  /**
   * A change across the boundary of two lists is not seen: the level holds the same objects in the same
   * order. The value is as plain before as after, and its lengths are what changed.
   */
  lemma MovedBoundary(h: Heap, h': Heap, snap: Snapshot)
    requires h == BEFORE && h' == MOVED && |snap| == 2 && Taken(h, 0, snap)
    ensures Evolves(h, h') && PlainTo(h, {Prim(0)}, 0, MAX_LEVELS, 2) && PlainTo(h', {Prim(0)}, 0, MAX_LEVELS, 2)
    ensures SameTo(h', 0, snap, 2) && !Unchanged(h, h', 0, 2) && !SameLengths(h, h', 0, 2)
  {
    MovedHeaps(h, h');
    TwoListsPlain(h, {Prim(0)}, [3, 4], [5]);
    TwoListsPlain(h', {Prim(0)}, [3], [4, 5]);
    MovedIn(h, h', snap);
    AnswerIs(h, h', {Prim(0)}, 0, MAX_LEVELS, snap);
  }
}
