/**
 * Python objects as a heap of ids, and the level-order walk that
 * `src/cash/_plain_data.py` uses instead of recursion.
 *
 * An object is a leaf (an exact type and a value), a list, a tuple or a dict.
 * Containers hold ids, so one object can be held in several places and lists can
 * form cycles. The walk gives up below `MAX_LEVELS`.
 */
module PlainHeap {
  import opened Options

  type Id = nat

  /** Exact types of what is not a container. `Absent` is the type of an id no object has. */
  datatype LeafTy = Prim(n: nat) | Bytearray | Other(n: nat) | Absent

  datatype Ty = TList | TTuple | TDict | TLeaf(leaf: LeafTy)

  datatype Obj =
    | Leaf(ty: LeafTy, val: int)
    | List(items: seq<Id>)
    | Tuple(items: seq<Id>)
    | Dict(keys: seq<Id>, items: seq<Id>)

  type Heap = map<Id, Obj>

  const MAX_LEVELS: nat := 16

  function At(h: Heap, x: Id): Obj
  {
    if x in h then h[x] else Leaf(Absent, 0)
  }

  function TypeOf(o: Obj): Ty
  {
    match o
    case Leaf(ty, _) => TLeaf(ty)
    case List(_) => TList
    case Tuple(_) => TTuple
    case Dict(_, _) => TDict
  }

  /** What an object holds: a dict holds its values (its keys are apart). */
  function Kids(h: Heap, x: Id): seq<Id>
  {
    var o := At(h, x);
    if o.Leaf? then [] else o.items
  }

  function KeysOf(h: Heap, x: Id): seq<Id>
  {
    var o := At(h, x);
    if o.Dict? then o.keys else []
  }

  predicate IsNode(h: Heap, x: Id)
  {
    !At(h, x).Leaf?
  }

  /** A list or a dict: what can be written into. */
  predicate Writable(h: Heap, x: Id)
  {
    At(h, x).List? || At(h, x).Dict?
  }

  /** The same kind of container, with the same keys, holding other items. */
  function WithItems(o: Obj, items: seq<Id>): Obj
  {
    match o
    case List(_) => List(items)
    case Tuple(_) => Tuple(items)
    case Dict(keys, _) => Dict(keys, items)
    case Leaf(_, _) => o
  }

  /** Everything the containers of a level hold, in order. */
  function Flat(h: Heap, level: seq<Id>): seq<Id>
  {
    if level == [] then [] else Kids(h, level[0]) + Flat(h, level[1..])
  }

  function FlatKeys(h: Heap, level: seq<Id>): seq<Id>
  {
    if level == [] then [] else KeysOf(h, level[0]) + FlatKeys(h, level[1..])
  }

  /** The containers among `flat`, in order. */
  function Nodes(h: Heap, flat: seq<Id>): seq<Id>
  {
    if flat == [] then []
    else if IsNode(h, flat[0]) then [flat[0]] + Nodes(h, flat[1..])
    else Nodes(h, flat[1..])
  }

  lemma {:induction false} NodesAre(h: Heap, flat: seq<Id>, x: Id)
    requires x in Nodes(h, flat)
    ensures x in flat && IsNode(h, x)
  {
    if x != flat[0] || !IsNode(h, flat[0]) {
      NodesAre(h, flat[1..], x);
    }
  }

  predicate IsLeafOf(h: Heap, leaves: set<LeafTy>, x: Id)
  {
    At(h, x).Leaf? && At(h, x).ty in leaves
  }

  /** The level holds nothing but leaves of `leaves` and containers, and its keys are leaves. */
  predicate LevelPlain(h: Heap, leaves: set<LeafTy>, level: seq<Id>)
  {
    && (forall k <- FlatKeys(h, level) :: IsLeafOf(h, leaves, k))
    && (forall x <- Flat(h, level) :: IsLeafOf(h, leaves, x) || IsNode(h, x))
  }

  // ---- The walk ----------------------------------------------------------

  /** Level `k` is what the level above holds. */
  predicate Linked(h: Heap, levels: seq<seq<Id>>, k: nat)
    requires 0 < k < |levels|
  {
    levels[k] == Nodes(h, Flat(h, levels[k - 1]))
  }

  /** A walk so far: levels built one from the other, none of them empty. */
  ghost predicate Partial(h: Heap, value: Id, got: seq<seq<Id>>)
  {
    && |got| > 0 && got[0] == [value] && IsNode(h, value)
    && (forall k: nat | 0 < k < |got| :: Linked(h, got, k))
    && (forall k: nat | 0 < k < |got| :: got[k] != [])
  }

  ghost predicate AllPlain(h: Heap, leaves: set<LeafTy>, levels: seq<seq<Id>>)
  {
    forall k {:trigger LevelPlain(h, leaves, levels[k])} | 0 <= k < |levels| :: LevelPlain(h, leaves, levels[k])
  }

  /** Each level is built from the one above, and the last holds leaves alone. */
  ghost predicate Chain(h: Heap, value: Id, levels: seq<seq<Id>>)
  {
    Partial(h, value, levels) && Nodes(h, Flat(h, levels[|levels| - 1])) == []
  }

  /**
   * The levels `_tree_walk` yields for `value`: each level's containers, from the top down
   * to the level that holds leaves alone, all plain and at most `limit` of them.
   */
  ghost predicate IsWalk(h: Heap, leaves: set<LeafTy>, value: Id, limit: nat, levels: seq<seq<Id>>)
  {
    Chain(h, value, levels) && AllPlain(h, leaves, levels) && |levels| <= limit
  }

  /** JSON-like data over `leaves`: nested no deeper than `limit`, and so without a cycle. */
  ghost predicate Plain(h: Heap, leaves: set<LeafTy>, value: Id, limit: nat)
  {
    exists levels :: IsWalk(h, leaves, value, limit, levels)
  }

  /** The walk of a plain value goes at least as far as any walk so far, through the same levels. */
  lemma {:induction false} WalkForced(h: Heap, value: Id, levels: seq<seq<Id>>, got: seq<seq<Id>>, n: nat)
    requires Chain(h, value, levels) && Partial(h, value, got) && n < |got|
    ensures n < |levels| && got[n] == levels[n]
  {
    if n > 0 {
      WalkForced(h, value, levels, got, n - 1);
      assert Linked(h, got, n);
      if n < |levels| {
        assert Linked(h, levels, n);
      }
    }
  }

  /** A value has one walk. */
  lemma WalkUnique(h: Heap, value: Id, a: seq<seq<Id>>, b: seq<seq<Id>>)
    requires Chain(h, value, a) && Chain(h, value, b)
    ensures a == b
  {
    WalkForced(h, value, a, b, |b| - 1);
    WalkForced(h, value, b, a, |a| - 1);
    forall n | 0 <= n < |a| ensures a[n] == b[n] {
      WalkForced(h, value, a, b, n);
    }
  }

  /** Every level of a plain value's walk so far is plain. */
  lemma PlainSoFar(
    h: Heap, leaves: set<LeafTy>, value: Id, limit: nat, levels: seq<seq<Id>>, got: seq<seq<Id>>, n: nat)
    requires IsWalk(h, leaves, value, limit, levels) && Partial(h, value, got) && n < |got|
    ensures n < limit && LevelPlain(h, leaves, got[n])
  {
    WalkForced(h, value, levels, got, n);
    assert LevelPlain(h, leaves, levels[n]);
  }

  lemma NotPlainHere(h: Heap, leaves: set<LeafTy>, value: Id, limit: nat, got: seq<seq<Id>>)
    requires Partial(h, value, got)
    requires |got| > limit || !LevelPlain(h, leaves, got[|got| - 1])
    ensures !Plain(h, leaves, value, limit)
  {
    if Plain(h, leaves, value, limit) {
      var levels :| IsWalk(h, leaves, value, limit, levels);
      PlainSoFar(h, leaves, value, limit, levels, got, |got| - 1);
      assert false;
    }
  }

  lemma PartialGrows(h: Heap, value: Id, got: seq<seq<Id>>, next: seq<Id>)
    requires Partial(h, value, got)
    requires next == Nodes(h, Flat(h, got[|got| - 1])) && next != []
    ensures Partial(h, value, got + [next])
  {
    var more := got + [next];
    forall k: nat | 0 < k < |more| ensures Linked(h, more, k) {
      if k < |got| {
        assert Linked(h, got, k);
      }
    }
  }

  lemma PlainGrows(h: Heap, leaves: set<LeafTy>, got: seq<seq<Id>>, level: seq<Id>)
    requires AllPlain(h, leaves, got) && LevelPlain(h, leaves, level)
    ensures AllPlain(h, leaves, got + [level])
  {
    var more := got + [level];
    forall k | 0 <= k < |more| ensures LevelPlain(h, leaves, more[k]) {
      assert k < |got| ==> LevelPlain(h, leaves, got[k]);
    }
  }

  /** `_tree_walk` run to its end: the levels, or None for anything that is not plain. */
  method TreeWalk(h: Heap, leaves: set<LeafTy>, value: Id, limit: nat) returns (r: Option<seq<seq<Id>>>)
    requires IsNode(h, value)
    ensures r.Some? ==> IsWalk(h, leaves, value, limit, r.value)
    ensures r.None? ==> !Plain(h, leaves, value, limit)
  {
    var level: seq<Id>, above: seq<seq<Id>> := [value], [];
    assert above + [level] == [[value]];
    for n := 0 to limit
      invariant Partial(h, value, above + [level]) && |above| == n
      invariant AllPlain(h, leaves, above)
    {
      if !LevelPlain(h, leaves, level) {
        NotPlainHere(h, leaves, value, limit, above + [level]);
        return None;
      }
      PlainGrows(h, leaves, above, level);
      above := above + [level];
      var next := Nodes(h, Flat(h, level));
      if next == [] {
        return Some(above);
      }
      PartialGrows(h, value, above, next);
      level := next;
    }
    NotPlainHere(h, leaves, value, limit, above + [level]);
    return None;
  }

  // ---- Deep equality and reachability ------------------------------------

  /** A value as far down as `n` steps. */
  datatype Tree = Cut | Val(ty: LeafTy, val: int) | Branch(kind: Ty, keys: seq<Tree>, kids: seq<Tree>)

  ghost function Unfold(h: Heap, x: Id, n: nat): Tree
    decreases n
  {
    if At(h, x).Leaf? then Val(At(h, x).ty, At(h, x).val)
    else if n == 0 then Cut
    else
      var keys, kids := KeysOf(h, x), Kids(h, x);
      Branch(TypeOf(At(h, x)),
             seq(|keys|, i requires 0 <= i < |keys| => Unfold(h, keys[i], n - 1)),
             seq(|kids|, i requires 0 <= i < |kids| => Unfold(h, kids[i], n - 1)))
  }

  /** `x` of `h` and `y` of `h'` hold the same values to every depth. */
  ghost predicate DeepEqual(h: Heap, x: Id, h': Heap, y: Id)
  {
    forall n: nat :: Unfold(h, x, n) == Unfold(h', y, n)
  }

  /** Equal types, keys and items one step down are an equal value. */
  lemma UnfoldStep(h: Heap, x: Id, h': Heap, y: Id, n: nat)
    requires n > 0 && TypeOf(At(h, x)) == TypeOf(At(h', y)) && IsNode(h, x)
    requires |KeysOf(h, x)| == |KeysOf(h', y)| && |Kids(h, x)| == |Kids(h', y)|
    requires forall i | 0 <= i < |KeysOf(h, x)| :: Unfold(h, KeysOf(h, x)[i], n - 1) == Unfold(h', KeysOf(h', y)[i], n - 1)
    requires forall i | 0 <= i < |Kids(h, x)| :: Unfold(h, Kids(h, x)[i], n - 1) == Unfold(h', Kids(h', y)[i], n - 1)
    ensures Unfold(h, x, n) == Unfold(h', y, n)
  {
  }

  /** The containers met `n` steps below a level, once per place. */
  ghost function NodesAt(h: Heap, level: seq<Id>, n: nat): seq<Id>
  {
    if n == 0 then level else Nodes(h, Flat(h, NodesAt(h, level, n - 1)))
  }

  /** The container `y` is reached from `x`, itself included. */
  ghost predicate Reaches(h: Heap, x: Id, y: Id)
  {
    exists n: nat :: y in NodesAt(h, [x], n)
  }

  /** The levels of a walk are what is reachable, step by step. */
  lemma {:induction false} ChainReach(h: Heap, value: Id, levels: seq<seq<Id>>, n: nat)
    requires Chain(h, value, levels)
    ensures NodesAt(h, [value], n) == if n < |levels| then levels[n] else []
  {
    if n > 0 {
      ChainReach(h, value, levels, n - 1);
      if n < |levels| {
        assert Linked(h, levels, n);
      }
    }
  }

  lemma ReachedIsWalked(h: Heap, value: Id, levels: seq<seq<Id>>, y: Id) returns (k: nat)
    requires Chain(h, value, levels) && Reaches(h, value, y)
    ensures k < |levels| && y in levels[k]
  {
    k :| y in NodesAt(h, [value], k);
    ChainReach(h, value, levels, k);
  }

  // ---- Facts about levels ------------------------------------------------

  lemma {:induction false} FlatAppend(h: Heap, a: seq<Id>, b: seq<Id>)
    ensures Flat(h, a + b) == Flat(h, a) + Flat(h, b)
  {
    if a == [] {
      assert a + b == b;
    } else {
      assert (a + b)[1..] == a[1..] + b;
      FlatAppend(h, a[1..], b);
      assert Flat(h, a + b) == Kids(h, a[0]) + (Flat(h, a[1..]) + Flat(h, b));
    }
  }

  lemma {:induction false} NodesAppend(h: Heap, a: seq<Id>, b: seq<Id>)
    ensures Nodes(h, a + b) == Nodes(h, a) + Nodes(h, b)
  {
    if a == [] {
      assert a + b == b;
    } else {
      assert (a + b)[1..] == a[1..] + b;
      NodesAppend(h, a[1..], b);
    }
  }

  lemma {:induction false} FlatHas(h: Heap, level: seq<Id>, x: Id, c: Id)
    requires x in level && c in Kids(h, x)
    ensures c in Flat(h, level)
  {
    if x != level[0] {
      assert x in level[1..];
      FlatHas(h, level[1..], x, c);
    }
  }

  lemma {:induction false} FlatFrom(h: Heap, level: seq<Id>, c: Id) returns (x: Id)
    requires c in Flat(h, level)
    ensures x in level && c in Kids(h, x)
  {
    if c in Kids(h, level[0]) {
      x := level[0];
    } else {
      x := FlatFrom(h, level[1..], c);
    }
  }

  lemma {:induction false} FlatKeysHas(h: Heap, level: seq<Id>, x: Id, c: Id)
    requires x in level && c in KeysOf(h, x)
    ensures c in FlatKeys(h, level)
  {
    if x != level[0] {
      assert x in level[1..];
      FlatKeysHas(h, level[1..], x, c);
    }
  }

  lemma {:induction false} NodesHas(h: Heap, flat: seq<Id>, x: Id)
    requires x in flat && IsNode(h, x)
    ensures x in Nodes(h, flat)
  {
    if x != flat[0] {
      assert x in flat[1..];
      NodesHas(h, flat[1..], x);
    }
  }

  lemma ChainNode(h: Heap, value: Id, levels: seq<seq<Id>>, k: nat, x: Id)
    requires Partial(h, value, levels) && k < |levels| && x in levels[k]
    ensures IsNode(h, x)
  {
    if k > 0 {
      assert Linked(h, levels, k);
      NodesAre(h, Flat(h, levels[k - 1]), x);
    }
  }

  /** What a container of level `j` holds is a leaf or is met at level `j + 1`. */
  lemma HeldBelow(h: Heap, value: Id, levels: seq<seq<Id>>, j: nat, x: Id, c: Id)
    requires Chain(h, value, levels) && j < |levels| && x in levels[j] && c in Kids(h, x)
    ensures IsNode(h, c) ==> j + 1 < |levels| && c in levels[j + 1]
  {
    FlatHas(h, levels[j], x, c);
    if IsNode(h, c) {
      NodesHas(h, Flat(h, levels[j]), c);
      if j + 1 < |levels| {
        assert Linked(h, levels, j + 1);
      }
    }
  }
}
