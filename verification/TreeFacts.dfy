/**
 * `_tree_facts` of `src/cash/_plain_data.py` (lines 681-763): the types, the footprint and the number
 * of containers of a tree, totalled level by level, with parts walked before taken whole.
 *
 * Sizes are exact: no level is big enough to be sampled.
 */
module TreeFacts {
  import opened Options
  import opened PlainHeap
  import opened Holders

  // ---- Totals ------------------------------------------------------------

  datatype Totals = Totals(types: set<Ty>, size: nat, nodes: nat)

  const ZERO := Totals({}, 0, 0)

  function Add(a: Totals, b: Totals): Totals
  {
    Totals(a.types + b.types, Plus(a.size, b.size), Plus(a.nodes, b.nodes))
  }

  function Plus(a: nat, b: nat): nat
  {
    a + b
  }

  /** Totals of two parts, when both have any. */
  function Both(a: Option<Totals>, b: Option<Totals>): Option<Totals>
  {
    if a.None? || b.None? then None else Some(Add(a.value, b.value))
  }

  lemma BothSwap(a: Option<Totals>, b: Option<Totals>)
    ensures Both(a, b) == Both(b, a)
  {
    if a.Some? && b.Some? {
      assert a.value.types + b.value.types == b.value.types + a.value.types;
    }
  }

  lemma BothAssoc(a: Option<Totals>, b: Option<Totals>, c: Option<Totals>)
    ensures Both(Both(a, b), c) == Both(a, Both(b, c))
  {
    if a.Some? && b.Some? && c.Some? {
      assert (a.value.types + b.value.types) + c.value.types == a.value.types + (b.value.types + c.value.types);
    }
  }

  lemma BothZero(a: Option<Totals>)
    ensures Both(a, Some(ZERO)) == a && Both(Some(ZERO), a) == a
  {
    if a.Some? {
      assert a.value.types + {} == a.value.types && {} + a.value.types == a.value.types;
    }
  }

  /** Two pairs of parts, regrouped. */
  lemma BothCross(a: Option<Totals>, b: Option<Totals>, c: Option<Totals>, d: Option<Totals>)
    ensures Both(Both(a, b), Both(c, d)) == Both(Both(a, c), Both(b, d))
  {
    BothAssoc(a, b, Both(c, d));
    BothAssoc(b, c, d);
    BothSwap(b, c);
    BothAssoc(c, b, d);
    BothAssoc(a, c, Both(b, d));
  }

  /** The types and sizes of some objects. */
  function Listed(h: Heap, size: Id -> nat, s: seq<Id>): Totals
  {
    if s == [] then ZERO else Add(Totals({TypeOf(At(h, s[0]))}, size(s[0]), 0), Listed(h, size, s[1..]))
  }

  lemma AddAssoc(a: Totals, b: Totals, c: Totals)
    ensures Add(Add(a, b), c) == Add(a, Add(b, c)) && Add(ZERO, a) == a
  {
    assert (a.types + b.types) + c.types == a.types + (b.types + c.types);
    assert {} + a.types == a.types;
  }

  lemma {:induction false} ListedAppend(h: Heap, size: Id -> nat, a: seq<Id>, b: seq<Id>)
    ensures Listed(h, size, a + b) == Add(Listed(h, size, a), Listed(h, size, b))
  {
    if a == [] {
      assert a + b == b;
      AddAssoc(Listed(h, size, b), ZERO, ZERO);
    } else {
      assert (a + b)[1..] == a[1..] + b;
      ListedAppend(h, size, a[1..], b);
      AddAssoc(Totals({TypeOf(At(h, a[0]))}, size(a[0]), 0), Listed(h, size, a[1..]), Listed(h, size, b));
    }
  }

  /** What containers add: their keys, what they hold, and themselves as nodes. */
  function OwnOf(keys: Totals, items: Totals, nodes: nat): Totals
  {
    Add(Add(keys, items), Totals({}, 0, nodes))
  }

  lemma OwnJoin(ka: Totals, kb: Totals, fa: Totals, fb: Totals, na: nat, nb: nat)
    ensures OwnOf(Add(ka, kb), Add(fa, fb), na + nb) == Add(OwnOf(ka, fa, na), OwnOf(kb, fb, nb))
  {
    assert ((ka.types + kb.types) + (fa.types + fb.types)) + {} == ((ka.types + fa.types) + {}) + ((kb.types + fb.types) + {});
  }

  // ---- The recursive totals ----------------------------------------------

  /** What the context of a walk fixes. */
  datatype Scene = Scene(h: Heap, leaves: set<LeafTy>, size: Id -> nat)

  /** Totals of everything below a container nested at most so deep. */
  type Recursion = (Id, nat) -> Option<Totals>

  /** The totals of some containers, one after the other. */
  ghost function Sum(below: Recursion, level: seq<Id>, depth: nat): Option<Totals>
  {
    if level == [] then Some(ZERO) else Both(below(level[0], depth), Sum(below, level[1..], depth))
  }

  /** Keys that are leaves, and items that are leaves or containers. */
  predicate PlainLists(s: Scene, keys: seq<Id>, flat: seq<Id>)
  {
    && (forall k <- keys :: IsLeafOf(s.h, s.leaves, k))
    && (forall x <- flat :: IsLeafOf(s.h, s.leaves, x) || IsNode(s.h, x))
  }

  /** What containers and all below them add, from the lists of their keys and of their items. */
  ghost function FromLists(s: Scene, below: Recursion, keys: seq<Id>, flat: seq<Id>, nodes: nat, depth: nat): Option<Totals>
  {
    if depth == 0 || !PlainLists(s, keys, flat) then None
    else Both(Some(OwnOf(Listed(s.h, s.size, keys), Listed(s.h, s.size, flat), nodes)), Sum(below, Nodes(s.h, flat), depth - 1))
  }

  /** The recursion at one container: its own keys and items, and the totals of the containers among them. */
  ghost predicate Unfolds(s: Scene, below: Recursion, x: Id, depth: nat)
  {
    below(x, depth) == FromLists(s, below, KeysOf(s.h, x), Kids(s.h, x), 1, depth)
  }

  /** `below` is the recursive total. */
  ghost predicate IsRecursive(s: Scene, below: Recursion)
  {
    forall x: Id, depth: nat {:trigger Unfolds(s, below, x, depth)} :: Unfolds(s, below, x, depth)
  }

  lemma {:induction false} SumAppend(below: Recursion, a: seq<Id>, b: seq<Id>, depth: nat)
    ensures Sum(below, a + b, depth) == Both(Sum(below, a, depth), Sum(below, b, depth))
    decreases |a|
  {
    if a == [] {
      assert a + b == b;
      BothZero(Sum(below, b, depth));
    } else {
      assert (a + b)[1..] == a[1..] + b;
      SumAppend(below, a[1..], b, depth);
      BothAssoc(below(a[0], depth), Sum(below, a[1..], depth), Sum(below, b, depth));
    }
  }

  lemma PlainJoin(s: Scene, ka: seq<Id>, kb: seq<Id>, fa: seq<Id>, fb: seq<Id>)
    ensures PlainLists(s, ka + kb, fa + fb) <==> PlainLists(s, ka, fa) && PlainLists(s, kb, fb)
  {
    assert forall x: Id :: x in ka + kb <==> x in ka || x in kb;
    assert forall x: Id :: x in fa + fb <==> x in fa || x in fb;
  }

  lemma FromListsJoin(
    s: Scene, below: Recursion, ka: seq<Id>, kb: seq<Id>, fa: seq<Id>, fb: seq<Id>, na: nat, nb: nat, depth: nat)
    ensures FromLists(s, below, ka + kb, fa + fb, na + nb, depth)
         == Both(FromLists(s, below, ka, fa, na, depth), FromLists(s, below, kb, fb, nb, depth))
  {
    PlainJoin(s, ka, kb, fa, fb);
    if depth > 0 {
      ListedAppend(s.h, s.size, ka, kb);
      ListedAppend(s.h, s.size, fa, fb);
      NodesAppend(s.h, fa, fb);
      SumAppend(below, Nodes(s.h, fa), Nodes(s.h, fb), depth - 1);
      TotalsJoin(Listed(s.h, s.size, ka), Listed(s.h, s.size, kb), Listed(s.h, s.size, fa), Listed(s.h, s.size, fb), na, nb,
                 Sum(below, Nodes(s.h, fa), depth - 1), Sum(below, Nodes(s.h, fb), depth - 1));
    }
  }

  lemma TotalsJoin(ka: Totals, kb: Totals, fa: Totals, fb: Totals, na: nat, nb: nat, sa: Option<Totals>, sb: Option<Totals>)
    ensures Both(Some(OwnOf(Add(ka, kb), Add(fa, fb), na + nb)), Both(sa, sb))
         == Both(Both(Some(OwnOf(ka, fa, na)), sa), Both(Some(OwnOf(kb, fb, nb)), sb))
  {
    OwnJoin(ka, kb, fa, fb, na, nb);
    BothCross(Some(OwnOf(ka, fa, na)), Some(OwnOf(kb, fb, nb)), sa, sb);
  }

  lemma FromListsEmpty(s: Scene, below: Recursion, keys: seq<Id>, flat: seq<Id>, depth: nat)
    requires depth > 0 && |keys| == 0 && |flat| == 0
    ensures FromLists(s, below, keys, flat, 0, depth) == Some(ZERO)
  {
    assert Listed(s.h, s.size, keys) == ZERO && Listed(s.h, s.size, flat) == ZERO;
    OwnNone();
    var nodes := Nodes(s.h, flat);
    assert |nodes| == 0;
    assert Sum(below, nodes, depth - 1) == Some(ZERO);
    BothZero(Some(ZERO));
  }

  lemma OwnNone()
    ensures OwnOf(ZERO, ZERO, 0) == ZERO
  {
  }

  /** What a level and all below it add, when the level is taken at once. */
  ghost function LevelFirst(s: Scene, below: Recursion, level: seq<Id>, depth: nat): Option<Totals>
  {
    FromLists(s, below, FlatKeys(s.h, level), Flat(s.h, level), |level|, depth)
  }

  /** Level order and recursion total the same. */
  lemma {:induction false} LevelOrderIsRecursive(s: Scene, below: Recursion, level: seq<Id>, depth: nat)
    requires IsRecursive(s, below) && depth > 0
    ensures Sum(below, level, depth) == LevelFirst(s, below, level, depth)
  {
    if level == [] {
      FromListsEmpty(s, below, FlatKeys(s.h, level), Flat(s.h, level), depth);
    } else {
      LevelOrderIsRecursive(s, below, level[1..], depth);
      assert Unfolds(s, below, level[0], depth);
      LevelFirstStep(s, below, level, depth);
    }
  }

  lemma LevelFirstStep(s: Scene, below: Recursion, level: seq<Id>, depth: nat)
    requires level != []
    ensures LevelFirst(s, below, level, depth)
         == Both(FromLists(s, below, KeysOf(s.h, level[0]), Kids(s.h, level[0]), 1, depth), LevelFirst(s, below, level[1..], depth))
  {
    var x, rest := level[0], level[1..];
    FromListsJoin(s, below, KeysOf(s.h, x), FlatKeys(s.h, rest), Kids(s.h, x), Flat(s.h, rest), 1, |rest|, depth);
  }

  /** A deeper allowance changes nothing for what fits. */
  lemma {:induction false} DeeperSame(s: Scene, below: Recursion, level: seq<Id>, depth: nat)
    requires IsRecursive(s, below) && Sum(below, level, depth).Some?
    ensures Sum(below, level, depth + 1) == Sum(below, level, depth)
    decreases depth, |level|
  {
    if level != [] {
      var x := level[0];
      DeeperSame(s, below, level[1..], depth);
      assert Unfolds(s, below, x, depth) && Unfolds(s, below, x, depth + 1);
      DeeperSame(s, below, Nodes(s.h, Kids(s.h, x)), depth - 1);
    }
  }

  lemma {:induction false} DeeperStill(s: Scene, below: Recursion, level: seq<Id>, depth: nat, more: nat)
    requires IsRecursive(s, below) && Sum(below, level, depth).Some? && depth <= more
    ensures Sum(below, level, more) == Sum(below, level, depth)
    decreases more
  {
    if depth < more {
      DeeperStill(s, below, level, depth, more - 1);
      DeeperSame(s, below, level, more - 1);
    }
  }

  /** The recursive total itself. */
  ghost function Below(s: Scene, x: Id, depth: nat): Option<Totals>
    decreases depth, 0
  {
    if depth == 0 || !PlainLists(s, KeysOf(s.h, x), Kids(s.h, x)) then None
    else
      Both(Some(OwnOf(Listed(s.h, s.size, KeysOf(s.h, x)), Listed(s.h, s.size, Kids(s.h, x)), 1)),
           Forest(s, Nodes(s.h, Kids(s.h, x)), depth - 1))
  }

  ghost function Forest(s: Scene, level: seq<Id>, depth: nat): Option<Totals>
    decreases depth, |level| + 1
  {
    if level == [] then Some(ZERO) else Both(Below(s, level[0], depth), Forest(s, level[1..], depth))
  }

  lemma {:induction false} SumIsForest(s: Scene, below: Recursion, level: seq<Id>, depth: nat)
    requires forall x: Id, d: nat :: below(x, d) == Below(s, x, d)
    ensures Sum(below, level, depth) == Forest(s, level, depth)
    decreases |level|
  {
    if level != [] {
      SumIsForest(s, below, level[1..], depth);
    }
  }

  lemma BelowIsRecursive(s: Scene, below: Recursion)
    requires forall x: Id, d: nat :: below(x, d) == Below(s, x, d)
    ensures IsRecursive(s, below)
  {
    forall x: Id, depth: nat ensures Unfolds(s, below, x, depth) {
      if depth > 0 {
        SumIsForest(s, below, Nodes(s.h, Kids(s.h, x)), depth - 1);
      }
    }
  }

  // ---- Parts taken whole -------------------------------------------------

  datatype Facts = Facts(types: set<Ty>, heldOnce: bool, size: nat, nodes: nat)

  /** The facts of a container are its own type and size, and the totals below it. */
  predicate IsFacts(s: Scene, x: Id, t: Totals, f: Facts)
  {
    f.types == {TypeOf(At(s.h, x))} + t.types && f.size == s.size(x) + t.size && f.nodes == t.nodes
  }

  /** What is remembered is right: the recursive facts, or that the part is no tree. */
  ghost predicate Remembered(s: Scene, below: Recursion, limit: nat, x: Id, known: Option<Facts>)
  {
    if known.None? then below(x, limit).None?
    else below(x, limit).Some? && IsFacts(s, x, below(x, limit).value, known.value)
  }

  ghost predicate KnownOk(s: Scene, below: Recursion, limit: nat, known: map<Id, Option<Facts>>)
  {
    forall x <- known :: Remembered(s, below, limit, x, known[x])
  }

  /** What is totalled so far and what is still to come make the same whole. */
  ghost predicate Balanced(below: Recursion, depth: nat, acc: Totals, level: seq<Id>, whole: Option<Totals>)
  {
    Both(Some(acc), Sum(below, level, depth)) == whole
  }

  /** Where the remembered totals of a part are those of the walk: deep enough, or the part fits. */
  ghost predicate Reached(below: Recursion, limit: nat, depth: nat, x: Id)
  {
    depth >= limit || below(x, depth).Some?
  }

  lemma SumOne(below: Recursion, x: Id, depth: nat)
    ensures Sum(below, [x], depth) == below(x, depth)
  {
    assert [x][1..] == [];
    BothZero(below(x, depth));
  }

  lemma ReachedSame(s: Scene, below: Recursion, limit: nat, depth: nat, x: Id)
    requires IsRecursive(s, below) && below(x, limit).Some? && Reached(below, limit, depth, x)
    ensures below(x, depth) == below(x, limit)
  {
    SumOne(below, x, depth);
    SumOne(below, x, limit);
    if depth >= limit {
      DeeperStill(s, below, [x], limit, depth);
    } else {
      DeeperStill(s, below, [x], depth, limit);
    }
  }

  /** `acc` with one part's facts taken: its own size was counted as an item above. */
  function Take(s: Scene, acc: Totals, x: Id, f: Facts): Totals
  {
    Totals(acc.types + f.types, if acc.size + f.size >= s.size(x) then acc.size + f.size - s.size(x) else 0, acc.nodes + f.nodes)
  }

  lemma TakeIs(s: Scene, acc: Totals, x: Id, f: Facts, t: Totals)
    requires IsFacts(s, x, t, f) && TypeOf(At(s.h, x)) in acc.types
    ensures Take(s, acc, x, f) == Add(acc, t)
  {
    assert acc.types + ({TypeOf(At(s.h, x))} + t.types) == acc.types + t.types;
  }

  lemma BothMove(a: Totals, t: Totals, r: Option<Totals>, rest: Option<Totals>)
    ensures Both(Some(Add(a, t)), Both(r, rest)) == Both(Some(a), Both(r, Both(Some(t), rest)))
  {
    BothAssoc(Some(a), Some(t), Both(r, rest));
    BothAssoc(Some(t), r, rest);
    BothSwap(Some(t), r);
    BothAssoc(r, Some(t), rest);
  }

  /** A part leaves the level and its totals join what is totalled. */
  lemma TakeBalances(
    below: Recursion, depth: nat, acc: Totals, rest: seq<Id>, x: Id, tail: seq<Id>, t: Totals, whole: Option<Totals>)
    requires below(x, depth) == Some(t) && Balanced(below, depth, acc, rest + ([x] + tail), whole)
    ensures Balanced(below, depth, Add(acc, t), rest + tail, whole)
  {
    SumAppend(below, rest, [x] + tail, depth);
    SumAppend(below, [x], tail, depth);
    SumOne(below, x, depth);
    SumAppend(below, rest, tail, depth);
    BothMove(acc, t, Sum(below, rest, depth), Sum(below, tail, depth));
  }

  lemma {:induction false} SumHas(below: Recursion, level: seq<Id>, depth: nat, x: Id)
    requires x in level && Sum(below, level, depth).Some?
    ensures below(x, depth).Some?
  {
    if x != level[0] {
      SumHas(below, level[1..], depth, x);
    }
  }

  /** Every part of the level, at this depth, is as remembered. */
  ghost predicate AllReached(below: Recursion, limit: nat, depth: nat, level: seq<Id>)
  {
    forall x <- level :: Reached(below, limit, depth, x)
  }

  /** Whatever balances with the whole level balances with what is taken and what is left. */
  ghost predicate Keeps(below: Recursion, limit: nat, acc: Totals, level: seq<Id>, got: Totals, rest: seq<Id>)
  {
    forall depth: nat, whole: Option<Totals> {:trigger Balanced(below, depth, got, rest, whole)}
      {:trigger Balanced(below, depth, acc, level, whole)} |
      AllReached(below, limit, depth, level) && Balanced(below, depth, acc, level, whole) ::
      Balanced(below, depth, got, rest, whole)
  }

  lemma KeepsTake(
    s: Scene, below: Recursion, limit: nat, acc: Totals, level: seq<Id>, got: Totals, rest: seq<Id>, x: Id, tail: seq<Id>, t: Totals)
    requires IsRecursive(s, below) && x in level && below(x, limit) == Some(t)
    requires Keeps(below, limit, acc, level, got, rest + ([x] + tail))
    ensures Keeps(below, limit, acc, level, Add(got, t), rest + tail)
  {
    forall depth: nat, whole: Option<Totals> |
      AllReached(below, limit, depth, level) && Balanced(below, depth, acc, level, whole)
      ensures Balanced(below, depth, Add(got, t), rest + tail, whole)
    {
      assert Reached(below, limit, depth, x);
      ReachedSame(s, below, limit, depth, x);
      TakeBalances(below, depth, got, rest, x, tail, t, whole);
    }
  }

  lemma JoinEnds(level: seq<Id>)
    ensures [] + level[0..] == level && level[..0] == [] && level[..|level|] == level
  {
  }

  lemma JoinLast(level: seq<Id>, rest: seq<Id>)
    ensures rest + level[|level|..] == rest
  {
  }

  lemma JoinStep(level: seq<Id>, i: nat, rest: seq<Id>)
    requires i < |level|
    ensures rest + level[i..] == rest + ([level[i]] + level[i + 1..])
    ensures rest + level[i..] == (rest + [level[i]]) + level[i + 1..]
    ensures level[..i + 1] == level[..i] + [level[i]]
  {
  }

  /**
   * The parts of a level that are known are taken whole, the rest is left to walk. None when a part
   * is known to be no tree.
   */
  method Splice(
    s: Scene, ghost below: Recursion, limit: nat, known: map<Id, Option<Facts>>, level: seq<Id>, acc: Totals)
    returns (r: Option<Totals>, rest: seq<Id>)
    requires IsRecursive(s, below) && KnownOk(s, below, limit, known)
    requires forall x <- level :: TypeOf(At(s.h, x)) in acc.types
    ensures r.Some? ==> Keeps(below, limit, acc, level, r.value, rest)
    ensures r.Some? ==> (forall x <- rest :: x in level) && acc.types <= r.value.types
    ensures r.None? ==> exists x <- level :: below(x, limit).None?
    ensures known == map[] ==> r == Some(acc) && rest == level
    ensures r.Some? ==> |rest| <= |level| && (|rest| == |level| ==> rest == level && r.value == acc)
  {
    var got := acc;
    rest := [];
    JoinEnds(level);
    for i := 0 to |level|
      invariant Keeps(below, limit, acc, level, got, rest + level[i..])
      invariant (forall x <- rest :: x in level) && acc.types <= got.types
      invariant known == map[] ==> got == acc && rest == level[..i]
      invariant |rest| <= i && (|rest| == i ==> rest == level[..i] && got == acc)
    {
      var x, tail := level[i], level[i + 1..];
      JoinStep(level, i, rest);
      if x !in known {
        rest := rest + [x];
      } else {
        assert Remembered(s, below, limit, x, known[x]);
        if known[x].None? {
          return None, rest;
        }
        var f := known[x].value;
        ghost var t := below(x, limit).value;
        TakeIs(s, got, x, f, t);
        KeepsTake(s, below, limit, acc, level, got, rest, x, tail, t);
        got := Take(s, got, x, f);
      }
    }
    JoinLast(level, rest);
    r := Some(got);
  }

  // ---- The walk ----------------------------------------------------------

  const SPLICE_MAX: nat := 64

  lemma BothInto(acc: Totals, own: Totals, x: Option<Totals>)
    ensures Both(Some(acc), Both(Some(own), x)) == Both(Some(Add(acc, own)), x)
  {
    BothAssoc(Some(acc), Some(own), x);
  }

  lemma NotPlainLevel(s: Scene, below: Recursion, depth: nat, level: seq<Id>)
    requires IsRecursive(s, below) && level != []
    requires depth == 0 || !PlainLists(s, FlatKeys(s.h, level), Flat(s.h, level))
    ensures Sum(below, level, depth).None?
  {
    if depth > 0 {
      LevelOrderIsRecursive(s, below, level, depth);
    } else {
      assert Unfolds(s, below, level[0], 0);
    }
  }

  lemma {:induction false} ListedTypes(h: Heap, size: Id -> nat, flat: seq<Id>, x: Id)
    requires x in flat
    ensures TypeOf(At(h, x)) in Listed(h, size, flat).types
  {
    if x != flat[0] {
      ListedTypes(h, size, flat[1..], x);
    }
  }

  lemma NodesTyped(s: Scene, acc: Totals, keys: Totals, flat: seq<Id>, n: nat)
    ensures forall x <- Nodes(s.h, flat) :: TypeOf(At(s.h, x)) in Add(acc, OwnOf(keys, Listed(s.h, s.size, flat), n)).types
  {
    forall x <- Nodes(s.h, flat) ensures TypeOf(At(s.h, x)) in Add(acc, OwnOf(keys, Listed(s.h, s.size, flat), n)).types {
      NodesAre(s.h, flat, x);
      ListedTypes(s.h, s.size, flat, x);
    }
  }

  ghost predicate HeldTo(h: Heap, value: Id, over: (nat, Id) -> bool, n: nat)
  {
    forall k: nat {:trigger HeldAt(h, value, over, k)} | k < n :: HeldAt(h, value, over, k)
  }

  lemma HeldWhole(h: Heap, value: Id, over: (nat, Id) -> bool, n: nat)
    requires HeldTo(h, value, over, n) && Ends(h, value, n + 1)
    ensures HeldOnce(h, value, over)
  {
    forall k: nat ensures HeldAt(h, value, over, k) {
      if k >= n {
        NothingBelow(h, value, n + 1, k + 1);
      }
    }
  }

  lemma HeldMore(h: Heap, value: Id, over: (nat, Id) -> bool, n: nat, next: seq<Id>)
    requires HeldTo(h, value, over, n) && next == NodesAt(h, [value], n + 1) && forall x <- next :: !over(n, x)
    ensures HeldTo(h, value, over, n + 1)
  {
    assert HeldAt(h, value, over, n);
  }

  /** `held_once` is True only on the full walk's levels, and there it is what their counts say. */
  ghost predicate HeldSoFar(
    h: Heap, full: bool, value: Id, over: (nat, Id) -> bool, depth: nat, level: seq<Id>, heldOnce: bool)
  {
    && (heldOnce ==> level == NodesAt(h, [value], depth) && HeldTo(h, value, over, depth))
    && (full ==> level == NodesAt(h, [value], depth) && (!heldOnce ==> !HeldOnce(h, value, over)))
  }

  lemma HeldStep(
    h: Heap, full: bool, value: Id, over: (nat, Id) -> bool, depth: nat, level: seq<Id>, heldOnce: bool, next: seq<Id>, held: bool)
    requires HeldSoFar(h, full, value, over, depth, level, heldOnce) && next == Nodes(h, Flat(h, level))
    requires held == (heldOnce && forall x <- next :: !over(depth, x))
    ensures HeldSoFar(h, full, value, over, depth + 1, next, held)
  {
    if held {
      HeldMore(h, value, over, depth, next);
    } else if full && heldOnce {
      assert next == NodesAt(h, [value], depth + 1);
      assert !HeldAt(h, value, over, depth);
    }
  }

  /** The balance with twice the depth to spare, and with the full walk's when that is what counts. */
  ghost predicate BalancedBoth(
    s: Scene, below: Recursion, limit: nat, exact: bool, value: Id, depth: nat, acc: Totals, level: seq<Id>)
    requires depth <= limit
  {
    && BalancedAt(s, below, 2 * limit, value, depth, acc, level)
    && (exact ==> BalancedAt(s, below, limit, value, depth, acc, level))
  }

  /** What a level and all below it add is what the level adds by itself, and what the next one does. */
  ghost predicate Adds(below: Recursion, level: seq<Id>, own: Totals, next: seq<Id>, depth: nat)
    requires depth > 0
  {
    Sum(below, level, depth) == Both(Some(own), Sum(below, next, depth - 1))
  }

  /** What a plain level adds by itself. */
  ghost predicate IsOwn(s: Scene, level: seq<Id>, own: Totals)
  {
    && PlainLists(s, FlatKeys(s.h, level), Flat(s.h, level))
    && own == OwnOf(Listed(s.h, s.size, FlatKeys(s.h, level)), Listed(s.h, s.size, Flat(s.h, level)), |level|)
  }

  lemma LevelAdds(s: Scene, below: Recursion, level: seq<Id>, own: Totals, depth: nat)
    requires IsRecursive(s, below) && depth > 0 && IsOwn(s, level, own)
    ensures Adds(below, level, own, Nodes(s.h, Flat(s.h, level)), depth)
  {
    LevelOrderIsRecursive(s, below, level, depth);
  }

  lemma LevelBalances(
    s: Scene, below: Recursion, limit: nat, exact: bool, value: Id, depth: nat, acc: Totals, level: seq<Id>,
    own: Totals, next: seq<Id>, more: Totals)
    requires IsRecursive(s, below) && IsOwn(s, level, own) && next == Nodes(s.h, Flat(s.h, level)) && more == Add(acc, own)
    requires depth < limit && BalancedBoth(s, below, limit, exact, value, depth, acc, level)
    ensures BalancedBoth(s, below, limit, exact, value, depth + 1, more, next)
  {
    LevelAdds(s, below, level, own, 2 * limit - depth);
    LevelAdds(s, below, level, own, limit - depth);
    BalancedStep(s, below, limit, exact, value, depth, acc, level, own, next, more);
  }

  lemma BalancedStep(
    s: Scene, below: Recursion, limit: nat, exact: bool, value: Id, depth: nat, acc: Totals, level: seq<Id>,
    own: Totals, next: seq<Id>, more: Totals)
    requires depth < limit && BalancedBoth(s, below, limit, exact, value, depth, acc, level) && more == Add(acc, own)
    requires Adds(below, level, own, next, 2 * limit - depth) && Adds(below, level, own, next, limit - depth)
    ensures BalancedBoth(s, below, limit, exact, value, depth + 1, more, next)
  {
    BalancedDown(s, below, 2 * limit, value, depth, acc, level, own, next, more);
    if exact {
      BalancedDown(s, below, limit, value, depth, acc, level, own, next, more);
    }
  }

  /** The balance of a walk that may go `far` down. */
  ghost predicate BalancedAt(s: Scene, below: Recursion, far: nat, value: Id, depth: nat, acc: Totals, level: seq<Id>)
    requires depth <= far
  {
    Balanced(below, far - depth, acc, level, Whole(s, below, value, far))
  }

  /** A level is totalled, and its containers' contents are still to come. */
  lemma BalancedDown(
    s: Scene, below: Recursion, far: nat, value: Id, depth: nat, acc: Totals, level: seq<Id>,
    own: Totals, next: seq<Id>, more: Totals)
    requires depth < far && BalancedAt(s, below, far, value, depth, acc, level) && more == Add(acc, own)
    requires Adds(below, level, own, next, far - depth)
    ensures BalancedAt(s, below, far, value, depth + 1, more, next)
  {
    BothInto(acc, own, Sum(below, next, far - depth - 1));
  }

  /** What the walk keeps: the balance at both depths, and an honest `held_once`. */
  ghost predicate Walking(
    s: Scene, below: Recursion, limit: nat, known: map<Id, Option<Facts>>, value: Id, over: (nat, Id) -> bool,
    depth: nat, acc: Totals, level: seq<Id>, heldOnce: bool)
  {
    && depth <= limit
    && BalancedBoth(s, below, limit, Exact(below, limit, known, value), value, depth, acc, level)
    && HeldSoFar(s.h, known == map[], value, over, depth, level, heldOnce)
    && (depth > 0 ==> forall x <- level :: TypeOf(At(s.h, x)) in acc.types)
  }

  /** The full walk's answer is that of a walk within the limit. */
  ghost predicate Exact(below: Recursion, limit: nat, known: map<Id, Option<Facts>>, value: Id)
  {
    known == map[] || below(value, limit).Some?
  }

  function Top(s: Scene, value: Id): Totals
  {
    Totals({TypeOf(At(s.h, value))}, s.size(value), 0)
  }

  ghost function Whole(s: Scene, below: Recursion, value: Id, depth: nat): Option<Totals>
  {
    Both(Some(Top(s, value)), below(value, depth))
  }

  lemma WalkStarts(
    s: Scene, below: Recursion, limit: nat, known: map<Id, Option<Facts>>, value: Id, over: (nat, Id) -> bool)
    ensures Walking(s, below, limit, known, value, over, 0, Top(s, value), [value], true)
  {
    SumOne(below, value, 2 * limit);
    SumOne(below, value, limit);
  }

  lemma FitsReached(below: Recursion, limit: nat, depth: nat, acc: Totals, level: seq<Id>, whole: Option<Totals>)
    requires Balanced(below, depth, acc, level, whole) && whole.Some?
    ensures AllReached(below, limit, depth, level)
  {
    forall x <- level ensures Reached(below, limit, depth, x) {
      SumHas(below, level, depth, x);
    }
  }

  /** Taking the known parts of a level keeps the walk's balance. */
  lemma SplicedWalks(
    s: Scene, below: Recursion, limit: nat, known: map<Id, Option<Facts>>, value: Id, over: (nat, Id) -> bool,
    depth: nat, acc: Totals, level: seq<Id>, heldOnce: bool, got: Totals, rest: seq<Id>)
    requires Walking(s, below, limit, known, value, over, depth, acc, level, heldOnce)
    requires Keeps(below, limit, acc, level, got, rest)
    requires (forall x <- rest :: x in level) && acc.types <= got.types
    requires known == map[] ==> got == acc && rest == level
    requires |rest| <= |level| && (|rest| == |level| ==> rest == level && got == acc)
    ensures Walking(s, below, limit, known, value, over, depth, got, rest, heldOnce && |rest| == |level|)
  {
    assert AllReached(below, limit, 2 * limit - depth, level);
    if below(value, limit).Some? {
      FitsReached(below, limit, limit - depth, acc, level, Whole(s, below, value, limit));
    }
  }

  /** One level totalled keeps the walk's balance. */
  lemma LevelWalks(
    s: Scene, below: Recursion, limit: nat, known: map<Id, Option<Facts>>, value: Id, over: (nat, Id) -> bool,
    depth: nat, acc: Totals, level: seq<Id>, heldOnce: bool, keys: seq<Id>, flat: seq<Id>, next: seq<Id>, more: Totals, held: bool)
    requires IsRecursive(s, below) && Walking(s, below, limit, known, value, over, depth, acc, level, heldOnce) && depth < limit
    requires keys == FlatKeys(s.h, level) && flat == Flat(s.h, level) && PlainLists(s, keys, flat) && next == Nodes(s.h, flat)
    requires more == Add(acc, OwnOf(Listed(s.h, s.size, keys), Listed(s.h, s.size, flat), |level|))
    requires held == (heldOnce && forall x <- next :: !over(depth, x))
    ensures Walking(s, below, limit, known, value, over, depth + 1, more, next, held)
  {
    var own := OwnOf(Listed(s.h, s.size, keys), Listed(s.h, s.size, flat), |level|);
    LevelBalances(s, below, limit, Exact(below, limit, known, value), value, depth, acc, level, own, next, more);
    NodesTyped(s, acc, Listed(s.h, s.size, keys), flat, |level|);
    HeldStep(s.h, known == map[], value, over, depth, level, heldOnce, next, held);
  }

  /** At the end nothing is still to come. */
  lemma WalkEnds(
    s: Scene, below: Recursion, limit: nat, known: map<Id, Option<Facts>>, value: Id, over: (nat, Id) -> bool,
    depth: nat, acc: Totals, level: seq<Id>, heldOnce: bool)
    requires Walking(s, below, limit, known, value, over, depth, acc, level, heldOnce) && level == [] && depth > 0
    ensures below(value, 2 * limit).Some?
    ensures IsFacts(s, value, below(value, 2 * limit).value, Facts(acc.types, heldOnce, acc.size, acc.nodes))
    ensures known == map[] ==> below(value, limit).Some?
    ensures heldOnce ==> HeldOnce(s.h, value, over)
    ensures known == map[] ==> (heldOnce <==> HeldOnce(s.h, value, over))
    ensures heldOnce || known == map[] ==> Ends(s.h, value, depth)
  {
    assert Sum(below, level, 2 * limit - depth) == Some(ZERO);
    assert Sum(below, level, limit - depth) == Some(ZERO);
    BothZero(Some(acc));
    if heldOnce {
      HeldWhole(s.h, value, over, depth - 1);
    }
  }

  /** When the walk gives up, the full walk does too. */
  lemma WalkFails(
    s: Scene, below: Recursion, limit: nat, known: map<Id, Option<Facts>>, value: Id, over: (nat, Id) -> bool,
    depth: nat, acc: Totals, level: seq<Id>, heldOnce: bool)
    requires Walking(s, below, limit, known, value, over, depth, acc, level, heldOnce)
    requires Sum(below, level, limit - depth).None?
    ensures below(value, limit).None?
  {
  }

  lemma PartFails(s: Scene, below: Recursion, limit: nat, depth: nat, level: seq<Id>)
    requires IsRecursive(s, below) && depth <= limit && exists x <- level :: below(x, limit).None?
    ensures Sum(below, level, depth).None?
  {
    var x :| x in level && below(x, limit).None?;
    if Sum(below, level, depth).Some? {
      SumHas(below, level, depth, x);
      SumOne(below, x, depth);
      SumOne(below, x, limit);
      DeeperStill(s, below, [x], depth, limit);
    }
  }

  /** A `held_once` of True is right; after a full walk so is a False. */
  ghost predicate Tells(h: Heap, value: Id, held: Id -> nat, full: bool, heldOnce: bool)
  {
    && (heldOnce ==> ByParentsAlone(h, value, held))
    && (full ==> (heldOnce <==> ByParentsAlone(h, value, held)))
  }

  /**
   * What `_tree_facts` answers: the recursive totals; after a full walk, of a tree within the limit; a
   * `held_once` that the counts of the full walk say; and so, where counts count the holders, who holds what.
   */
  ghost predicate Right(
    s: Scene, below: Recursion, limit: nat, full: bool, value: Id, over: (nat, Id) -> bool, held: Id -> nat,
    above: (nat, Id) -> nat, facts: Facts)
  {
    && below(value, 2 * limit).Some? && IsFacts(s, value, below(value, 2 * limit).value, facts)
    && (full ==> below(value, limit).Some?)
    && (facts.heldOnce ==> HeldOnce(s.h, value, over))
    && (full ==> (facts.heldOnce <==> HeldOnce(s.h, value, over)))
    && (Covers(s.h, held) && ReadsCounts(s.h, value, held, above, over) ==> Tells(s.h, value, held, full, facts.heldOnce))
  }

  lemma WalkRight(
    s: Scene, below: Recursion, limit: nat, known: map<Id, Option<Facts>>, value: Id, over: (nat, Id) -> bool, held: Id -> nat,
    above: (nat, Id) -> nat, depth: nat, acc: Totals, level: seq<Id>, heldOnce: bool)
    requires Walking(s, below, limit, known, value, over, depth, acc, level, heldOnce) && level == [] && depth > 0
    ensures Right(s, below, limit, known == map[], value, over, held, above, Facts(acc.types, heldOnce, acc.size, acc.nodes))
  {
    WalkEnds(s, below, limit, known, value, over, depth, acc, level, heldOnce);
    if Covers(s.h, held) && ReadsCounts(s.h, value, held, above, over) && (heldOnce || known == map[]) {
      HeldOnceIs(s.h, value, held, above, over, depth);
    }
  }

  /** A level that is too deep or not plain. */
  lemma LevelFails(
    s: Scene, below: Recursion, limit: nat, known: map<Id, Option<Facts>>, value: Id, over: (nat, Id) -> bool,
    depth: nat, acc: Totals, level: seq<Id>, heldOnce: bool)
    requires IsRecursive(s, below) && Walking(s, below, limit, known, value, over, depth, acc, level, heldOnce) && level != []
    requires depth == limit || !PlainLists(s, FlatKeys(s.h, level), Flat(s.h, level))
    ensures below(value, limit).None?
  {
    NotPlainLevel(s, below, limit - depth, level);
    WalkFails(s, below, limit, known, value, over, depth, acc, level, heldOnce);
  }

  /** A part known to be no tree. */
  lemma KnownFails(
    s: Scene, below: Recursion, limit: nat, known: map<Id, Option<Facts>>, value: Id, over: (nat, Id) -> bool,
    depth: nat, acc: Totals, level: seq<Id>, heldOnce: bool)
    requires IsRecursive(s, below) && Walking(s, below, limit, known, value, over, depth, acc, level, heldOnce)
    requires exists x <- level :: below(x, limit).None?
    ensures below(value, limit).None?
  {
    PartFails(s, below, limit, limit - depth, level);
    WalkFails(s, below, limit, known, value, over, depth, acc, level, heldOnce);
  }

  /**
   * `_tree_facts`: with or without known parts, what it finds are the recursive totals; whatever the
   * full walk finds, the walk with known parts finds too; and a `held_once` of True is the full walk's:
   * where reference counts count the holders, every container below the top is held by its parent
   * alone.
   */
  method Walk(
    s: Scene, ghost below: Recursion, limit: nat, known: map<Id, Option<Facts>>, value: Id, over: (nat, Id) -> bool,
    ghost held: Id -> nat, ghost above: (nat, Id) -> nat)
    returns (r: Option<Facts>)
    requires IsRecursive(s, below) && KnownOk(s, below, limit, known)
    ensures r.None? ==> below(value, limit).None?
    ensures r.Some? ==> Right(s, below, limit, known == map[], value, over, held, above, r.value)
  {
    var acc, level, heldOnce := Top(s, value), [value], true;
    WalkStarts(s, below, limit, known, value, over);
    for depth := 0 to limit + 1
      invariant level != [] && Walking(s, below, limit, known, value, over, depth, acc, level, heldOnce)
    {
      if depth > 0 && known != map[] && |level| <= SPLICE_MAX {
        var got, rest := Splice(s, below, limit, known, level, acc);
        if got.None? {
          KnownFails(s, below, limit, known, value, over, depth, acc, level, heldOnce);
          return None;
        }
        SplicedWalks(s, below, limit, known, value, over, depth, acc, level, heldOnce, got.value, rest);
        heldOnce := heldOnce && |rest| == |level|;
        acc, level := got.value, rest;
        if level == [] {
          WalkRight(s, below, limit, known, value, over, held, above, depth, acc, level, heldOnce);
          return Some(Facts(acc.types, heldOnce, acc.size, acc.nodes));
        }
      }
      var keys, flat := FlatKeys(s.h, level), Flat(s.h, level);
      if depth == limit || !PlainLists(s, keys, flat) {
        LevelFails(s, below, limit, known, value, over, depth, acc, level, heldOnce);
        return None;
      }
      var more := Add(acc, OwnOf(Listed(s.h, s.size, keys), Listed(s.h, s.size, flat), |level|));
      var next := Nodes(s.h, flat);
      var once := heldOnce && forall x <- next :: !over(depth, x);
      LevelWalks(s, below, limit, known, value, over, depth, acc, level, heldOnce, keys, flat, next, more, once);
      acc, level, heldOnce := more, next, once;
      if level == [] {
        WalkRight(s, below, limit, known, value, over, held, above, depth + 1, acc, level, heldOnce);
        return Some(Facts(acc.types, heldOnce, acc.size, acc.nodes));
      }
    }
    assert false;
  }

  /** The facts of a tree within the limit do not depend on what was known. */
  lemma SplicedAgrees(s: Scene, below: Recursion, limit: nat, value: Id, full: Facts, spliced: Facts)
    requires IsRecursive(s, below) && below(value, limit).Some?
    requires below(value, 2 * limit).Some? && IsFacts(s, value, below(value, 2 * limit).value, full)
    requires IsFacts(s, value, below(value, 2 * limit).value, spliced)
    ensures spliced.types == full.types && spliced.size == full.size && spliced.nodes == full.nodes
    ensures IsFacts(s, value, below(value, limit).value, spliced)
  {
    SumOne(below, value, limit);
    SumOne(below, value, 2 * limit);
    DeeperStill(s, below, [value], limit, 2 * limit);
  }
}
