/**
 * `copy_plan` and `copy_by_plan`: how to copy a value `spine_copy` made, found once and
 * followed on every hit. Each way of copying is as good as `spine_copy` itself.
 */
module CopyPlans {
  import opened Options
  import opened PlainHeap
  import opened SpineCheck
  import opened SpineRebuild
  import opened SpineCopy

  /** How a part is copied: as it is, as a new list, as a new list of new dicts, key by key, or by `spine_copy`. */
  datatype Plan = Share | NewList | Rows | Spine | Parts(parts: seq<Plan>)

  const PLAN_KEYS: nat := 32
  const PLAN_DEPTH: nat := 3

  /** `immutable_below`: below the level there are tuples and leaves alone. */
  predicate ImmutableBelow(h: Heap, leaves: set<LeafTy>, level: seq<Id>, fuel: nat)
    decreases fuel
  {
    && fuel > 0 && HoldsTuples(h, leaves, level)
    && (Nodes(h, Flat(h, level)) == [] || ImmutableBelow(h, leaves, Nodes(h, Flat(h, level)), fuel - 1))
  }

  predicate HoldsTuples(h: Heap, leaves: set<LeafTy>, level: seq<Id>)
  {
    forall x <- Flat(h, level) :: IsLeafOf(h, leaves, x) || At(h, x).Tuple?
  }

  predicate IsRows(h: Heap, leaves: set<LeafTy>, x: Id)
  {
    && At(h, x).List? && Kids(h, x) != []
    && (forall row <- Kids(h, x) :: At(h, row).Dict?)
    && (forall v <- Flat(h, Kids(h, x)) :: IsLeafOf(h, leaves, v))
  }

  /** `immutable_below` of one container. */
  predicate ImmutableIn(h: Heap, leaves: set<LeafTy>, x: Id)
  {
    ImmutableBelow(h, leaves, [x], MAX_LEVELS)
  }

  function CopyPlan(h: Heap, leaves: set<LeafTy>, x: Id, depth: nat): Plan
    decreases PLAN_DEPTH - depth
  {
    if At(h, x).Dict? && |KeysOf(h, x)| <= PLAN_KEYS && depth < PLAN_DEPTH then
      Parts(seq(|Kids(h, x)|, i requires 0 <= i < |Kids(h, x)| => CopyPlan(h, leaves, Kids(h, x)[i], depth + 1)))
    else if IsLeafOf(h, leaves, x) then Share
    else if (At(h, x).Tuple? || At(h, x).List?) && ImmutableIn(h, leaves, x) then
      if At(h, x).Tuple? then Share else NewList
    else if IsRows(h, leaves, x) then Rows
    else Spine
  }

  // ---- Growing the heap --------------------------------------------------

  /** Everything within `n` steps of `x` is there, over `leaves`, and ends there. */
  ghost predicate Ground(h: Heap, leaves: set<LeafTy>, x: Id, n: nat)
    decreases n, 0
  {
    IsLeafOf(h, leaves, x) || (IsNode(h, x) && n > 0 && KeysAreLeaves(h, leaves, x) && KidsGround(h, leaves, Kids(h, x), n - 1))
  }

  ghost predicate KeysAreLeaves(h: Heap, leaves: set<LeafTy>, x: Id)
  {
    forall k <- KeysOf(h, x) :: IsLeafOf(h, leaves, k)
  }

  ghost predicate KidsGround(h: Heap, leaves: set<LeafTy>, kids: seq<Id>, n: nat)
    decreases n, 1
  {
    forall c <- kids :: Ground(h, leaves, c, n)
  }

  ghost predicate Grounded(h: Heap, leaves: set<LeafTy>, x: Id)
  {
    exists n: nat :: Ground(h, leaves, x, n)
  }

  lemma {:induction false} GroundMore(h: Heap, leaves: set<LeafTy>, x: Id, n: nat, n': nat)
    requires Ground(h, leaves, x, n) && n <= n'
    ensures Ground(h, leaves, x, n')
    decreases n
  {
    if !IsLeafOf(h, leaves, x) {
      assert KidsGround(h, leaves, Kids(h, x), n - 1);
      forall c <- Kids(h, x) ensures Ground(h, leaves, c, n' - 1) {
        GroundMore(h, leaves, c, n - 1, n' - 1);
      }
      assert KidsGround(h, leaves, Kids(h, x), n' - 1);
    }
  }

  lemma {:induction false} WalkGround(
    h: Heap, leaves: set<LeafTy>, value: Id, limit: nat, levels: seq<seq<Id>>, j: nat, x: Id)
    requires IsWalk(h, leaves, value, limit, levels) && j < |levels| && x in levels[j]
    ensures Ground(h, leaves, x, |levels| - j)
    decreases |levels| - j
  {
    ChainNode(h, value, levels, j, x);
    assert LevelPlain(h, leaves, levels[j]);
    KeysPlain(h, leaves, levels[j], x);
    forall c <- Kids(h, x) ensures Ground(h, leaves, c, |levels| - j - 1) {
      HeldIsPlain(h, leaves, value, limit, levels, j, x, c);
      if IsNode(h, c) {
        WalkGround(h, leaves, value, limit, levels, j + 1, c);
      }
    }
    assert KidsGround(h, leaves, Kids(h, x), |levels| - j - 1);
  }

  lemma KeysPlain(h: Heap, leaves: set<LeafTy>, level: seq<Id>, x: Id)
    requires LevelPlain(h, leaves, level) && x in level
    ensures KeysAreLeaves(h, leaves, x)
  {
    forall k <- KeysOf(h, x) ensures IsLeafOf(h, leaves, k) {
      FlatKeysHas(h, level, x, k);
    }
  }

  lemma HeldIsPlain(
    h: Heap, leaves: set<LeafTy>, value: Id, limit: nat, levels: seq<seq<Id>>, j: nat, x: Id, c: Id)
    requires IsWalk(h, leaves, value, limit, levels) && j < |levels| && x in levels[j] && c in Kids(h, x)
    ensures IsLeafOf(h, leaves, c) || (IsNode(h, c) && j + 1 < |levels| && c in levels[j + 1])
  {
    assert LevelPlain(h, leaves, levels[j]);
    FlatHas(h, levels[j], x, c);
    HeldBelow(h, value, levels, j, x, c);
  }

  /** What is there stays as it was when the heap grows. */
  lemma {:induction false} GroundGrows(m: Mem, m': Mem, leaves: set<LeafTy>, x: Id, n: nat)
    requires Extends(m, m') && Absent !in leaves && Ground(m.objs, leaves, x, n)
    ensures Ground(m'.objs, leaves, x, n) && At(m'.objs, x) == At(m.objs, x)
    decreases n
  {
    assert x in m.objs;
    if !IsLeafOf(m.objs, leaves, x) {
      assert KeysAreLeaves(m.objs, leaves, x) && KidsGround(m.objs, leaves, Kids(m.objs, x), n - 1);
      forall k <- KeysOf(m.objs, x) ensures IsLeafOf(m'.objs, leaves, k) {
        assert IsLeafOf(m.objs, leaves, k);
        assert k in m.objs;
      }
      forall c <- Kids(m.objs, x) ensures Ground(m'.objs, leaves, c, n - 1) {
        GroundGrows(m, m', leaves, c, n - 1);
      }
      assert KidsGround(m'.objs, leaves, Kids(m'.objs, x), n - 1);
      assert KeysAreLeaves(m'.objs, leaves, x);
    }
  }

  lemma {:induction false} UnfoldGrows(m: Mem, m': Mem, leaves: set<LeafTy>, x: Id, n: nat, d: nat)
    requires Extends(m, m') && Absent !in leaves && Ground(m.objs, leaves, x, n)
    ensures Unfold(m'.objs, x, d) == Unfold(m.objs, x, d)
    decreases d
  {
    var h, h' := m.objs, m'.objs;
    GroundGrows(m, m', leaves, x, n);
    if IsNode(h, x) && d > 0 {
      assert KeysAreLeaves(h, leaves, x) && KidsGround(h, leaves, Kids(h, x), n - 1);
      forall i | 0 <= i < |KeysOf(h, x)|
        ensures Unfold(h, KeysOf(h, x)[i], d - 1) == Unfold(h', KeysOf(h', x)[i], d - 1)
      {
        assert IsLeafOf(h, leaves, KeysOf(h, x)[i]);
        assert KeysOf(h, x)[i] in h;
      }
      forall i | 0 <= i < |Kids(h, x)|
        ensures Unfold(h, Kids(h, x)[i], d - 1) == Unfold(h', Kids(h', x)[i], d - 1)
      {
        UnfoldGrows(m, m', leaves, Kids(h, x)[i], n - 1, d - 1);
      }
      UnfoldStep(h, x, h', x, d);
    }
  }

  lemma {:induction false} NodesAtShift(h: Heap, level: seq<Id>, n: nat)
    ensures NodesAt(h, level, n + 1) == NodesAt(h, Nodes(h, Flat(h, level)), n)
  {
    if n > 0 {
      NodesAtShift(h, level, n - 1);
    }
  }

  lemma {:induction false} NodesAtAppend(h: Heap, a: seq<Id>, b: seq<Id>, n: nat)
    ensures NodesAt(h, a + b, n) == NodesAt(h, a, n) + NodesAt(h, b, n)
  {
    if n > 0 {
      NodesAtAppend(h, a, b, n - 1);
      FlatAppend(h, NodesAt(h, a, n - 1), NodesAt(h, b, n - 1));
      NodesAppend(h, Flat(h, NodesAt(h, a, n - 1)), Flat(h, NodesAt(h, b, n - 1)));
    }
  }

  /** What is reached from a level is reached from one of its members. */
  lemma {:induction false} ReachedFrom(h: Heap, level: seq<Id>, n: nat, w: Id) returns (c: Id)
    requires w in NodesAt(h, level, n)
    ensures c in level && w in NodesAt(h, [c], n)
  {
    if level == [] {
      NodesAtEmpty(h, level, n);
    } else {
      assert level == [level[0]] + level[1..];
      NodesAtAppend(h, [level[0]], level[1..], n);
      if w in NodesAt(h, [level[0]], n) {
        c := level[0];
      } else {
        c := ReachedFrom(h, level[1..], n, w);
      }
    }
  }

  lemma {:induction false} NodesAtEmpty(h: Heap, level: seq<Id>, n: nat)
    requires |level| == 0
    ensures |NodesAt(h, level, n)| == 0
  {
    if n > 0 {
      NodesAtEmpty(h, level, n - 1);
    }
  }

  /** What is reached in `n > 0` steps is reached through something held. */
  lemma ReachStep(h: Heap, x: Id, n: nat, w: Id) returns (c: Id)
    requires n > 0 && w in NodesAt(h, [x], n)
    ensures c in Kids(h, x) && IsNode(h, c) && w in NodesAt(h, [c], n - 1)
  {
    assert Flat(h, [x]) == Kids(h, x);
    NodesAtShift(h, [x], n - 1);
    var kids := Kids(h, x);
    c := ReachedFrom(h, Nodes(h, kids), n - 1, w);
    NodesAre(h, kids, c);
  }

  lemma {:induction false} ReachUp(h: Heap, x: Id, c: Id, n: nat, w: Id)
    requires c in Kids(h, x) && IsNode(h, c) && w in NodesAt(h, [c], n)
    ensures w in NodesAt(h, [x], n + 1)
  {
    assert Flat(h, [x]) == Kids(h, x);
    NodesAtShift(h, [x], n);
    NodesHas(h, Kids(h, x), c);
    ReachIn(h, Nodes(h, Kids(h, x)), c, n, w);
  }

  lemma ReachIn(h: Heap, level: seq<Id>, c: Id, n: nat, w: Id)
    requires c in level && w in NodesAt(h, [c], n)
    ensures w in NodesAt(h, level, n)
  {
    var i :| 0 <= i < |level| && level[i] == c;
    var a, b := level[..i], level[i + 1..];
    assert level == a + ([c] + b);
    NodesAtAppend(h, a, [c] + b, n);
    NodesAtAppend(h, [c], b, n);
  }

  /** Growing the heap adds nothing to what is reached. */
  lemma {:induction false} ReachShrinks(m: Mem, m': Mem, leaves: set<LeafTy>, x: Id, n: nat, k: nat, w: Id)
    requires Extends(m, m') && Absent !in leaves && Ground(m.objs, leaves, x, n)
    requires w in NodesAt(m'.objs, [x], k)
    ensures w in NodesAt(m.objs, [x], k) && At(m'.objs, w) == At(m.objs, w)
    decreases k
  {
    GroundGrows(m, m', leaves, x, n);
    if k > 0 {
      var c := ReachStep(m'.objs, x, k, w);
      assert KidsGround(m.objs, leaves, Kids(m.objs, x), n - 1);
      GroundGrows(m, m', leaves, c, n - 1);
      ReachShrinks(m, m', leaves, c, n - 1, k - 1, w);
      ReachUp(m.objs, x, c, k - 1, w);
    }
  }

  // ---- Good copies -------------------------------------------------------

  /** A separate copy, all of it there. */
  ghost predicate Good(m0: Mem, leaves: set<LeafTy>, x: Id, m: Mem, y: Id)
  {
    Separate(m0, x, m, y) && Grounded(m.objs, leaves, y)
  }

  /** A good copy stays one when the heap grows. */
  lemma GoodGrows(m0: Mem, leaves: set<LeafTy>, x: Id, m: Mem, y: Id, m': Mem)
    requires Good(m0, leaves, x, m, y) && Extends(m, m') && MemOk(m') && Absent !in leaves
    ensures Good(m0, leaves, x, m', y)
  {
    var n: nat :| Ground(m.objs, leaves, y, n);
    GroundGrows(m, m', leaves, y, n);
    forall d: nat ensures Unfold(m0.objs, x, d) == Unfold(m'.objs, y, d) {
      UnfoldGrows(m, m', leaves, y, n, d);
    }
    forall w: Id | Reaches(m'.objs, y, w) && Writable(m'.objs, w) ensures w >= m0.next {
      var k: nat :| w in NodesAt(m'.objs, [y], k);
      ReachShrinks(m, m', leaves, y, n, k, w);
      assert Reaches(m.objs, y, w);
    }
  }

  /** A copy made after the heap grew is a copy of what the value was before. */
  lemma GoodEarlier(m0: Mem, m1: Mem, leaves: set<LeafTy>, x: Id, m: Mem, y: Id)
    requires Grounded(m0.objs, leaves, x) && Extends(m0, m1) && Good(m1, leaves, x, m, y) && Absent !in leaves
    ensures Good(m0, leaves, x, m, y)
  {
    var n: nat :| Ground(m0.objs, leaves, x, n);
    forall d: nat ensures Unfold(m0.objs, x, d) == Unfold(m.objs, y, d) {
      UnfoldGrows(m0, m1, leaves, x, n, d);
    }
  }

  /** Something with nothing writable in or below it is its own good copy. */
  lemma GoodShare(m: Mem, leaves: set<LeafTy>, x: Id)
    requires MemOk(m) && Grounded(m.objs, leaves, x)
    requires forall w: Id | Reaches(m.objs, x, w) :: !Writable(m.objs, w)
    ensures Good(m, leaves, x, m, x)
  {
  }

  lemma LeafIsGood(m: Mem, leaves: set<LeafTy>, x: Id)
    requires MemOk(m) && IsLeafOf(m.objs, leaves, x)
    ensures Good(m, leaves, x, m, x)
  {
    assert Ground(m.objs, leaves, x, 0);
    forall w: Id | Reaches(m.objs, x, w) ensures !Writable(m.objs, w) {
      var k: nat :| w in NodesAt(m.objs, [x], k);
      if k > 0 {
        var c := ReachStep(m.objs, x, k, w);
      }
    }
    GoodShare(m, leaves, x);
  }

  lemma TuplesBelow(h: Heap, leaves: set<LeafTy>, level: seq<Id>, w: Id)
    requires HoldsTuples(h, leaves, level) && w in Nodes(h, Flat(h, level))
    ensures At(h, w).Tuple?
  {
    NodesAre(h, Flat(h, level), w);
  }

  lemma ImmutableNext(h: Heap, leaves: set<LeafTy>, level: seq<Id>, fuel: nat, next: seq<Id>)
    requires ImmutableBelow(h, leaves, level, fuel) && next == Nodes(h, Flat(h, level))
    ensures HoldsTuples(h, leaves, level) && (next != [] ==> fuel > 0 && ImmutableBelow(h, leaves, next, fuel - 1))
  {
  }

  /** Below an immutable level there is nothing to write into. */
  lemma {:induction false} ImmutableReach(h: Heap, leaves: set<LeafTy>, level: seq<Id>, fuel: nat, n: nat, w: Id)
    requires ImmutableBelow(h, leaves, level, fuel) && w in NodesAt(h, level, n + 1)
    ensures At(h, w).Tuple?
    decreases n
  {
    var next := Nodes(h, Flat(h, level));
    NodesAtShift(h, level, n);
    ImmutableNext(h, leaves, level, fuel, next);
    if n == 0 {
      TuplesBelow(h, leaves, level, w);
    } else if next == [] {
      NodesAtEmpty(h, next, n);
    } else {
      ImmutableReach(h, leaves, next, fuel - 1, n - 1, w);
    }
  }

  lemma NothingToWrite(h: Heap, leaves: set<LeafTy>, x: Id, n: nat, w: Id)
    requires ImmutableIn(h, leaves, x) && w in NodesAt(h, [x], n + 1)
    ensures At(h, w).Tuple?
  {
    ImmutableReach(h, leaves, [x], MAX_LEVELS, n, w);
  }

  /**
   * A new container holding good copies of what `x` holds is a good copy of `x`:
   * how a new list, a new row and a new dict of parts are right.
   */
  lemma Wrap(m0: Mem, leaves: set<LeafTy>, x: Id, m: Mem, copies: seq<Id>)
    requires MemOk(m0) && MemOk(m) && Extends(m0, m) && Absent !in leaves
    requires IsNode(m0.objs, x) && KeysAreLeaves(m0.objs, leaves, x) && |copies| == |Kids(m0.objs, x)|
    requires forall i | 0 <= i < |copies| :: Good(m0, leaves, Kids(m0.objs, x)[i], m, copies[i])
    ensures Good(m0, leaves, x, Alloc(m, WithItems(At(m0.objs, x), copies)), m.next)
  {
    var m', y := Alloc(m, WithItems(At(m0.objs, x), copies)), m.next;
    assert m.next !in m.objs;
    var h, h' := m0.objs, m'.objs;
    assert Kids(h', y) == copies && KeysOf(h', y) == KeysOf(h, x);
    forall i | 0 <= i < |copies| ensures Good(m0, leaves, Kids(h, x)[i], m', copies[i]) {
      GoodGrows(m0, leaves, Kids(h, x)[i], m, copies[i], m');
    }
    WrapGrounded(leaves, h', y, copies);
    forall d: nat ensures Unfold(h, x, d) == Unfold(h', y, d) {
      WrapUnfold(m0, leaves, x, m', y, copies, d);
    }
    forall w: Id | Reaches(h', y, w) && Writable(h', w) ensures w >= m0.next {
      var k: nat :| w in NodesAt(h', [y], k);
      if k > 0 {
        var c := ReachStep(h', y, k, w);
        assert Reaches(h', c, w);
      }
    }
  }

  lemma WrapGrounded(leaves: set<LeafTy>, h: Heap, y: Id, copies: seq<Id>)
    requires IsNode(h, y) && Kids(h, y) == copies && KeysAreLeaves(h, leaves, y)
    requires forall i | 0 <= i < |copies| :: Grounded(h, leaves, copies[i])
    ensures Grounded(h, leaves, y)
  {
    var n := GroundAll(leaves, h, copies);
    assert Ground(h, leaves, y, n + 1);
  }

  lemma {:induction false} GroundAll(leaves: set<LeafTy>, h: Heap, ids: seq<Id>) returns (n: nat)
    requires forall i | 0 <= i < |ids| :: Grounded(h, leaves, ids[i])
    ensures KidsGround(h, leaves, ids, n)
  {
    n := 0;
    for i := 0 to |ids|
      invariant KidsGround(h, leaves, ids[..i], n)
    {
      assert Grounded(h, leaves, ids[i]);
      var k: nat :| Ground(h, leaves, ids[i], k);
      var n' := if k > n then k else n;
      GroundMore(h, leaves, ids[i], k, n');
      forall c <- ids[..i] ensures Ground(h, leaves, c, n') {
        GroundMore(h, leaves, c, n, n');
      }
      assert ids[..i + 1] == ids[..i] + [ids[i]];
      n := n';
    }
    assert ids[..|ids|] == ids;
  }

  lemma WrapUnfold(m0: Mem, leaves: set<LeafTy>, x: Id, m: Mem, y: Id, copies: seq<Id>, d: nat)
    requires Extends(m0, m) && Absent !in leaves && At(m.objs, y) == WithItems(At(m0.objs, x), copies)
    requires IsNode(m0.objs, x) && KeysAreLeaves(m0.objs, leaves, x) && |copies| == |Kids(m0.objs, x)|
    requires forall i | 0 <= i < |copies| :: DeepEqual(m0.objs, Kids(m0.objs, x)[i], m.objs, copies[i])
    ensures Unfold(m0.objs, x, d) == Unfold(m.objs, y, d)
  {
    var h, h' := m0.objs, m.objs;
    if d > 0 {
      forall i | 0 <= i < |KeysOf(h, x)|
        ensures Unfold(h, KeysOf(h, x)[i], d - 1) == Unfold(h', KeysOf(h', y)[i], d - 1)
      {
        assert IsLeafOf(h, leaves, KeysOf(h, x)[i]);
        assert KeysOf(h, x)[i] in h;
      }
      forall i | 0 <= i < |Kids(h, x)|
        ensures Unfold(h, Kids(h, x)[i], d - 1) == Unfold(h', Kids(h', y)[i], d - 1)
      {
        assert DeepEqual(h, Kids(h, x)[i], h', copies[i]);
      }
      UnfoldStep(h, x, h', y, d);
    }
  }

  // ---- The parts of a value met once -------------------------------------

  /** A walk stays a walk when the heap grows. */
  lemma WalkGrows(m: Mem, m': Mem, leaves: set<LeafTy>, value: Id, limit: nat, levels: seq<seq<Id>>)
    requires Extends(m, m') && IsWalk(m.objs, leaves, value, limit, levels) && Absent !in leaves
    ensures IsWalk(m'.objs, leaves, value, limit, levels)
  {
    var none: map<Id, Id> := map[];
    forall j: nat, x: Id | j < |levels| && x in levels[j] ensures Mirrored(m.objs, m'.objs, none, x) {
      ChainNode(m.objs, value, levels, j, x);
      assert x in m.objs;
    }
    SameWalk(m.objs, leaves, value, limit, levels, m'.objs, none, levels);
  }

  lemma OnceGrows(m: Mem, m': Mem, leaves: set<LeafTy>, value: Id, limit: nat)
    requires Extends(m, m') && Once(m.objs, leaves, value, limit) && Absent !in leaves
    ensures Once(m'.objs, leaves, value, limit)
  {
    var levels :| IsWalk(m.objs, leaves, value, limit, levels) && NoRepeat(m.objs, levels);
    WalkGrows(m, m', leaves, value, limit, levels);
    forall x: Id | Writable(m'.objs, x) ensures Total(levels, x) <= 1 {
      if Total(levels, x) > 0 {
        var k := MetSomewhere(levels, |levels|, x);
        ChainNode(m.objs, value, levels, k, x);
        assert x in m.objs;
      }
    }
  }

  /** `a` stands in `b` from place `i` on. */
  ghost predicate StandsIn(a: seq<Id>, b: seq<Id>, i: nat)
  {
    i + |a| <= |b| && b[i..i + |a|] == a
  }

  lemma StandsSplit(a: seq<Id>, b: seq<Id>, i: nat)
    requires StandsIn(a, b, i)
    ensures b == b[..i] + (a + b[i + |a|..])
  {
  }

  lemma StandsJoin(p: seq<Id>, a: seq<Id>, s: seq<Id>, b: seq<Id>)
    requires b == p + (a + s)
    ensures StandsIn(a, b, |p|)
  {
  }

  /** What stands in a level leads to what stands in the next. */
  lemma StandsBelow(h: Heap, a: seq<Id>, b: seq<Id>, i: nat) returns (i': nat)
    requires StandsIn(a, b, i)
    ensures StandsIn(Nodes(h, Flat(h, a)), Nodes(h, Flat(h, b)), i')
    ensures forall x <- Flat(h, a) :: x in Flat(h, b)
  {
    var p, s := b[..i], b[i + |a|..];
    StandsSplit(a, b, i);
    FlatAppend(h, p, a + s);
    FlatAppend(h, a, s);
    NodesAppend(h, Flat(h, p), Flat(h, a + s));
    NodesAppend(h, Flat(h, a), Flat(h, s));
    i' := |Nodes(h, Flat(h, p))|;
    StandsJoin(Nodes(h, Flat(h, p)), Nodes(h, Flat(h, a)), Nodes(h, Flat(h, s)), Nodes(h, Flat(h, b)));
  }

  lemma {:induction false} FlatKeysFrom(h: Heap, level: seq<Id>, k: Id) returns (x: Id)
    requires k in FlatKeys(h, level)
    ensures x in level && k in KeysOf(h, x)
  {
    if k in KeysOf(h, level[0]) {
      x := level[0];
    } else {
      x := FlatKeysFrom(h, level[1..], k);
    }
  }

  lemma StandsPlain(h: Heap, leaves: set<LeafTy>, a: seq<Id>, b: seq<Id>, i: nat)
    requires StandsIn(a, b, i) && LevelPlain(h, leaves, b)
    ensures LevelPlain(h, leaves, a)
  {
    var i' := StandsBelow(h, a, b, i);
    forall k <- FlatKeys(h, a) ensures IsLeafOf(h, leaves, k) {
      var x := FlatKeysFrom(h, a, k);
      assert x in b[i..i + |a|];
      FlatKeysHas(h, b, x, k);
    }
  }

  lemma StandsCount(a: seq<Id>, b: seq<Id>, i: nat, x: Id)
    requires StandsIn(a, b, i)
    ensures Count(a, x) <= Count(b, x)
  {
    StandsSplit(a, b, i);
    CountAppend(b[..i], a + b[i + |a|..], x);
    CountAppend(a, b[i + |a|..], x);
  }

  /** The walk of a part stands in the walk of the whole, one level up. */
  ghost predicate PartSoFar(
    h: Heap, leaves: set<LeafTy>, c: Id, levels: seq<seq<Id>>, sub: seq<seq<Id>>, i: nat)
  {
    && Partial(h, c, sub) && |sub| < |levels| && AllPlain(h, leaves, sub)
    && StandsIn(sub[|sub| - 1], levels[|sub|], i)
    && MetWithin(levels, sub)
  }

  /** What the part's walk meets, the whole's meets as often, one level further. */
  ghost predicate MetWithin(levels: seq<seq<Id>>, sub: seq<seq<Id>>)
    requires |sub| < |levels|
  {
    forall x: Id {:trigger Met(sub, |sub|, x)} :: Met(sub, |sub|, x) <= Met(levels, |sub| + 1, x)
  }

  lemma MetWithinMore(levels: seq<seq<Id>>, sub: seq<seq<Id>>, next: seq<Id>, i: nat)
    requires |sub| + 1 < |levels| && StandsIn(next, levels[|sub| + 1], i) && MetWithin(levels, sub)
    ensures MetWithin(levels, sub + [next])
  {
    var more := sub + [next];
    forall x: Id ensures Met(more, |more|, x) <= Met(levels, |more| + 1, x) {
      PartMet(levels, sub, next, i, x);
    }
  }

  lemma {:induction false} MetSame(sub: seq<seq<Id>>, more: seq<seq<Id>>, k: nat, x: Id)
    requires k <= |sub| <= |more| && forall j | 0 <= j < |sub| :: more[j] == sub[j]
    ensures Met(more, k, x) == Met(sub, k, x)
  {
    if k > 0 {
      MetSame(sub, more, k - 1, x);
    }
  }

  lemma NextStands(
    h: Heap, leaves: set<LeafTy>, value: Id, limit: nat, levels: seq<seq<Id>>, n: nat, a: seq<Id>, i: nat, next: seq<Id>)
    returns (i': nat)
    requires IsWalk(h, leaves, value, limit, levels) && n < |levels| && StandsIn(a, levels[n], i)
    requires next == Nodes(h, Flat(h, a)) && next != []
    ensures n + 1 < |levels| && StandsIn(next, levels[n + 1], i') && LevelPlain(h, leaves, next)
  {
    i' := StandsBelow(h, a, levels[n], i);
    NotLast(h, value, levels, n, next, i');
    assert LevelPlain(h, leaves, levels[n + 1]);
    StandsPlain(h, leaves, next, levels[n + 1], i');
  }

  lemma PartAdds(h: Heap, leaves: set<LeafTy>, c: Id, levels: seq<seq<Id>>, sub: seq<seq<Id>>, next: seq<Id>, i: nat)
    requires Partial(h, c, sub) && AllPlain(h, leaves, sub) && |sub| + 1 < |levels| && MetWithin(levels, sub)
    requires next == Nodes(h, Flat(h, sub[|sub| - 1])) && next != []
    requires StandsIn(next, levels[|sub| + 1], i) && LevelPlain(h, leaves, next)
    ensures PartSoFar(h, leaves, c, levels, sub + [next], i)
  {
    var more := sub + [next];
    assert |more| == |sub| + 1 && more[|more| - 1] == next;
    PartialGrows(h, c, sub, next);
    PlainGrows(h, leaves, sub, next);
    MetWithinMore(levels, sub, next, i);
  }

  /** One level more of the part's walk, which stands in the next level of the whole. */
  lemma PartGrows(
    h: Heap, leaves: set<LeafTy>, value: Id, limit: nat, levels: seq<seq<Id>>, c: Id, sub: seq<seq<Id>>, i: nat, next: seq<Id>)
    returns (i': nat)
    requires IsWalk(h, leaves, value, limit, levels) && PartSoFar(h, leaves, c, levels, sub, i)
    requires next == Nodes(h, Flat(h, sub[|sub| - 1])) && next != []
    ensures PartSoFar(h, leaves, c, levels, sub + [next], i')
  {
    i' := NextStands(h, leaves, value, limit, levels, |sub|, sub[|sub| - 1], i, next);
    PartAdds(h, leaves, c, levels, sub, next, i');
  }

  lemma NotLast(h: Heap, value: Id, levels: seq<seq<Id>>, n: nat, next: seq<Id>, i: nat)
    requires Chain(h, value, levels) && n < |levels| && next != []
    requires StandsIn(next, Nodes(h, Flat(h, levels[n])), i)
    ensures n + 1 < |levels| && levels[n + 1] == Nodes(h, Flat(h, levels[n]))
  {
    if n + 1 < |levels| {
      assert Linked(h, levels, n + 1);
    }
  }

  lemma PartMet(levels: seq<seq<Id>>, sub: seq<seq<Id>>, next: seq<Id>, i: nat, x: Id)
    requires |sub| + 1 < |levels| && StandsIn(next, levels[|sub| + 1], i)
    requires Met(sub, |sub|, x) <= Met(levels, |sub| + 1, x)
    ensures Met(sub + [next], |sub| + 1, x) <= Met(levels, |sub| + 2, x)
  {
    MetSame(sub, sub + [next], |sub|, x);
    StandsCount(next, levels[|sub| + 1], i, x);
    assert Met(levels, |sub| + 2, x) == Met(levels, |sub| + 1, x) + Count(levels[|sub| + 1], x);
  }

  lemma PartStart(h: Heap, leaves: set<LeafTy>, value: Id, limit: nat, levels: seq<seq<Id>>, c: Id) returns (i: nat)
    requires IsWalk(h, leaves, value, limit, levels) && c in Kids(h, value) && IsNode(h, c)
    ensures PartSoFar(h, leaves, c, levels, [[c]], i)
  {
    assert value in levels[0];
    HeldBelow(h, value, levels, 0, value, c);
    i :| 0 <= i < |levels[1]| && levels[1][i] == c;
    assert StandsIn([c], levels[1], i);
    assert LevelPlain(h, leaves, levels[1]);
    StandsPlain(h, leaves, [c], levels[1], i);
    var sub := [[c]];
    assert AllPlain(h, leaves, sub);
    forall x: Id ensures Met(sub, 1, x) <= Met(levels, 2, x) {
      StandsCount([c], levels[1], i, x);
      assert Met(sub, 1, x) == Met(sub, 0, x) + Count([c], x);
      assert Met(levels, 2, x) == Met(levels, 1, x) + Count(levels[1], x);
    }
  }

  lemma PartEnds(
    h: Heap, leaves: set<LeafTy>, value: Id, limit: nat, levels: seq<seq<Id>>, c: Id, sub: seq<seq<Id>>, i: nat)
    requires IsWalk(h, leaves, value, limit, levels) && NoRepeat(h, levels) && PartSoFar(h, leaves, c, levels, sub, i)
    requires Nodes(h, Flat(h, sub[|sub| - 1])) == []
    ensures Once(h, leaves, c, limit)
  {
    assert IsWalk(h, leaves, c, limit, sub);
    forall x: Id | Writable(h, x) ensures Total(sub, x) <= 1 {
      MetMonotone(levels, |sub| + 1, x);
    }
  }

  lemma {:induction false} PartFrom(
    h: Heap, leaves: set<LeafTy>, value: Id, limit: nat, levels: seq<seq<Id>>, c: Id, sub: seq<seq<Id>>, i: nat)
    requires IsWalk(h, leaves, value, limit, levels) && NoRepeat(h, levels) && PartSoFar(h, leaves, c, levels, sub, i)
    ensures Once(h, leaves, c, limit)
    decreases |levels| - |sub|
  {
    var next := Nodes(h, Flat(h, sub[|sub| - 1]));
    if next == [] {
      PartEnds(h, leaves, value, limit, levels, c, sub, i);
    } else {
      var i' := PartGrows(h, leaves, value, limit, levels, c, sub, i, next);
      PartFrom(h, leaves, value, limit, levels, c, sub + [next], i');
    }
  }

  /** What a value met once holds is met once too. */
  lemma OncePart(h: Heap, leaves: set<LeafTy>, value: Id, limit: nat, c: Id)
    requires Once(h, leaves, value, limit) && c in Kids(h, value) && IsNode(h, c)
    ensures Once(h, leaves, c, limit)
  {
    var levels :| IsWalk(h, leaves, value, limit, levels) && NoRepeat(h, levels);
    var i := PartStart(h, leaves, value, limit, levels, c);
    PartFrom(h, leaves, value, limit, levels, c, [[c]], i);
  }

  lemma {:induction false} MetMonotone(levels: seq<seq<Id>>, k: nat, x: Id)
    requires k <= |levels|
    ensures Met(levels, k, x) <= Total(levels, x)
    decreases |levels| - k
  {
    if k < |levels| {
      MetMonotone(levels, k + 1, x);
    }
  }

  // ---- Following the plan ------------------------------------------------

  /** A leaf, or a container met once: what `spine_copy` makes, and its parts. */
  ghost predicate OnceOrLeaf(h: Heap, leaves: set<LeafTy>, x: Id)
  {
    IsLeafOf(h, leaves, x) || Once(h, leaves, x, MAX_LEVELS)
  }

  lemma OnceIsGrounded(h: Heap, leaves: set<LeafTy>, x: Id)
    requires OnceOrLeaf(h, leaves, x)
    ensures Grounded(h, leaves, x)
    ensures IsNode(h, x) ==> KeysAreLeaves(h, leaves, x)
    ensures forall c <- Kids(h, x) :: OnceOrLeaf(h, leaves, c)
  {
    if IsLeafOf(h, leaves, x) {
      assert Ground(h, leaves, x, 0);
    } else {
      var levels :| IsWalk(h, leaves, x, MAX_LEVELS, levels) && NoRepeat(h, levels);
      assert x in levels[0];
      WalkGround(h, leaves, x, MAX_LEVELS, levels, 0, x);
      forall c <- Kids(h, x) ensures OnceOrLeaf(h, leaves, c) {
        HeldIsPlain(h, leaves, x, MAX_LEVELS, levels, 0, x, c);
        if IsNode(h, c) {
          OncePart(h, leaves, x, MAX_LEVELS, c);
        }
      }
    }
  }

  /** An immutable tuple, or an item of an immutable list, is its own good copy. */
  lemma ImmutableIsGood(m: Mem, leaves: set<LeafTy>, x: Id)
    requires MemOk(m) && OnceOrLeaf(m.objs, leaves, x) && ImmutableIn(m.objs, leaves, x)
    ensures At(m.objs, x).Tuple? ==> Good(m, leaves, x, m, x)
    ensures forall c <- Kids(m.objs, x) :: Good(m, leaves, c, m, c)
  {
    OnceIsGrounded(m.objs, leaves, x);
    if At(m.objs, x).Tuple? {
      forall w: Id | Reaches(m.objs, x, w) ensures !Writable(m.objs, w) {
        var k: nat :| w in NodesAt(m.objs, [x], k);
        if k > 0 {
          NothingToWrite(m.objs, leaves, x, k - 1, w);
        }
      }
      GoodShare(m, leaves, x);
    }
    forall c <- Kids(m.objs, x) ensures Good(m, leaves, c, m, c) {
      OnceIsGrounded(m.objs, leaves, c);
      ImmutableItem(m, leaves, x, c);
    }
  }

  lemma ImmutableItem(m: Mem, leaves: set<LeafTy>, x: Id, c: Id)
    requires MemOk(m) && Grounded(m.objs, leaves, c) && OnceOrLeaf(m.objs, leaves, c)
    requires ImmutableIn(m.objs, leaves, x) && c in Kids(m.objs, x)
    ensures Good(m, leaves, c, m, c)
  {
    if IsLeafOf(m.objs, leaves, c) {
      LeafIsGood(m, leaves, c);
    } else {
      OnceIsNode(m.objs, leaves, c);
      forall w: Id | Reaches(m.objs, c, w) ensures !Writable(m.objs, w) {
        var k: nat :| w in NodesAt(m.objs, [c], k);
        ReachUp(m.objs, x, c, k, w);
        NothingToWrite(m.objs, leaves, x, k, w);
      }
      GoodShare(m, leaves, c);
    }
  }

  lemma OnceIsNode(h: Heap, leaves: set<LeafTy>, x: Id)
    requires Once(h, leaves, x, MAX_LEVELS)
    ensures IsNode(h, x)
  {
  }

  /** The copies made so far are good ones of the first rows. */
  ghost predicate RowsGood(m0: Mem, leaves: set<LeafTy>, rows: seq<Id>, m: Mem, copies: seq<Id>)
  {
    |copies| <= |rows| && forall j | 0 <= j < |copies| :: Good(m0, leaves, rows[j], m, copies[j])
  }

  lemma RowsGoodMore(m0: Mem, leaves: set<LeafTy>, rows: seq<Id>, m: Mem, copies: seq<Id>)
    requires MemOk(m) && Absent !in leaves && RowsGood(m0, leaves, rows, m, copies) && |copies| < |rows|
    requires Good(m0, leaves, rows[|copies|], Alloc(m, At(m0.objs, rows[|copies|])), m.next)
    ensures RowsGood(m0, leaves, rows, Alloc(m, At(m0.objs, rows[|copies|])), copies + [m.next])
  {
    var m' := Alloc(m, At(m0.objs, rows[|copies|]));
    forall j | 0 <= j < |copies| ensures Good(m0, leaves, rows[j], m', copies[j]) {
      GoodGrows(m0, leaves, rows[j], m, copies[j], m');
    }
  }

  /** `list(map(dict, value))`: a new list of a new dict per row. */
  method CopyRows(m0: Mem, leaves: set<LeafTy>, x: Id) returns (y: Id, m: Mem)
    requires MemOk(m0) && Absent !in leaves && OnceOrLeaf(m0.objs, leaves, x) && IsRows(m0.objs, leaves, x)
    ensures Good(m0, leaves, x, m, y)
  {
    OnceIsGrounded(m0.objs, leaves, x);
    m := m0;
    var rows, copies := Kids(m0.objs, x), [];
    for i := 0 to |rows|
      invariant MemOk(m) && Extends(m0, m) && |copies| == i && RowsGood(m0, leaves, rows, m, copies)
    {
      RowIsGood(m0, leaves, x, rows[i], m);
      RowsGoodMore(m0, leaves, rows, m, copies);
      copies := copies + [m.next];
      m := Alloc(m, At(m0.objs, rows[i]));
    }
    Wrap(m0, leaves, x, m, copies);
    y := m.next;
    m := Alloc(m, List(copies));
  }

  lemma RowIsGood(m0: Mem, leaves: set<LeafTy>, x: Id, row: Id, m: Mem)
    requires MemOk(m0) && MemOk(m) && Extends(m0, m) && Absent !in leaves
    requires OnceOrLeaf(m0.objs, leaves, x) && IsRows(m0.objs, leaves, x) && row in Kids(m0.objs, x)
    ensures Good(m0, leaves, row, Alloc(m, At(m0.objs, row)), m.next)
    ensures Extends(m0, Alloc(m, At(m0.objs, row))) && MemOk(Alloc(m, At(m0.objs, row)))
  {
    OnceIsGrounded(m0.objs, leaves, x);
    OnceIsGrounded(m0.objs, leaves, row);
    var vals := Kids(m0.objs, row);
    forall i | 0 <= i < |vals| ensures Good(m0, leaves, vals[i], m, vals[i]) {
      FlatHas(m0.objs, Kids(m0.objs, x), row, vals[i]);
      LeafIsGood(m0, leaves, vals[i]);
      GoodGrows(m0, leaves, vals[i], m0, vals[i], m);
    }
    Wrap(m0, leaves, row, m, vals);
    assert WithItems(At(m0.objs, row), vals) == At(m0.objs, row);
  }

  // ---- A stored value's plan does not change -----------------------------

  lemma GroundedGrows(m: Mem, m': Mem, leaves: set<LeafTy>, x: Id)
    requires Extends(m, m') && Absent !in leaves && Grounded(m.objs, leaves, x)
    ensures Grounded(m'.objs, leaves, x) && At(m'.objs, x) == At(m.objs, x)
    ensures forall c <- Kids(m.objs, x) :: Grounded(m.objs, leaves, c)
  {
    var n: nat :| Ground(m.objs, leaves, x, n);
    GroundGrows(m, m', leaves, x, n);
    if IsNode(m.objs, x) {
      assert KidsGround(m.objs, leaves, Kids(m.objs, x), n - 1);
    }
  }

  lemma {:induction false} FlatGrows(m: Mem, m': Mem, leaves: set<LeafTy>, level: seq<Id>)
    requires Extends(m, m') && Absent !in leaves && forall x <- level :: Grounded(m.objs, leaves, x)
    ensures Flat(m'.objs, level) == Flat(m.objs, level)
    ensures forall x <- Flat(m.objs, level) :: Grounded(m.objs, leaves, x) && At(m'.objs, x) == At(m.objs, x)
  {
    if level != [] {
      FlatGrows(m, m', leaves, level[1..]);
      GroundedGrows(m, m', leaves, level[0]);
      forall c <- Kids(m.objs, level[0]) ensures At(m'.objs, c) == At(m.objs, c) {
        GroundedGrows(m, m', leaves, c);
      }
    }
  }

  lemma {:induction false} NodesGrow(h: Heap, h': Heap, flat: seq<Id>)
    requires forall x <- flat :: At(h', x) == At(h, x)
    ensures Nodes(h', flat) == Nodes(h, flat)
  {
    if flat != [] {
      NodesGrow(h, h', flat[1..]);
    }
  }

  lemma {:induction false} ImmutableGrows(m: Mem, m': Mem, leaves: set<LeafTy>, level: seq<Id>, fuel: nat)
    requires Extends(m, m') && Absent !in leaves && forall x <- level :: Grounded(m.objs, leaves, x)
    ensures ImmutableBelow(m'.objs, leaves, level, fuel) <==> ImmutableBelow(m.objs, leaves, level, fuel)
    decreases fuel
  {
    FlatGrows(m, m', leaves, level);
    NodesGrow(m.objs, m'.objs, Flat(m.objs, level));
    assert HoldsTuples(m'.objs, leaves, level) <==> HoldsTuples(m.objs, leaves, level);
    if fuel > 0 {
      var flat := Flat(m.objs, level);
      forall x <- Nodes(m.objs, flat) ensures x in flat {
        NodesAre(m.objs, flat, x);
      }
      ImmutableGrows(m, m', leaves, Nodes(m.objs, flat), fuel - 1);
    }
  }

  lemma ImmutableInGrows(m: Mem, m': Mem, leaves: set<LeafTy>, x: Id)
    requires Extends(m, m') && Absent !in leaves && Grounded(m.objs, leaves, x)
    ensures ImmutableIn(m'.objs, leaves, x) <==> ImmutableIn(m.objs, leaves, x)
  {
    ImmutableGrows(m, m', leaves, [x], MAX_LEVELS);
  }

  lemma RowsGrow(m: Mem, m': Mem, leaves: set<LeafTy>, x: Id)
    requires Extends(m, m') && Absent !in leaves && Grounded(m.objs, leaves, x)
    ensures IsRows(m'.objs, leaves, x) <==> IsRows(m.objs, leaves, x)
  {
    GroundedGrows(m, m', leaves, x);
    forall c <- Kids(m.objs, x) ensures At(m'.objs, c) == At(m.objs, c) {
      GroundedGrows(m, m', leaves, c);
    }
    FlatGrows(m, m', leaves, Kids(m.objs, x));
  }

  /** The plans of what a container holds are the same in both heaps. */
  ghost predicate SamePlans(h: Heap, h': Heap, leaves: set<LeafTy>, kids: seq<Id>, depth: nat)
  {
    forall i | 0 <= i < |kids| :: CopyPlan(h', leaves, kids[i], depth) == CopyPlan(h, leaves, kids[i], depth)
  }

  /** A plan made in a step of its own, or from the plans of what the container holds. */
  lemma PlanStep(m: Mem, m': Mem, leaves: set<LeafTy>, x: Id, depth: nat)
    requires Extends(m, m') && Absent !in leaves && Grounded(m.objs, leaves, x)
    requires depth < PLAN_DEPTH ==> SamePlans(m.objs, m'.objs, leaves, Kids(m.objs, x), depth + 1)
    ensures CopyPlan(m'.objs, leaves, x, depth) == CopyPlan(m.objs, leaves, x, depth)
  {
    GroundedGrows(m, m', leaves, x);
    if !At(m.objs, x).Dict? {
      ImmutableInGrows(m, m', leaves, x);
    }
    RowsGrow(m, m', leaves, x);
  }

  /** The plan made for a stored value still is its plan after the heap grew. */
  lemma {:induction false} PlanGrows(m: Mem, m': Mem, leaves: set<LeafTy>, x: Id, depth: nat)
    requires Extends(m, m') && Absent !in leaves && Grounded(m.objs, leaves, x)
    ensures CopyPlan(m'.objs, leaves, x, depth) == CopyPlan(m.objs, leaves, x, depth)
    decreases PLAN_DEPTH - depth, 0
  {
    if depth < PLAN_DEPTH {
      GroundedGrows(m, m', leaves, x);
      PlansGrow(m, m', leaves, Kids(m.objs, x), depth + 1);
    }
    PlanStep(m, m', leaves, x, depth);
  }

  lemma {:induction false} PlansGrow(m: Mem, m': Mem, leaves: set<LeafTy>, kids: seq<Id>, depth: nat)
    requires Extends(m, m') && Absent !in leaves && forall c <- kids :: Grounded(m.objs, leaves, c)
    ensures SamePlans(m.objs, m'.objs, leaves, kids, depth)
    decreases PLAN_DEPTH - depth, 1
  {
    forall i | 0 <= i < |kids|
      ensures CopyPlan(m'.objs, leaves, kids[i], depth) == CopyPlan(m.objs, leaves, kids[i], depth)
    {
      PlanGrows(m, m', leaves, kids[i], depth);
    }
  }

  lemma ExtendsAgain(a: Mem, b: Mem, c: Mem)
    requires Extends(a, b) && Extends(b, c)
    ensures Extends(a, c)
  {
  }

  lemma OnceOrLeafGrows(m: Mem, m': Mem, leaves: set<LeafTy>, x: Id)
    requires Extends(m, m') && Absent !in leaves && OnceOrLeaf(m.objs, leaves, x)
    ensures OnceOrLeaf(m'.objs, leaves, x)
  {
    if IsLeafOf(m.objs, leaves, x) {
      assert x in m.objs;
    } else {
      OnceGrows(m, m', leaves, x, MAX_LEVELS);
    }
  }

  /** `spine_copy` of a part that is met once: always a good copy. */
  method CopySpine(m0: Mem, leaves: set<LeafTy>, x: Id, unshared: nat, refs: Id -> nat) returns (r: Option<Id>, m: Mem)
    requires MemOk(m0) && Absent !in leaves && Once(m0.objs, leaves, x, MAX_LEVELS)
    ensures r.Some? && Good(m0, leaves, x, m, r.value)
  {
    ghost var levels :| IsWalk(m0.objs, leaves, x, MAX_LEVELS, levels) && NoRepeat(m0.objs, levels);
    forall ls | IsWalk(m0.objs, leaves, x, MAX_LEVELS, ls) ensures ls == levels {
      WalkUnique(m0.objs, x, ls, levels);
    }
    var memo;
    r, m, memo := Copy(m0, leaves, x, map[], unshared, refs);
    OnceIsGrounded(m.objs, leaves, r.value);
  }

  /** One more part is copied; the parts copied before are still good copies. */
  lemma PartAdded(m0: Mem, leaves: set<LeafTy>, kids: seq<Id>, copies: seq<Id>, m: Mem, m': Mem, c: Id)
    requires MemOk(m0) && Absent !in leaves && |copies| < |kids| && Extends(m0, m)
    requires Grounded(m0.objs, leaves, kids[|copies|])
    requires forall j | 0 <= j < |copies| :: Good(m0, leaves, kids[j], m, copies[j])
    requires Good(m, leaves, kids[|copies|], m', c)
    ensures Extends(m0, m')
    ensures forall j | 0 <= j < |copies| + 1 :: Good(m0, leaves, kids[j], m', (copies + [c])[j])
  {
    ExtendsAgain(m0, m, m');
    GoodEarlier(m0, m, leaves, kids[|copies|], m', c);
    forall j | 0 <= j < |copies| ensures Good(m0, leaves, kids[j], m', copies[j]) {
      GoodGrows(m0, leaves, kids[j], m, copies[j], m');
    }
  }

  /** A part that is shared is its own good copy. */
  lemma ShareIsGood(m: Mem, leaves: set<LeafTy>, x: Id, depth: nat)
    requires MemOk(m) && Absent !in leaves && OnceOrLeaf(m.objs, leaves, x) && CopyPlan(m.objs, leaves, x, depth) == Share
    ensures Good(m, leaves, x, m, x)
  {
    if IsLeafOf(m.objs, leaves, x) {
      LeafIsGood(m, leaves, x);
    } else {
      ImmutableIsGood(m, leaves, x);
    }
  }

  /** A new list of the same items is a good copy of an immutable list. */
  lemma NewListIsGood(m: Mem, leaves: set<LeafTy>, x: Id, depth: nat)
    requires MemOk(m) && Absent !in leaves && OnceOrLeaf(m.objs, leaves, x) && CopyPlan(m.objs, leaves, x, depth) == NewList
    ensures Good(m, leaves, x, Alloc(m, List(Kids(m.objs, x))), m.next)
  {
    OnceIsGrounded(m.objs, leaves, x);
    ImmutableIsGood(m, leaves, x);
    Wrap(m, leaves, x, m, Kids(m.objs, x));
  }

  /** The plan of a dict has the plans of its values. */
  lemma PartsAre(h: Heap, leaves: set<LeafTy>, x: Id, depth: nat, parts: seq<Plan>)
    requires CopyPlan(h, leaves, x, depth) == Parts(parts)
    ensures At(h, x).Dict? && |parts| == |Kids(h, x)|
    ensures forall i | 0 <= i < |parts| :: parts[i] == CopyPlan(h, leaves, Kids(h, x)[i], depth + 1)
  {
  }

  /** A part is as ready to be copied as it was before the others were. */
  lemma PartReady(m0: Mem, m: Mem, leaves: set<LeafTy>, x: Id, parts: seq<Plan>, depth: nat, i: nat)
    requires Extends(m0, m) && Absent !in leaves && OnceOrLeaf(m0.objs, leaves, x)
    requires CopyPlan(m0.objs, leaves, x, depth) == Parts(parts) && i < |parts|
    ensures i < |Kids(m0.objs, x)| && Grounded(m0.objs, leaves, Kids(m0.objs, x)[i])
    ensures OnceOrLeaf(m.objs, leaves, Kids(m0.objs, x)[i])
    ensures parts[i] == CopyPlan(m.objs, leaves, Kids(m0.objs, x)[i], depth + 1)
  {
    PartsAre(m0.objs, leaves, x, depth, parts);
    OnceIsGrounded(m0.objs, leaves, x);
    var kid := Kids(m0.objs, x)[i];
    OnceIsGrounded(m0.objs, leaves, kid);
    OnceOrLeafGrows(m0, m, leaves, kid);
    PlanGrows(m0, m, leaves, kid, depth + 1);
  }

  /** A new dict of the parts, each copied by its own plan. */
  method CopyParts(
    m0: Mem, leaves: set<LeafTy>, x: Id, parts: seq<Plan>, ghost depth: nat, unshared: nat, refs: Id -> nat)
    returns (r: Id, m: Mem)
    requires MemOk(m0) && Absent !in leaves && OnceOrLeaf(m0.objs, leaves, x)
    requires CopyPlan(m0.objs, leaves, x, depth) == Parts(parts)
    ensures Good(m0, leaves, x, m, r)
    decreases parts
  {
    OnceIsGrounded(m0.objs, leaves, x);
    PartsAre(m0.objs, leaves, x, depth, parts);
    m := m0;
    var kids, copies := Kids(m0.objs, x), [];
    for i := 0 to |parts|
      invariant |copies| == i && MemOk(m) && Extends(m0, m)
      invariant forall j | 0 <= j < i :: Good(m0, leaves, kids[j], m, copies[j])
    {
      PartReady(m0, m, leaves, x, parts, depth, i);
      var item, m' := CopyByPlan(m, leaves, kids[i], parts[i], depth + 1, unshared, refs);
      PartAdded(m0, leaves, kids, copies, m, m', item.value);
      copies, m := copies + [item.value], m';
    }
    Wrap(m0, leaves, x, m, copies);
    r := m.next;
    m := Alloc(m, Dict(KeysOf(m0.objs, x), copies));
  }

  /** `copy_by_plan`: followed on a value met once, its plan makes a good copy. */
  method CopyByPlan(
    m0: Mem, leaves: set<LeafTy>, x: Id, plan: Plan, ghost depth: nat, unshared: nat, refs: Id -> nat)
    returns (r: Option<Id>, m: Mem)
    requires MemOk(m0) && Absent !in leaves && OnceOrLeaf(m0.objs, leaves, x)
    requires plan == CopyPlan(m0.objs, leaves, x, depth)
    ensures r.Some? && Good(m0, leaves, x, m, r.value)
    decreases plan
  {
    var y;
    match plan
    case Parts(parts) =>
      y, m := CopyParts(m0, leaves, x, parts, depth, unshared, refs);
      r := Some(y);
    case Share =>
      ShareIsGood(m0, leaves, x, depth);
      r, m := Some(x), m0;
    case NewList =>
      NewListIsGood(m0, leaves, x, depth);
      r, m := Some(m0.next), Alloc(m0, List(Kids(m0.objs, x)));
    case Rows =>
      y, m := CopyRows(m0, leaves, x);
      r := Some(y);
    case Spine =>
      OnceIsGrounded(m0.objs, leaves, x);
      r, m := CopySpine(m0, leaves, x, unshared, refs);
  }
}
