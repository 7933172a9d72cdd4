/**
 * `tree_paths` of `src/cash/_plain_data.py` (lines 343-416): the paths to wanted containers, found a
 * level at a time by inverting positions in flattened levels.
 */
module TreePaths {
  import opened Options
  import opened PlainHeap

  /** `("item", i)` or `("key", k)`. */
  datatype Step = Item(index: nat) | Key(key: Id)

  type Path = seq<Step>

  ghost predicate DictOk(o: Obj)
  {
    o.Dict? ==> |o.keys| == |o.items| && forall i, j | 0 <= i < j < |o.keys| :: o.keys[i] != o.keys[j]
  }

  /** A dict has one value for each of its keys, and no key twice. */
  ghost predicate DictsOk(h: Heap)
  {
    forall x: Id :: DictOk(At(h, x))
  }

  // ---- What a path means -------------------------------------------------

  function IndexOf(keys: seq<Id>, k: Id, i: nat): Option<nat>
    requires i <= |keys|
    decreases |keys| - i
  {
    if i == |keys| then None else if keys[i] == k then Some(i) else IndexOf(keys, k, i + 1)
  }

  lemma {:induction false} IndexOfIs(keys: seq<Id>, j: nat, i: nat)
    requires i <= j < |keys| && forall a, b | 0 <= a < b < |keys| :: keys[a] != keys[b]
    ensures IndexOf(keys, keys[j], i) == Some(j)
    decreases j - i
  {
    if i < j {
      IndexOfIs(keys, j, i + 1);
    }
  }

  lemma {:induction false} IndexOfSome(keys: seq<Id>, k: Id, i: nat)
    requires i <= |keys| && IndexOf(keys, k, i).Some?
    ensures IndexOf(keys, k, i).value < |keys| && keys[IndexOf(keys, k, i).value] == k
    decreases |keys| - i
  {
    if keys[i] != k {
      IndexOfSome(keys, k, i + 1);
    }
  }

  /** Which of its items a container holds at a step. */
  function OffsetOf(o: Obj, step: Step): (r: Option<nat>)
    ensures r.Some? && DictOk(o) ==> !o.Leaf? && r.value < |o.items|
  {
    match o
    case Leaf(_, _) => None
    case Dict(keys, items) =>
      if step.Item? then None
      else var i := IndexOf(keys, step.key, 0); if i.Some? then (IndexOfSome(keys, step.key, 0); i) else None
    case _ => if step.Item? && step.index < |o.items| then Some(step.index) else None
  }

  /** `value[step][step]...`: what is at the end of a path. */
  function Follow(h: Heap, value: Id, path: Path): Option<Id>
  {
    if path == [] then Some(value)
    else
      var x := Follow(h, value, path[..|path| - 1]);
      if x.None? then None
      else
        var i := OffsetOf(At(h, x.value), path[|path| - 1]);
        if i.Some? && i.value < |Kids(h, x.value)| then Some(Kids(h, x.value)[i.value]) else None
  }

  /** The step that leads to item `i` of a container. */
  function StepTo(o: Obj, i: nat): Step
  {
    if o.Dict? && i < |o.keys| then Key(o.keys[i]) else Item(i)
  }

  lemma StepIsOffset(o: Obj, i: nat)
    requires DictOk(o) && !o.Leaf? && i < |o.items|
    ensures OffsetOf(o, StepTo(o, i)) == Some(i)
  {
    if o.Dict? {
      IndexOfIs(o.keys, i, 0);
    }
  }

  lemma OffsetIsStep(o: Obj, step: Step)
    requires DictOk(o) && OffsetOf(o, step).Some?
    ensures StepTo(o, OffsetOf(o, step).value) == step
  {
    if o.Dict? {
      IndexOfSome(o.keys, step.key, 0);
    }
  }

  // ---- Positions in a flattened level ------------------------------------

  /** How many items the first `i` containers of a level hold. */
  function Upto(h: Heap, level: seq<Id>, i: nat): nat
    requires i <= |level|
  {
    if i == 0 then 0 else Upto(h, level, i - 1) + |Kids(h, level[i - 1])|
  }

  lemma {:induction false} UptoGrows(h: Heap, level: seq<Id>, i: nat, j: nat)
    requires i <= j <= |level|
    ensures Upto(h, level, i) <= Upto(h, level, j)
    decreases j
  {
    if i < j {
      UptoGrows(h, level, i, j - 1);
    }
  }

  /** Flat position `x` is item `o` of container `p`. */
  predicate Sits(h: Heap, level: seq<Id>, x: nat, p: nat, o: nat)
  {
    p < |level| && o < |Kids(h, level[p])| && x == Upto(h, level, p) + o
  }

  lemma SitsUnique(h: Heap, level: seq<Id>, x: nat, p: nat, o: nat, p': nat, o': nat)
    requires Sits(h, level, x, p, o) && Sits(h, level, x, p', o')
    ensures p == p' && o == o'
  {
    if p < p' {
      UptoGrows(h, level, p + 1, p');
    } else if p' < p {
      UptoGrows(h, level, p' + 1, p);
    }
  }

  /** The container that holds flat position `x`. */
  function Owner(h: Heap, level: seq<Id>, x: nat, i: nat): (p: nat)
    requires i <= |level| && Upto(h, level, i) <= x < Upto(h, level, |level|)
    ensures p < |level| && Upto(h, level, p) <= x && Sits(h, level, x, p, x - Upto(h, level, p))
    decreases |level| - i
  {
    assert i < |level|;
    if x < Upto(h, level, i + 1) then i else Owner(h, level, x, i + 1)
  }

  lemma SitsSomewhere(h: Heap, level: seq<Id>, x: nat) returns (p: nat, o: nat)
    requires x < Upto(h, level, |level|)
    ensures Sits(h, level, x, p, o)
  {
    p := Owner(h, level, x, 0);
    o := x - Upto(h, level, p);
  }

  lemma {:induction false} FlatUpto(h: Heap, level: seq<Id>, n: nat)
    requires n <= |level|
    ensures |Flat(h, level[..n])| == Upto(h, level, n)
    ensures forall x: nat, p: nat, o: nat | Sits(h, level, x, p, o) && p < n ::
              x < Upto(h, level, n) && Flat(h, level[..n])[x] == Kids(h, level[p])[o]
  {
    if n > 0 {
      FlatUpto(h, level, n - 1);
      assert level[..n] == level[..n - 1] + [level[n - 1]];
      FlatAppend(h, level[..n - 1], [level[n - 1]]);
      assert Flat(h, [level[n - 1]]) == Kids(h, level[n - 1]);
      forall x: nat, p: nat, o: nat | Sits(h, level, x, p, o) && p < n
        ensures x < Upto(h, level, n) && Flat(h, level[..n])[x] == Kids(h, level[p])[o]
      {
        if p < n - 1 {
          UptoGrows(h, level, p + 1, n - 1);
        }
      }
    }
  }

  lemma FlatAt(h: Heap, level: seq<Id>, x: nat, p: nat, o: nat)
    requires Sits(h, level, x, p, o)
    ensures x < |Flat(h, level)| && Flat(h, level)[x] == Kids(h, level[p])[o]
  {
    FlatUpto(h, level, |level|);
    assert level[..|level|] == level;
  }

  lemma FlatLength(h: Heap, level: seq<Id>)
    ensures |Flat(h, level)| == Upto(h, level, |level|)
  {
    FlatUpto(h, level, |level|);
    assert level[..|level|] == level;
  }

  /** `compress(range(len(flat)), is_node)`: where the containers sit in `flat[..n]`. */
  function Places(h: Heap, flat: seq<Id>, n: nat): seq<nat>
    requires n <= |flat|
  {
    if n == 0 then [] else Places(h, flat, n - 1) + if IsNode(h, flat[n - 1]) then [n - 1] else []
  }

  lemma {:induction false} PlacesAre(h: Heap, flat: seq<Id>, n: nat)
    requires n <= |flat|
    ensures forall k | 0 <= k < |Places(h, flat, n)| :: Places(h, flat, n)[k] < n && IsNode(h, flat[Places(h, flat, n)[k]])
    ensures forall k, l | 0 <= k < l < |Places(h, flat, n)| :: Places(h, flat, n)[k] < Places(h, flat, n)[l]
    ensures forall i | 0 <= i < n && IsNode(h, flat[i]) :: i in Places(h, flat, n)
  {
    if n > 0 {
      PlacesAre(h, flat, n - 1);
    }
  }

  lemma {:induction false} NodesPlaces(h: Heap, flat: seq<Id>, n: nat)
    requires n <= |flat|
    ensures |Nodes(h, flat[..n])| == |Places(h, flat, n)|
    ensures forall k | 0 <= k < |Places(h, flat, n)| :: Places(h, flat, n)[k] < n && Nodes(h, flat[..n])[k] == flat[Places(h, flat, n)[k]]
  {
    PlacesAre(h, flat, n);
    if n > 0 {
      NodesPlaces(h, flat, n - 1);
      assert flat[..n] == flat[..n - 1] + [flat[n - 1]];
      NodesAppend(h, flat[..n - 1], [flat[n - 1]]);
      assert Nodes(h, [flat[n - 1]]) == if IsNode(h, flat[n - 1]) then [flat[n - 1]] else [];
    }
  }

  /** Where the containers of the next level sit in what this level holds. */
  function Positions(h: Heap, level: seq<Id>): seq<nat>
  {
    Places(h, Flat(h, level), |Flat(h, level)|)
  }

  lemma PositionsAre(h: Heap, level: seq<Id>)
    ensures |Positions(h, level)| == |Nodes(h, Flat(h, level))|
    ensures forall k | 0 <= k < |Positions(h, level)| ::
      && Positions(h, level)[k] < Upto(h, level, |level|) == |Flat(h, level)|
      && Nodes(h, Flat(h, level))[k] == Flat(h, level)[Positions(h, level)[k]]
  {
    var flat := Flat(h, level);
    NodesPlaces(h, flat, |flat|);
    assert flat[..|flat|] == flat;
    FlatLength(h, level);
  }

  // ---- The path to a container of the walk -------------------------------

  /** `Linked` at every level: what `PathTo` climbs. */
  ghost predicate Climbable(h: Heap, levels: seq<seq<Id>>)
  {
    forall k: nat | 0 < k < |levels| :: Linked(h, levels, k)
  }

  /** Container `at` of level `d` is item `o` of container `p` of the level above. */
  ghost predicate Hangs(h: Heap, levels: seq<seq<Id>>, d: nat, at: nat, p: nat, o: nat)
  {
    && 0 < d < |levels| && at < |Positions(h, levels[d - 1])|
    && Sits(h, levels[d - 1], Positions(h, levels[d - 1])[at], p, o)
  }

  lemma HangsSomewhere(h: Heap, levels: seq<seq<Id>>, d: nat, at: nat) returns (p: nat, o: nat)
    requires Climbable(h, levels) && 0 < d < |levels| && at < |levels[d]|
    ensures Hangs(h, levels, d, at, p, o)
  {
    assert Linked(h, levels, d);
    PositionsAre(h, levels[d - 1]);
    p, o := SitsSomewhere(h, levels[d - 1], Positions(h, levels[d - 1])[at]);
  }

  lemma HangsIs(h: Heap, levels: seq<seq<Id>>, d: nat, at: nat, p: nat, o: nat)
    requires Climbable(h, levels) && Hangs(h, levels, d, at, p, o)
    ensures at < |levels[d]| && levels[d][at] == Kids(h, levels[d - 1][p])[o]
  {
    assert Linked(h, levels, d);
    PositionsAre(h, levels[d - 1]);
    FlatAt(h, levels[d - 1], Positions(h, levels[d - 1])[at], p, o);
  }

  /** The path in the table is the path of the container above and one step down from it. */
  ghost predicate LinkAt(h: Heap, levels: seq<seq<Id>>, table: seq<seq<Path>>, d: nat, at: nat)
  {
    0 < d < |table| && at < |table[d]| && LinkFrom(h, levels, table[d - 1], d, at, table[d][at])
  }

  ghost predicate LinkFrom(h: Heap, levels: seq<seq<Id>>, above: seq<Path>, d: nat, at: nat, path: Path)
  {
    exists p: nat, o: nat :: Hangs(h, levels, d, at, p, o) && p < |above|
      && path == above[p] + [StepTo(At(h, levels[d - 1][p]), o)]
  }

  /** The steps from the top to each container of the walk, level by level. */
  ghost predicate IsTable(h: Heap, levels: seq<seq<Id>>, table: seq<seq<Path>>)
  {
    && |table| <= |levels| && (forall d {:trigger table[d]} | 0 <= d < |table| :: |table[d]| == |levels[d]|)
    && (table != [] ==> forall at | 0 <= at < |table[0]| :: table[0][at] == [])
    && (forall d: nat, at: nat {:trigger LinkAt(h, levels, table, d, at)} | 0 < d < |table| && at < |table[d]| ::
          LinkAt(h, levels, table, d, at))
  }

  lemma LinkStep(h: Heap, levels: seq<seq<Id>>, table: seq<seq<Path>>, d: nat, at: nat, p: nat, o: nat)
    requires IsTable(h, levels, table) && d < |table| && at < |table[d]| && Hangs(h, levels, d, at, p, o)
    ensures p < |table[d - 1]| && table[d][at] == table[d - 1][p] + [StepTo(At(h, levels[d - 1][p]), o)]
  {
    assert LinkAt(h, levels, table, d, at);
    var p': nat, o': nat :| Hangs(h, levels, d, at, p', o') && p' < |table[d - 1]|
      && table[d][at] == table[d - 1][p'] + [StepTo(At(h, levels[d - 1][p']), o')];
    SitsUnique(h, levels[d - 1], Positions(h, levels[d - 1])[at], p, o, p', o');
  }

  /** The paths of a level, from those of the level above. */
  lemma {:induction false} NextRow(h: Heap, levels: seq<seq<Id>>, above: seq<Path>, d: nat, n: nat) returns (row: seq<Path>)
    requires Climbable(h, levels) && 0 < d < |levels| && |above| == |levels[d - 1]| && n <= |levels[d]|
    ensures |row| == n && forall at: nat | at < n :: LinkFrom(h, levels, above, d, at, row[at])
  {
    if n == 0 {
      row := [];
    } else {
      var less := NextRow(h, levels, above, d, n - 1);
      var p, o := HangsSomewhere(h, levels, d, n - 1);
      var path := above[p] + [StepTo(At(h, levels[d - 1][p]), o)];
      assert LinkFrom(h, levels, above, d, n - 1, path);
      row := less + [path];
      forall at: nat | at < n ensures LinkFrom(h, levels, above, d, at, row[at]) {
        assert at < n - 1 ==> row[at] == less[at];
      }
    }
  }

  lemma {:induction false} MakeTable(h: Heap, value: Id, levels: seq<seq<Id>>, n: nat) returns (table: seq<seq<Path>>)
    requires Partial(h, value, levels) && n <= |levels|
    ensures IsTable(h, levels, table) && |table| == n
  {
    if n == 0 {
      table := [];
    } else if n == 1 {
      table := [[[]]];
    } else {
      var less := MakeTable(h, value, levels, n - 1);
      var row := NextRow(h, levels, less[n - 2], n - 1, |levels[n - 1]|);
      table := less + [row];
      forall d: nat, at: nat | 0 < d < |table| && at < |table[d]| ensures LinkAt(h, levels, table, d, at) {
        if d < n - 1 {
          assert LinkAt(h, levels, less, d, at);
          assert table[d] == less[d] && table[d - 1] == less[d - 1];
        } else {
          assert table[d] == row && table[d - 1] == less[d - 1];
          assert LinkFrom(h, levels, less[d - 1], d, at, row[at]);
        }
      }
    }
  }

  lemma {:induction false} PathLength(h: Heap, levels: seq<seq<Id>>, table: seq<seq<Path>>, d: nat, at: nat)
    requires Climbable(h, levels) && IsTable(h, levels, table) && d < |table| && at < |levels[d]|
    ensures |table[d][at]| == d
    decreases d
  {
    if d > 0 {
      var p, o := HangsSomewhere(h, levels, d, at);
      LinkStep(h, levels, table, d, at, p, o);
      PathLength(h, levels, table, d - 1, p);
    }
  }

  lemma FollowStep(h: Heap, value: Id, path: Path, step: Step)
    ensures Follow(h, value, path + [step]) ==
            match Follow(h, value, path)
            case None => None
            case Some(x) =>
              var i := OffsetOf(At(h, x), step);
              if i.Some? && i.value < |Kids(h, x)| then Some(Kids(h, x)[i.value]) else None
  {
    assert (path + [step])[..|path|] == path;
  }

  /** A listed path leads to the container it is listed for. */
  lemma {:induction false} PathLeads(h: Heap, value: Id, levels: seq<seq<Id>>, table: seq<seq<Path>>, d: nat, at: nat)
    requires DictsOk(h) && Partial(h, value, levels) && IsTable(h, levels, table) && d < |table| && at < |levels[d]|
    ensures Follow(h, value, table[d][at]) == Some(levels[d][at])
    decreases d
  {
    if d > 0 {
      var p, o := HangsSomewhere(h, levels, d, at);
      LinkStep(h, levels, table, d, at, p, o);
      PathLeads(h, value, levels, table, d - 1, p);
      HangsIs(h, levels, d, at, p, o);
      var x := levels[d - 1][p];
      assert DictOk(At(h, x));
      StepIsOffset(At(h, x), o);
      FollowStep(h, value, table[d - 1][p], StepTo(At(h, x), o));
    }
  }

  lemma PlaceOf(h: Heap, levels: seq<seq<Id>>, d: nat, p: nat, o: nat) returns (at: nat)
    requires Climbable(h, levels) && 0 < d < |levels| && p < |levels[d - 1]| && o < |Kids(h, levels[d - 1][p])|
    requires IsNode(h, Kids(h, levels[d - 1][p])[o])
    ensures Hangs(h, levels, d, at, p, o) && at < |levels[d]| && levels[d][at] == Kids(h, levels[d - 1][p])[o]
  {
    var level := levels[d - 1];
    var x := Upto(h, level, p) + o;
    FlatAt(h, level, x, p, o);
    PlacesAre(h, Flat(h, level), |Flat(h, level)|);
    assert x in Positions(h, level);
    at :| 0 <= at < |Positions(h, level)| && Positions(h, level)[at] == x;
    HangsIs(h, levels, d, at, p, o);
  }

  /** Every path to a container is the path of some place in the walk. */
  lemma {:induction false} PathFound(h: Heap, value: Id, levels: seq<seq<Id>>, table: seq<seq<Path>>, path: Path) returns (at: nat)
    requires DictsOk(h) && Chain(h, value, levels) && IsTable(h, levels, table) && |table| == |levels|
    requires Follow(h, value, path).Some? && IsNode(h, Follow(h, value, path).value)
    ensures |path| < |levels| && at < |levels[|path|]| && levels[|path|][at] == Follow(h, value, path).value
    ensures table[|path|][at] == path
    decreases |path|
  {
    if path == [] {
      at := 0;
    } else {
      var d := |path|;
      var up := path[..d - 1];
      assert path == up + [path[d - 1]];
      FollowStep(h, value, up, path[d - 1]);
      var x := Follow(h, value, up).value;
      assert IsNode(h, x);
      var p := PathFound(h, value, levels, table, up);
      assert DictOk(At(h, x));
      var o := OffsetOf(At(h, x), path[d - 1]).value;
      OffsetIsStep(At(h, x), path[d - 1]);
      HeldBelow(h, value, levels, d - 1, x, Kids(h, x)[o]);
      at := PlaceOf(h, levels, d, p, o);
      LinkStep(h, levels, table, d, at, p, o);
    }
  }

  lemma SameStep(h: Heap, x: Id, o: nat, o': nat)
    requires DictsOk(h) && o < |Kids(h, x)| && o' < |Kids(h, x)| && StepTo(At(h, x), o) == StepTo(At(h, x), o')
    ensures o == o'
  {
    assert DictOk(At(h, x));
    StepIsOffset(At(h, x), o);
    StepIsOffset(At(h, x), o');
  }

  lemma SamePlace(h: Heap, levels: seq<seq<Id>>, d: nat, at: nat, at': nat, p: nat, o: nat)
    requires Hangs(h, levels, d, at, p, o) && Hangs(h, levels, d, at', p, o)
    ensures at == at'
  {
    var flat := Flat(h, levels[d - 1]);
    PlacesAre(h, flat, |flat|);
  }

  /** No two places of a level have the same path. */
  lemma {:induction false} PathsDiffer(
    h: Heap, value: Id, levels: seq<seq<Id>>, table: seq<seq<Path>>, d: nat, at: nat, at': nat)
    requires DictsOk(h) && Partial(h, value, levels) && IsTable(h, levels, table) && d < |table|
    requires at < |levels[d]| && at' < |levels[d]| && table[d][at] == table[d][at']
    ensures at == at'
    decreases d
  {
    if d > 0 {
      var p, o := HangsSomewhere(h, levels, d, at);
      var p', o' := HangsSomewhere(h, levels, d, at');
      LinkStep(h, levels, table, d, at, p, o);
      LinkStep(h, levels, table, d, at', p', o');
      SplitLast(table[d - 1][p], StepTo(At(h, levels[d - 1][p]), o),
                table[d - 1][p'], StepTo(At(h, levels[d - 1][p']), o'));
      PathsDiffer(h, value, levels, table, d - 1, p, p');
      SameStep(h, levels[d - 1][p], o, o');
      SamePlace(h, levels, d, at, at', p, o);
    }
  }

  lemma SplitLast(a: Path, s: Step, b: Path, t: Step)
    requires a + [s] == b + [t]
    ensures a == b && s == t
  {
    assert a == (a + [s])[..|a + [s]| - 1];
    assert b == (b + [t])[..|b + [t]| - 1];
    assert s == (a + [s])[|a|] && t == (b + [t])[|b|];
  }

  // ---- The search --------------------------------------------------------

  /** `bisect.bisect_right`. */
  method BisectRight(a: seq<nat>, x: nat) returns (r: nat)
    requires forall i, j | 0 <= i < j < |a| :: a[i] <= a[j]
    ensures r <= |a| && (forall i | 0 <= i < r :: a[i] <= x) && (forall i | r <= i < |a| :: x < a[i])
  {
    var lo, hi := 0, |a|;
    while lo < hi
      invariant 0 <= lo <= hi <= |a|
      invariant forall i | 0 <= i < lo :: a[i] <= x
      invariant forall i | hi <= i < |a| :: x < a[i]
    {
      var mid := (lo + hi) / 2;
      if x < a[mid] {
        hi := mid;
      } else {
        lo := mid + 1;
      }
    }
    r := lo;
  }

  ghost predicate AreEnds(h: Heap, level: seq<Id>, ends: seq<nat>)
  {
    |ends| == |level| && forall i | 0 <= i < |ends| :: ends[i] == Upto(h, level, i + 1)
  }

  /** `accumulate(map(len, level))`. */
  method Ends(h: Heap, level: seq<Id>) returns (ends: seq<nat>)
    ensures AreEnds(h, level, ends)
  {
    ends := [];
    var total := 0;
    for i := 0 to |level|
      invariant |ends| == i && total == Upto(h, level, i)
      invariant forall j | 0 <= j < i :: ends[j] == Upto(h, level, j + 1)
    {
      total := total + |Kids(h, level[i])|;
      ends := ends + [total];
    }
  }

  /** Running counts put a flat position in its container, past the empty ones. */
  lemma BisectOwner(h: Heap, level: seq<Id>, ends: seq<nat>, x: nat, p: nat)
    requires AreEnds(h, level, ends) && x < Upto(h, level, |level|) && p <= |ends|
    requires (forall i | 0 <= i < p :: ends[i] <= x) && (forall i | p <= i < |ends| :: x < ends[i])
    ensures Sits(h, level, x, p, x - (if p == 0 then 0 else ends[p - 1]))
  {
    assert |level| > 0 && ends[|level| - 1] == Upto(h, level, |level|);
    assert x < ends[p] == Upto(h, level, p + 1) == Upto(h, level, p) + |Kids(h, level[p])|;
    assert p > 0 ==> ends[p - 1] == Upto(h, level, p);
  }

  lemma EndsSorted(h: Heap, level: seq<Id>, ends: seq<nat>)
    requires AreEnds(h, level, ends)
    ensures forall i, j | 0 <= i < j < |ends| :: ends[i] <= ends[j]
  {
    forall i, j | 0 <= i < j < |ends| ensures ends[i] <= ends[j] {
      UptoGrows(h, level, i + 1, j + 1);
    }
  }

  /** One level of the search: its containers, where they sit in the level above, and its running counts once asked for. */
  datatype Row = Row(level: seq<Id>, positions: seq<nat>, ends: Option<seq<nat>>)

  ghost predicate RowsOk(h: Heap, levels: seq<seq<Id>>, rows: seq<Row>)
  {
    && |rows| <= |levels|
    && forall k {:trigger RowOk(h, levels, rows[k], k)} | 0 <= k < |rows| :: RowOk(h, levels, rows[k], k)
  }

  ghost predicate RowOk(h: Heap, levels: seq<seq<Id>>, row: Row, k: nat)
    requires k < |levels|
  {
    && row.level == levels[k]
    && (k > 0 ==> row.positions == Positions(h, levels[k - 1]))
    && (row.ends.Some? ==> AreEnds(h, row.level, row.ends.value))
  }

  /** The running counts of a row, computed on first use. */
  method EndsOf(h: Heap, ghost levels: seq<seq<Id>>, rows: seq<Row>, k: nat) returns (ends: seq<nat>, filled: seq<Row>)
    requires RowsOk(h, levels, rows) && k < |rows|
    ensures AreEnds(h, levels[k], ends) && RowsOk(h, levels, filled) && |filled| == |rows|
    ensures forall i, j | 0 <= i < j < |ends| :: ends[i] <= ends[j]
  {
    filled := rows;
    assert RowOk(h, levels, rows[k], k);
    if rows[k].ends.None? {
      ends := Ends(h, rows[k].level);
      filled := rows[k := rows[k].(ends := Some(ends))];
    } else {
      ends := rows[k].ends.value;
    }
    EndsSorted(h, levels[k], ends);
  }

  /** One turn of `_path_to`: from a container to the one that holds it, found in the running counts. */
  method Climb(h: Heap, ghost value: Id, ghost levels: seq<seq<Id>>, rows: seq<Row>, depth: nat, at: nat)
    returns (step: Step, parent: nat, filled: seq<Row>, ghost offset: nat)
    requires Partial(h, value, levels) && RowsOk(h, levels, rows) && 0 < depth < |rows| && at < |levels[depth]|
    ensures RowsOk(h, levels, filled) && |filled| == |rows| && parent < |levels[depth - 1]|
    ensures Hangs(h, levels, depth, at, parent, offset) && step == StepTo(At(h, levels[depth - 1][parent]), offset)
  {
    RowPositions(h, value, levels, rows, depth, at);
    var x := rows[depth].positions[at];
    var above := rows[depth - 1].level;
    var ends;
    ends, filled := EndsOf(h, levels, rows, depth - 1);
    parent := BisectRight(ends, x);
    BisectOwner(h, above, ends, x, parent);
    var o := x - if parent > 0 then ends[parent - 1] else 0;
    step, offset := StepTo(At(h, above[parent]), o), o;
  }

  /** `_path_to`: climbs from the last level to the top, filling in running counts on first use. */
  method PathTo(
    h: Heap, ghost value: Id, ghost levels: seq<seq<Id>>, ghost table: seq<seq<Path>>, rows: seq<Row>, last: nat)
    returns (path: Path, filled: seq<Row>)
    requires Partial(h, value, levels) && RowsOk(h, levels, rows) && rows != []
    requires IsTable(h, levels, table) && |table| == |levels| && last < |levels[|rows| - 1]|
    ensures path == table[|rows| - 1][last] && RowsOk(h, levels, filled) && |filled| == |rows|
  {
    var at: nat := last;
    path, filled := [], rows;
    var depth := |rows| - 1;
    ghost var whole := table[depth][at];
    SplitEnd(whole);
    while depth > 0
      invariant 0 <= depth < |rows| && RowsOk(h, levels, filled) && |filled| == |rows| && at < |levels[depth]|
      invariant Splits(whole, table[depth][at], path)
    {
      var step, parent;
      ghost var offset;
      step, parent, filled, offset := Climb(h, value, levels, filled, depth, at);
      LinkStep(h, levels, table, depth, at, parent, offset);
      SplitUp(whole, table[depth - 1][parent], step, path);
      path := [step] + path;
      at, depth := parent, depth - 1;
    }
    SplitTop(whole, path);
  }

  ghost predicate Splits(whole: Path, up: Path, down: Path)
  {
    whole == up + down
  }

  lemma SplitEnd(whole: Path)
    ensures Splits(whole, whole, [])
  {
  }

  lemma SplitTop(whole: Path, path: Path)
    requires Splits(whole, [], path)
    ensures whole == path
  {
  }

  lemma SplitUp(whole: Path, over: Path, s: Step, down: Path)
    requires Splits(whole, over + [s], down)
    ensures Splits(whole, over, [s] + down)
  {
  }

  lemma RowPositions(h: Heap, value: Id, levels: seq<seq<Id>>, rows: seq<Row>, d: nat, at: nat)
    requires Partial(h, value, levels) && RowsOk(h, levels, rows) && 0 < d < |rows| && at < |levels[d]|
    ensures rows[d].positions == Positions(h, levels[d - 1]) && at < |rows[d].positions|
    ensures rows[d].positions[at] < Upto(h, levels[d - 1], |levels[d - 1]|)
    ensures rows[d - 1].level == levels[d - 1]
  {
    assert RowOk(h, levels, rows[d], d) && RowOk(h, levels, rows[d - 1], d - 1);
    assert Linked(h, levels, d);
    PositionsAre(h, levels[d - 1]);
  }

  // ---- All the paths -----------------------------------------------------

  ghost predicate NoRepeat(s: seq<Path>)
  {
    forall i, j | 0 <= i < j < |s| :: s[i] != s[j]
  }

  /** The paths listed for `y` among the first `n` of a level's containers, `paths` being theirs. */
  ghost function Where(ids: seq<Id>, paths: seq<Path>, y: Id, n: nat): seq<Path>
    requires n <= |ids| == |paths|
  {
    if n == 0 then []
    else Where(ids, paths, y, n - 1) + if ids[n - 1] == y then [paths[n - 1]] else []
  }

  /** `p` is listed for `y` at one of the first `n` places. */
  ghost predicate Place(ids: seq<Id>, paths: seq<Path>, y: Id, n: nat, p: Path)
    requires n <= |ids| == |paths|
  {
    exists at :: 0 <= at < n && ids[at] == y && p == paths[at]
  }

  lemma {:induction false} WhereIs(ids: seq<Id>, paths: seq<Path>, y: Id, n: nat)
    requires n <= |ids| == |paths| && NoRepeat(paths)
    ensures forall p: Path :: p in Where(ids, paths, y, n) <==> Place(ids, paths, y, n, p)
    ensures NoRepeat(Where(ids, paths, y, n))
  {
    if n > 0 {
      WhereIs(ids, paths, y, n - 1);
      var less := Where(ids, paths, y, n - 1);
      forall p: Path
        ensures Place(ids, paths, y, n, p) <==> Place(ids, paths, y, n - 1, p) || (ids[n - 1] == y && p == paths[n - 1])
      {
      }
      assert paths[n - 1] !in less;
      JoinNoRepeat(less, if ids[n - 1] == y then [paths[n - 1]] else []);
    }
  }

  lemma RowPathsAre(h: Heap, value: Id, levels: seq<seq<Id>>, table: seq<seq<Path>>, d: nat)
    requires DictsOk(h) && Partial(h, value, levels) && IsTable(h, levels, table) && d < |table|
    ensures NoRepeat(table[d]) && forall p <- table[d] :: |p| == d
  {
    var r := table[d];
    forall i, j | 0 <= i < j < |r| ensures r[i] != r[j] {
      if r[i] == r[j] {
        PathsDiffer(h, value, levels, table, d, i, j);
      }
    }
    forall p <- r ensures |p| == d {
      var at :| 0 <= at < |r| && r[at] == p;
      PathLength(h, levels, table, d, at);
    }
  }

  /** A table with a path for each container. */
  ghost predicate Fits(levels: seq<seq<Id>>, table: seq<seq<Path>>)
  {
    |table| == |levels| && forall d {:trigger table[d]} {:trigger levels[d]} | 0 <= d < |table| :: |table[d]| == |levels[d]|
  }

  /** The paths to `y` in the first `d` levels, from the top down. */
  ghost function Listing(levels: seq<seq<Id>>, table: seq<seq<Path>>, y: Id, d: nat): seq<Path>
    requires Fits(levels, table) && d <= |levels|
  {
    if d == 0 then [] else Listing(levels, table, y, d - 1) + Where(levels[d - 1], table[d - 1], y, |levels[d - 1]|)
  }

  /** `p` is the path of a place of level `d` that holds `y`. */
  ghost predicate PlaceAt(levels: seq<seq<Id>>, table: seq<seq<Path>>, y: Id, d: nat, p: Path)
    requires Fits(levels, table)
  {
    d < |levels| && Place(levels[d], table[d], y, |levels[d]|, p)
  }

  lemma JoinNoRepeat(a: seq<Path>, b: seq<Path>)
    requires NoRepeat(a) && NoRepeat(b) && forall p <- a :: p !in b
    ensures NoRepeat(a + b)
  {
    assert forall i | 0 <= i < |a| :: a[i] in a;
    assert forall i | 0 <= i < |b| :: b[i] in b;
  }

  /** Every row has its own paths, as long as its depth. */
  ghost predicate RowsApart(table: seq<seq<Path>>)
  {
    forall d {:trigger table[d]} | 0 <= d < |table| :: NoRepeat(table[d]) && forall p <- table[d] :: |p| == d
  }

  /** Level by level, a listing has each path to `y` once. */
  lemma {:induction false} ListingIs(levels: seq<seq<Id>>, table: seq<seq<Path>>, y: Id, d: nat)
    requires Fits(levels, table) && RowsApart(table) && d <= |levels|
    ensures ListsAll(levels, table, y, d, Listing(levels, table, y, d))
  {
    if d > 0 {
      ListingIs(levels, table, y, d - 1);
      WhereIs(levels[d - 1], table[d - 1], y, |levels[d - 1]|);
      ListingStep(levels, table, y, d, Listing(levels, table, y, d - 1), Where(levels[d - 1], table[d - 1], y, |levels[d - 1]|));
    }
  }

  /** `listed` holds the paths of the places of the first `d` levels that hold `y`, each once. */
  ghost predicate ListsAll(levels: seq<seq<Id>>, table: seq<seq<Path>>, y: Id, d: nat, listed: seq<Path>)
    requires Fits(levels, table)
  {
    NoRepeat(listed) && forall p: Path :: p in listed <==> |p| < d && PlaceAt(levels, table, y, |p|, p)
  }

  lemma ListingStep(levels: seq<seq<Id>>, table: seq<seq<Path>>, y: Id, d: nat, less: seq<Path>, more: seq<Path>)
    requires Fits(levels, table) && RowsApart(table) && 0 < d <= |levels| && ListsAll(levels, table, y, d - 1, less)
    requires NoRepeat(more) && forall p: Path :: p in more <==> Place(levels[d - 1], table[d - 1], y, |levels[d - 1]|, p)
    ensures ListsAll(levels, table, y, d, less + more)
  {
    forall p: Path | p in more ensures |p| == d - 1 {
      assert p in table[d - 1];
    }
    JoinNoRepeat(less, more);
    forall p: Path ensures p in less + more <==> |p| < d && PlaceAt(levels, table, y, |p|, p) {
      ListingJoin(levels, table, y, d, less, more, p);
    }
  }

  lemma ListingJoin(levels: seq<seq<Id>>, table: seq<seq<Path>>, y: Id, d: nat, less: seq<Path>, more: seq<Path>, p: Path)
    requires Fits(levels, table) && 0 < d <= |levels|
    requires p in less <==> |p| < d - 1 && PlaceAt(levels, table, y, |p|, p)
    requires p in more <==> Place(levels[d - 1], table[d - 1], y, |levels[d - 1]|, p)
    requires p in more ==> |p| == d - 1
    ensures p in less + more <==> |p| < d && PlaceAt(levels, table, y, |p|, p)
  {
  }

  /** The listing for a container is exact: each path that leads to it, once. */
  ghost predicate Exact(h: Heap, value: Id, y: Id, paths: seq<Path>)
  {
    NoRepeat(paths) && forall p: Path :: p in paths <==> Follow(h, value, p) == Some(y)
  }

  lemma FoundPlace(h: Heap, value: Id, levels: seq<seq<Id>>, table: seq<seq<Path>>, y: Id, p: Path)
    requires DictsOk(h) && Chain(h, value, levels) && IsTable(h, levels, table) && Fits(levels, table)
    requires IsNode(h, y) && Follow(h, value, p) == Some(y)
    ensures PlaceAt(levels, table, y, |p|, p)
  {
    var at := PathFound(h, value, levels, table, p);
  }

  lemma PlaceLeads(h: Heap, value: Id, levels: seq<seq<Id>>, table: seq<seq<Path>>, y: Id, d: nat, p: Path)
    requires DictsOk(h) && Partial(h, value, levels) && IsTable(h, levels, table) && Fits(levels, table)
    requires PlaceAt(levels, table, y, d, p)
    ensures Follow(h, value, p) == Some(y)
  {
    var at :| 0 <= at < |levels[d]| && levels[d][at] == y && p == table[d][at];
    PathLeads(h, value, levels, table, d, at);
  }

  lemma ListingExact(h: Heap, value: Id, levels: seq<seq<Id>>, table: seq<seq<Path>>, y: Id)
    requires DictsOk(h) && Chain(h, value, levels) && IsTable(h, levels, table) && Fits(levels, table) && IsNode(h, y)
    ensures Exact(h, value, y, Listing(levels, table, y, |levels|))
  {
    forall d | 0 <= d < |table| ensures NoRepeat(table[d]) && forall p <- table[d] :: |p| == d {
      RowPathsAre(h, value, levels, table, d);
    }
    ListingIs(levels, table, y, |levels|);
    forall p: Path ensures p in Listing(levels, table, y, |levels|) <==> Follow(h, value, p) == Some(y) {
      if Follow(h, value, p) == Some(y) {
        FoundPlace(h, value, levels, table, y, p);
      }
      if PlaceAt(levels, table, y, |p|, p) {
        PlaceLeads(h, value, levels, table, y, |p|, p);
      }
    }
  }

  // ---- `tree_paths` ------------------------------------------------------

  /** What has been found so far for `y`. */
  function Got(found: map<Id, seq<Path>>, y: Id): seq<Path>
  {
    if y in found then found[y] else []
  }

  /** After the first `n` containers of a level, on top of what was found `before` it. */
  ghost predicate FoundIn(
    level: seq<Id>, paths: seq<Path>, wanted: set<Id>, before: map<Id, seq<Path>>, found: map<Id, seq<Path>>, n: nat)
    requires n <= |level| == |paths|
  {
    && (forall y <- found :: y in wanted && (y in before || y in level) && found[y] != [])
    && (forall y: Id {:trigger GotIn(level, paths, before, found, y, n)} | y in wanted :: GotIn(level, paths, before, found, y, n))
  }

  ghost predicate GotIn(
    level: seq<Id>, paths: seq<Path>, before: map<Id, seq<Path>>, found: map<Id, seq<Path>>, y: Id, n: nat)
    requires n <= |level| == |paths|
  {
    Got(found, y) == Got(before, y) + Where(level, paths, y, n)
  }

  lemma GotMore(b: seq<Path>, w: seq<Path>, p: Path)
    ensures (b + w) + [p] == b + (w + [p]) && w + [] == w
  {
  }

  lemma FoundNone(level: seq<Id>, paths: seq<Path>, wanted: set<Id>, before: map<Id, seq<Path>>)
    requires |level| == |paths| && forall y <- before :: y in wanted && before[y] != []
    ensures FoundIn(level, paths, wanted, before, before, 0)
  {
    forall y: Id | y in wanted ensures GotIn(level, paths, before, before, y, 0) {
      assert Got(before, y) + [] == Got(before, y);
    }
  }

  lemma FoundMore(
    level: seq<Id>, paths: seq<Path>, wanted: set<Id>, before: map<Id, seq<Path>>,
    was: map<Id, seq<Path>>, found: map<Id, seq<Path>>, at: nat)
    requires at < |level| == |paths| && FoundIn(level, paths, wanted, before, was, at)
    requires if level[at] in wanted then found == was[level[at] := Got(was, level[at]) + [paths[at]]] else found == was
    ensures FoundIn(level, paths, wanted, before, found, at + 1)
  {
    forall y: Id | y in wanted ensures GotIn(level, paths, before, found, y, at + 1) {
      GotMore(Got(before, y), Where(level, paths, y, at), paths[at]);
      assert GotIn(level, paths, before, was, y, at);
    }
  }

  /** The wanted containers of the last level, each with its path. */
  method SearchLevel(
    h: Heap, ghost value: Id, ghost levels: seq<seq<Id>>, ghost table: seq<seq<Path>>, rows: seq<Row>, wanted: set<Id>,
    before: map<Id, seq<Path>>)
    returns (found: map<Id, seq<Path>>, filled: seq<Row>)
    requires Partial(h, value, levels) && IsTable(h, levels, table) && Fits(levels, table)
    requires RowsOk(h, levels, rows) && rows != []
    requires forall y <- before :: y in wanted && before[y] != []
    ensures RowsOk(h, levels, filled) && |filled| == |rows|
    ensures FoundIn(levels[|rows| - 1], table[|rows| - 1], wanted, before, found, |levels[|rows| - 1]|)
  {
    found, filled := before, rows;
    var level := rows[|rows| - 1].level;
    ghost var paths := table[|rows| - 1];
    LastRow(h, levels, rows);
    FoundNone(level, paths, wanted, before);
    for at := 0 to |level|
      invariant RowsOk(h, levels, filled) && |filled| == |rows| && FoundIn(level, paths, wanted, before, found, at)
    {
      ghost var was := found;
      if level[at] in wanted {
        var path;
        path, filled := PathTo(h, value, levels, table, filled, at);
        found := found[level[at] := Got(found, level[at]) + [path]];
      }
      FoundMore(level, paths, wanted, before, was, found, at);
    }
  }

  lemma LastRow(h: Heap, levels: seq<seq<Id>>, rows: seq<Row>)
    requires RowsOk(h, levels, rows) && rows != []
    ensures rows[|rows| - 1].level == levels[|rows| - 1]
  {
    assert RowOk(h, levels, rows[|rows| - 1], |rows| - 1);
  }

  /** What is found after the first `d` levels. */
  ghost predicate FoundOk(
    h: Heap, levels: seq<seq<Id>>, table: seq<seq<Path>>, wanted: set<Id>, found: map<Id, seq<Path>>, d: nat)
    requires Fits(levels, table) && d <= |levels|
  {
    && (forall y <- found :: y in wanted && found[y] != [] && IsNode(h, y))
    && (forall y: Id {:trigger Listed(levels, table, found, y, d)} | y in wanted :: Listed(levels, table, found, y, d))
  }

  ghost predicate Listed(levels: seq<seq<Id>>, table: seq<seq<Path>>, found: map<Id, seq<Path>>, y: Id, d: nat)
    requires Fits(levels, table) && d <= |levels|
  {
    Got(found, y) == Listing(levels, table, y, d)
  }

  lemma FoundLevel(
    h: Heap, value: Id, levels: seq<seq<Id>>, table: seq<seq<Path>>, wanted: set<Id>,
    before: map<Id, seq<Path>>, found: map<Id, seq<Path>>, d: nat)
    requires Partial(h, value, levels) && Fits(levels, table) && d < |levels| && FoundOk(h, levels, table, wanted, before, d)
    requires FoundIn(levels[d], table[d], wanted, before, found, |levels[d]|)
    ensures FoundOk(h, levels, table, wanted, found, d + 1)
  {
    forall y <- found ensures IsNode(h, y) {
      if y !in before {
        ChainNode(h, value, levels, d, y);
      }
    }
    forall y: Id | y in wanted ensures Listed(levels, table, found, y, d + 1) {
      assert Listed(levels, table, before, y, d);
      assert GotIn(levels[d], table[d], before, found, y, |levels[d]|);
    }
  }

  lemma RowAdded(h: Heap, levels: seq<seq<Id>>, rows: seq<Row>, row: Row)
    requires RowsOk(h, levels, rows) && |rows| < |levels| && RowOk(h, levels, row, |rows|)
    ensures RowsOk(h, levels, rows + [row])
  {
    var more := rows + [row];
    forall k | 0 <= k < |more| ensures RowOk(h, levels, more[k], k) {
      assert k < |rows| ==> more[k] == rows[k] && RowOk(h, levels, rows[k], k);
    }
  }

  /** The search of the levels of a walk, from the top down. */
  method SearchLevels(h: Heap, ghost value: Id, levels: seq<seq<Id>>, ghost table: seq<seq<Path>>, wanted: set<Id>)
    returns (found: map<Id, seq<Path>>)
    requires Partial(h, value, levels) && IsTable(h, levels, table) && Fits(levels, table)
    ensures FoundOk(h, levels, table, wanted, found, |levels|)
  {
    var rows: seq<Row> := [];
    found := map[];
    assert FoundOk(h, levels, table, wanted, found, 0);
    for d := 0 to |levels|
      invariant |rows| == d && RowsOk(h, levels, rows) && FoundOk(h, levels, table, wanted, found, d)
    {
      var row := Row(levels[d], if d == 0 then [] else Positions(h, levels[d - 1]), None);
      RowAdded(h, levels, rows, row);
      rows := rows + [row];
      ghost var before := found;
      found, rows := SearchLevel(h, value, levels, table, rows, wanted, found);
      FoundLevel(h, value, levels, table, wanted, before, found, d);
    }
  }

  /**
   * `tree_paths`: for each wanted container, every path that leads to it, each once; a wanted
   * container that is nowhere below has no entry. None exactly when the value is not an exact
   * list or dict of plain data.
   */
  method TreePaths(h: Heap, leaves: set<LeafTy>, value: Id, wanted: set<Id>) returns (r: Option<map<Id, seq<Path>>>)
    requires DictsOk(h)
    ensures r.Some? <==> Writable(h, value) && Plain(h, leaves, value, MAX_LEVELS)
    ensures r.Some? ==> forall y: Id | y in wanted && IsNode(h, y) :: Exact(h, value, y, Got(r.value, y))
    ensures r.Some? ==> forall y <- r.value :: y in wanted && IsNode(h, y) && r.value[y] != []
  {
    if !Writable(h, value) {
      return None;
    }
    var walk := TreeWalk(h, leaves, value, MAX_LEVELS);
    if walk.None? {
      return None;
    }
    ghost var table := MakeTable(h, value, walk.value, |walk.value|);
    var found := SearchLevels(h, value, walk.value, table, wanted);
    forall y: Id | y in wanted && IsNode(h, y) ensures Exact(h, value, y, Got(found, y)) {
      ListingExact(h, value, walk.value, table, y);
      assert Listed(walk.value, table, found, y, |walk.value|);
    }
    r := Some(found);
  }
}
