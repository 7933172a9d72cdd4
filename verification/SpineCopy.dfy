/**
 * `_spine_copy`: a copy of nested data that rebuilds only what can be written into.
 * It is deep-equal to the original and shares no list or dict with it.
 */
module SpineCopy {
  import opened Options
  import opened PlainHeap
  import opened SpineCheck
  import opened SpineRebuild
  import opened CopyMemo

  // ---- What the finished copy is -----------------------------------------

  /**
   * `h'` holds the walked part of `h` again, with every id sent through `made`: the same
   * types and keys, the mapped items; leaves are the same objects.
   */
  ghost predicate Image(h: Heap, levels: seq<seq<Id>>, h': Heap, made: map<Id, Id>)
  {
    && (forall c <- made :: IsNode(h, c) && TypeOf(At(h', made[c])) == TypeOf(At(h, c)))
    && (forall x <- h :: At(h', x) == At(h, x))
    && (forall j: nat, x: Id | j < |levels| && x in levels[j] :: Mirrored(h, h', made, x))
  }

  ghost predicate Mirrored(h: Heap, h': Heap, made: map<Id, Id>, x: Id)
  {
    && IsNode(h, x)
    && TypeOf(At(h', To(made, x))) == TypeOf(At(h, x))
    && KeysOf(h', To(made, x)) == KeysOf(h, x)
    && Kids(h', To(made, x)) == MapIds(made, Kids(h, x))
  }

  /** When the pass has reached the top, the new heap is the image of the old under `made`. */
  lemma DoneIsImage(m0: Mem, value: Id, levels: seq<seq<Id>>, m: Mem, made: map<Id, Id>)
    requires LevelDone(m0, value, levels, 0, m, made)
    ensures Image(m0.objs, levels, m.objs, made)
    ensures forall j: nat, x: Id | j < |levels| && x in levels[j] :: x in made <==> NeedsCopy(m0.objs, made, x)
  {
    assert levels[0][..|levels[0]|] == levels[0];
    forall c <- made ensures IsNode(m0.objs, c) && TypeOf(At(m.objs, made[c])) == TypeOf(At(m0.objs, c)) {
      assert IsCopy(m0, levels, m, made, c);
    }
    forall j: nat, x: Id | j < |levels| && x in levels[j]
      ensures Mirrored(m0.objs, m.objs, made, x)
      ensures x in made <==> NeedsCopy(m0.objs, made, x)
    {
      ChainNode(m0.objs, value, levels, j, x);
      assert Done(levels, 0, |levels[0]|, x);
      ItemsChange(m0, levels, m, made, x);
      assert x in made ==> IsCopy(m0, levels, m, made, x);
    }
  }

  lemma HeldPlain(h: Heap, leaves: set<LeafTy>, value: Id, levels: seq<seq<Id>>, j: nat, x: Id, c: Id)
    requires Chain(h, value, levels) && j < |levels| && LevelPlain(h, leaves, levels[j]) && x in levels[j] && c in Kids(h, x)
    ensures IsNode(h, c) ==> j + 1 < |levels| && c in levels[j + 1]
    ensures !IsNode(h, c) ==> IsLeafOf(h, leaves, c)
  {
    FlatHas(h, levels[j], x, c);
    HeldBelow(h, value, levels, j, x, c);
  }

  lemma SameLeaf(h: Heap, leaves: set<LeafTy>, levels: seq<seq<Id>>, h': Heap, made: map<Id, Id>, c: Id, n: nat)
    requires Image(h, levels, h', made) && IsLeafOf(h, leaves, c) && Absent !in leaves
    ensures To(made, c) == c && Unfold(h, c, n) == Unfold(h', c, n)
  {
    assert c !in made && At(h', c) == At(h, c);
  }

  lemma KeysUnfold(
    h: Heap, leaves: set<LeafTy>, levels: seq<seq<Id>>, h': Heap, made: map<Id, Id>, level: seq<Id>, x: Id, n: nat)
    requires Image(h, levels, h', made) && LevelPlain(h, leaves, level) && x in level && Absent !in leaves
    ensures SameKeys(h, h', x, n)
  {
    forall i | 0 <= i < |KeysOf(h, x)| ensures Unfold(h, KeysOf(h, x)[i], n) == Unfold(h', KeysOf(h, x)[i], n) {
      FlatKeysHas(h, level, x, KeysOf(h, x)[i]);
      SameLeaf(h, leaves, levels, h', made, KeysOf(h, x)[i], n);
    }
  }

  ghost predicate SameKeys(h: Heap, h': Heap, x: Id, n: nat)
  {
    forall i | 0 <= i < |KeysOf(h, x)| :: Unfold(h, KeysOf(h, x)[i], n) == Unfold(h', KeysOf(h, x)[i], n)
  }

  ghost predicate SameKids(h: Heap, h': Heap, made: map<Id, Id>, x: Id, n: nat)
  {
    forall i | 0 <= i < |Kids(h, x)| :: Unfold(h, Kids(h, x)[i], n) == Unfold(h', To(made, Kids(h, x)[i]), n)
  }

  /** What a container and its image hold unfolds alike. */
  ghost predicate SameBelow(h: Heap, h': Heap, made: map<Id, Id>, x: Id, n: nat)
  {
    SameKeys(h, h', x, n) && SameKids(h, h', made, x, n)
  }

  lemma SameStep(h: Heap, h': Heap, made: map<Id, Id>, x: Id, n: nat)
    requires Mirrored(h, h', made, x) && (n > 0 ==> SameBelow(h, h', made, x, n - 1))
    ensures Unfold(h, x, n) == Unfold(h', To(made, x), n)
  {
    if n > 0 {
      UnfoldStep(h, x, h', To(made, x), n);
    }
  }

  /** The image of a container unfolds to the same value. */
  lemma {:induction false} SameUnfold(
    h: Heap, leaves: set<LeafTy>, value: Id, limit: nat, levels: seq<seq<Id>>,
    h': Heap, made: map<Id, Id>, j: nat, x: Id, n: nat)
    requires IsWalk(h, leaves, value, limit, levels) && Absent !in leaves
    requires Image(h, levels, h', made) && j < |levels| && x in levels[j]
    ensures Unfold(h, x, n) == Unfold(h', To(made, x), n)
    decreases n, 0
  {
    if n > 0 {
      AllUnfold(h, leaves, value, limit, levels, h', made, j, x, n - 1);
    }
    SameStep(h, h', made, x, n);
  }

  lemma {:induction false} AllUnfold(
    h: Heap, leaves: set<LeafTy>, value: Id, limit: nat, levels: seq<seq<Id>>,
    h': Heap, made: map<Id, Id>, j: nat, x: Id, n: nat)
    requires IsWalk(h, leaves, value, limit, levels) && Absent !in leaves
    requires Image(h, levels, h', made) && j < |levels| && x in levels[j]
    ensures SameBelow(h, h', made, x, n)
    decreases n, 2
  {
    assert LevelPlain(h, leaves, levels[j]);
    KeysUnfold(h, leaves, levels, h', made, levels[j], x, n);
    KidsUnfold(h, leaves, value, limit, levels, h', made, j, x, n);
  }

  /** And so do the images of what it holds. */
  lemma {:induction false} KidsUnfold(
    h: Heap, leaves: set<LeafTy>, value: Id, limit: nat, levels: seq<seq<Id>>,
    h': Heap, made: map<Id, Id>, j: nat, x: Id, n: nat)
    requires IsWalk(h, leaves, value, limit, levels) && Absent !in leaves
    requires Image(h, levels, h', made) && j < |levels| && x in levels[j]
    ensures SameKids(h, h', made, x, n)
    decreases n, 1
  {
    assert LevelPlain(h, leaves, levels[j]);
    forall i | 0 <= i < |Kids(h, x)| ensures Unfold(h, Kids(h, x)[i], n) == Unfold(h', To(made, Kids(h, x)[i]), n) {
      var c := Kids(h, x)[i];
      HeldPlain(h, leaves, value, levels, j, x, c);
      if IsNode(h, c) {
        SameUnfold(h, leaves, value, limit, levels, h', made, j + 1, c, n);
      } else {
        SameLeaf(h, leaves, levels, h', made, c, n);
      }
    }
  }

  /** The flat list of a mapped level is the mapped flat list. */
  lemma {:induction false} SameFlat(h: Heap, h': Heap, made: map<Id, Id>, level: seq<Id>)
    requires forall x <- level :: Mirrored(h, h', made, x)
    ensures Flat(h', MapIds(made, level)) == MapIds(made, Flat(h, level))
    ensures FlatKeys(h', MapIds(made, level)) == FlatKeys(h, level)
  {
    if level != [] {
      var mapped, rest := MapIds(made, level), level[1..];
      SameFlat(h, h', made, rest);
      assert mapped[1..] == MapIds(made, rest);
      assert Mirrored(h, h', made, level[0]);
      assert Flat(h, level) == Kids(h, level[0]) + Flat(h, rest);
    }
  }

  ghost predicate SameType(h: Heap, h': Heap, made: map<Id, Id>, x: Id)
  {
    TypeOf(At(h', To(made, x))) == TypeOf(At(h, x))
  }

  /** Mapping keeps every type, and so which items are containers. */
  lemma {:induction false} SameNodes(h: Heap, h': Heap, made: map<Id, Id>, flat: seq<Id>)
    requires forall x <- flat :: SameType(h, h', made, x)
    ensures Nodes(h', MapIds(made, flat)) == MapIds(made, Nodes(h, flat))
  {
    if flat != [] {
      var first, rest := flat[0], flat[1..];
      assert SameType(h, h', made, first);
      SameNodes(h, h', made, rest);
      NodesCons(h', MapIds(made, flat), To(made, first), MapIds(made, rest));
      NodesCons(h, flat, first, rest);
      if IsNode(h, first) {
        assert MapIds(made, [first] + Nodes(h, rest)) == [To(made, first)] + MapIds(made, Nodes(h, rest));
      }
    }
  }

  lemma NodesCons(h: Heap, flat: seq<Id>, first: Id, rest: seq<Id>)
    requires flat == [first] + rest
    ensures Nodes(h, flat) == if IsNode(h, first) then [first] + Nodes(h, rest) else Nodes(h, rest)
  {
    assert flat[1..] == rest;
  }

  /** Whatever a plain level holds has the same type in the image. */
  lemma SameTypes(h: Heap, leaves: set<LeafTy>, levels: seq<seq<Id>>, h': Heap, made: map<Id, Id>, level: seq<Id>)
    requires Image(h, levels, h', made) && LevelPlain(h, leaves, level) && Absent !in leaves
    ensures forall x <- Flat(h, level) :: SameType(h, h', made, x)
    ensures forall k <- FlatKeys(h, level) :: IsLeafOf(h', leaves, k)
  {
    forall x <- Flat(h, level) ensures SameType(h, h', made, x) {
      assert IsLeafOf(h, leaves, x) || IsNode(h, x);
      assert x in h;
    }
    forall k <- FlatKeys(h, level) ensures IsLeafOf(h', leaves, k) {
      assert IsLeafOf(h, leaves, k);
      assert k in h;
    }
  }

  /** One level of the copy. */
  lemma SameLevel(h: Heap, leaves: set<LeafTy>, levels: seq<seq<Id>>, h': Heap, made: map<Id, Id>, j: nat)
    requires Image(h, levels, h', made) && j < |levels| && LevelPlain(h, leaves, levels[j]) && Absent !in leaves
    ensures LevelPlain(h', leaves, MapIds(made, levels[j]))
    ensures Nodes(h', Flat(h', MapIds(made, levels[j]))) == MapIds(made, Nodes(h, Flat(h, levels[j])))
  {
    SameTypes(h, leaves, levels, h', made, levels[j]);
    SameFlat(h, h', made, levels[j]);
    SameNodes(h, h', made, Flat(h, levels[j]));
    MappedPlain(h, leaves, h', made, levels[j]);
  }

  lemma MappedPlain(h: Heap, leaves: set<LeafTy>, h': Heap, made: map<Id, Id>, level: seq<Id>)
    requires LevelPlain(h, leaves, level)
    requires forall x <- Flat(h, level) :: SameType(h, h', made, x)
    requires forall k <- FlatKeys(h, level) :: IsLeafOf(h', leaves, k)
    requires Flat(h', MapIds(made, level)) == MapIds(made, Flat(h, level))
    requires FlatKeys(h', MapIds(made, level)) == FlatKeys(h, level)
    ensures LevelPlain(h', leaves, MapIds(made, level))
  {
    var flat := Flat(h, level);
    forall y <- Flat(h', MapIds(made, level)) ensures IsLeafOf(h', leaves, y) || IsNode(h', y) {
      var i :| 0 <= i < |flat| && y == To(made, flat[i]);
      assert flat[i] in flat;
      assert SameType(h, h', made, flat[i]);
      assert IsLeafOf(h, leaves, flat[i]) || IsNode(h, flat[i]);
    }
  }

  /** Every level of `mapped` is the level of `levels`, mapped. */
  ghost predicate MappedLevels(made: map<Id, Id>, levels: seq<seq<Id>>, mapped: seq<seq<Id>>)
  {
    |mapped| == |levels| && forall k | 0 <= k < |levels| :: mapped[k] == MapIds(made, levels[k])
  }

  ghost function MapLevels(made: map<Id, Id>, levels: seq<seq<Id>>): (r: seq<seq<Id>>)
    ensures MappedLevels(made, levels, r)
  {
    seq(|levels|, k requires 0 <= k < |levels| => MapIds(made, levels[k]))
  }

  lemma SameLink(
    h: Heap, leaves: set<LeafTy>, levels: seq<seq<Id>>, h': Heap, made: map<Id, Id>, mapped: seq<seq<Id>>, k: nat)
    requires Image(h, levels, h', made) && Absent !in leaves && 0 < k < |levels| && Linked(h, levels, k)
    requires |mapped| == |levels| && mapped[k - 1] == MapIds(made, levels[k - 1]) && mapped[k] == MapIds(made, levels[k])
    requires LevelPlain(h, leaves, levels[k - 1])
    ensures Linked(h', mapped, k)
  {
    SameLevel(h, leaves, levels, h', made, k - 1);
    LinkMapped(h, h', made, levels[k - 1], levels[k], mapped, k);
  }

  lemma LinkMapped(
    h: Heap, h': Heap, made: map<Id, Id>, above: seq<Id>, level: seq<Id>, mapped: seq<seq<Id>>, k: nat)
    requires 0 < k < |mapped| && mapped[k - 1] == MapIds(made, above) && mapped[k] == MapIds(made, level)
    requires level == Nodes(h, Flat(h, above))
    requires Nodes(h', Flat(h', MapIds(made, above))) == MapIds(made, Nodes(h, Flat(h, above)))
    ensures Linked(h', mapped, k)
  {
  }

  lemma SamePlain(
    h: Heap, leaves: set<LeafTy>, levels: seq<seq<Id>>, h': Heap, made: map<Id, Id>, mapped: seq<seq<Id>>)
    requires Image(h, levels, h', made) && AllPlain(h, leaves, levels) && Absent !in leaves
    requires MappedLevels(made, levels, mapped)
    ensures AllPlain(h', leaves, mapped)
  {
    forall k | 0 <= k < |mapped| ensures LevelPlain(h', leaves, mapped[k]) {
      assert LevelPlain(h, leaves, levels[k]);
      SameLevel(h, leaves, levels, h', made, k);
    }
  }

  /** The copy's levels are the original's, mapped. */
  lemma SameWalk(
    h: Heap, leaves: set<LeafTy>, value: Id, limit: nat,
    levels: seq<seq<Id>>, h': Heap, made: map<Id, Id>, mapped: seq<seq<Id>>)
    requires Image(h, levels, h', made) && IsWalk(h, leaves, value, limit, levels) && Absent !in leaves
    requires MappedLevels(made, levels, mapped)
    ensures IsWalk(h', leaves, To(made, value), limit, mapped)
  {
    SamePlain(h, leaves, levels, h', made, mapped);
    forall k: nat | 0 < k < |mapped| ensures Linked(h', mapped, k) {
      assert Linked(h, levels, k) && LevelPlain(h, leaves, levels[k - 1]);
      SameLink(h, leaves, levels, h', made, mapped, k);
    }
    var last := |levels| - 1;
    assert LevelPlain(h, leaves, levels[last]);
    SameLevel(h, leaves, levels, h', made, last);
    assert levels[0] == [value] && value in levels[0];
    assert Mirrored(h, h', made, value);
    assert mapped[0] == MapIds(made, levels[0]) == [To(made, value)];
    forall k: nat | 0 < k < |mapped| ensures mapped[k] != [] {
      assert levels[k] != [];
    }
  }

  /** Copies of different containers are different, and none is an old object. */
  lemma {:induction false} SameCount(m0: Mem, levels: seq<seq<Id>>, m: Mem, made: map<Id, Id>, s: seq<Id>, x: Id)
    requires Copies(m0, levels, m, made) && x in made && forall y <- s :: y in m0.objs
    ensures Count(MapIds(made, s), made[x]) == Count(s, x)
  {
    assert IsCopy(m0, levels, m, made, x);
    if s != [] {
      SameCount(m0, levels, m, made, s[1..], x);
      assert MapIds(made, s)[1..] == MapIds(made, s[1..]);
      assert s[0] in m0.objs;
    }
  }

  /** The value is JSON-like and no list or dict in it is met twice. */
  ghost predicate Once(h: Heap, leaves: set<LeafTy>, value: Id, limit: nat)
  {
    exists levels :: IsWalk(h, leaves, value, limit, levels) && NoRepeat(h, levels)
  }

  /**
   * `y` of `m` is a copy of `x` of `m0` that can be written into freely: it holds the same
   * values to every depth, and every list or dict reached from it is new.
   */
  ghost predicate Separate(m0: Mem, x: Id, m: Mem, y: Id)
  {
    && MemOk(m) && Extends(m0, m)
    && DeepEqual(m0.objs, x, m.objs, y)
    && (forall w: Id | Reaches(m.objs, y, w) && Writable(m.objs, w) :: w >= m0.next)
  }

  lemma CopyIsEqual(
    m0: Mem, leaves: set<LeafTy>, value: Id, limit: nat, levels: seq<seq<Id>>, m: Mem, made: map<Id, Id>, j: nat, x: Id)
    requires LevelDone(m0, value, levels, 0, m, made) && IsWalk(m0.objs, leaves, value, limit, levels)
    requires Absent !in leaves && j < |levels| && x in levels[j]
    ensures DeepEqual(m0.objs, x, m.objs, To(made, x))
  {
    DoneIsImage(m0, value, levels, m, made);
    forall n: nat ensures Unfold(m0.objs, x, n) == Unfold(m.objs, To(made, x), n) {
      SameUnfold(m0.objs, leaves, value, limit, levels, m.objs, made, j, x, n);
    }
  }

  lemma CopyIsSeparate(
    m0: Mem, leaves: set<LeafTy>, value: Id, limit: nat, levels: seq<seq<Id>>, m: Mem, made: map<Id, Id>)
    requires LevelDone(m0, value, levels, 0, m, made) && IsWalk(m0.objs, leaves, value, limit, levels)
    requires Absent !in leaves
    ensures Separate(m0, value, m, To(made, value))
  {
    DoneIsImage(m0, value, levels, m, made);
    CopyIsEqual(m0, leaves, value, limit, levels, m, made, 0, value);
    var mapped := MapLevels(made, levels);
    SameWalk(m0.objs, leaves, value, limit, levels, m.objs, made, mapped);
    forall w: Id | Reaches(m.objs, To(made, value), w) && Writable(m.objs, w)
      ensures w >= m0.next
    {
      var k := ReachedIsWalked(m.objs, To(made, value), mapped, w);
      var x := MadeFrom(m0, value, levels, m, made, mapped, k, w);
      assert IsCopy(m0, levels, m, made, x);
    }
  }

  /** What can be written into on a level of the copy was made for something on that level. */
  lemma MadeFrom(
    m0: Mem, value: Id, levels: seq<seq<Id>>, m: Mem, made: map<Id, Id>, mapped: seq<seq<Id>>, k: nat, w: Id) returns (x: Id)
    requires LevelDone(m0, value, levels, 0, m, made) && Image(m0.objs, levels, m.objs, made)
    requires MappedLevels(made, levels, mapped) && k < |mapped| && w in mapped[k] && Writable(m.objs, w)
    ensures x in levels[k] && x in made && made[x] == w
  {
    assert mapped[k] == MapIds(made, levels[k]);
    var i :| 0 <= i < |levels[k]| && w == To(made, levels[k][i]);
    x := levels[k][i];
    assert Mirrored(m0.objs, m.objs, made, x);
    assert levels[0][..|levels[0]|] == levels[0];
    assert Done(levels, 0, |levels[0]|, x);
  }

  /** In the copy, too, nothing that can be written into is met twice. */
  lemma CopyIsOnce(
    m0: Mem, leaves: set<LeafTy>, value: Id, limit: nat, levels: seq<seq<Id>>, m: Mem, made: map<Id, Id>)
    requires LevelDone(m0, value, levels, 0, m, made) && IsWalk(m0.objs, leaves, value, limit, levels)
    requires Absent !in leaves
    ensures Once(m.objs, leaves, To(made, value), limit)
  {
    DoneIsImage(m0, value, levels, m, made);
    var mapped := MapLevels(made, levels);
    SameWalk(m0.objs, leaves, value, limit, levels, m.objs, made, mapped);
    forall w: Id | Writable(m.objs, w)
      ensures Total(mapped, w) <= 1
    {
      if Total(mapped, w) > 0 {
        var k := MetSomewhere(mapped, |mapped|, w);
        var x := MadeFrom(m0, value, levels, m, made, mapped, k, w);
        SameTotal(m0, value, levels, m, made, mapped, |levels|, x);
        assert IsCopy(m0, levels, m, made, x);
      }
    }
  }

  lemma {:induction false} SameTotal(
    m0: Mem, value: Id, levels: seq<seq<Id>>, m: Mem, made: map<Id, Id>, mapped: seq<seq<Id>>, k: nat, x: Id)
    requires Copies(m0, levels, m, made) && Chain(m0.objs, value, levels) && MappedLevels(made, levels, mapped)
    requires k <= |levels| && x in made
    ensures Met(mapped, k, made[x]) == Met(levels, k, x)
  {
    if k > 0 {
      SameTotal(m0, value, levels, m, made, mapped, k - 1, x);
      forall y <- levels[k - 1] ensures y in m0.objs {
        ChainNode(m0.objs, value, levels, k - 1, y);
      }
      SameCount(m0, levels, m, made, levels[k - 1], x);
    }
  }

  // ---- The copy ----------------------------------------------------------

  predicate TuplesOnly(h: Heap, level: seq<Id>)
  {
    forall x <- level :: At(h, x).Tuple?
  }

  /** The level is tuples, over tuples and leaves. */
  predicate TuplesOverTuples(h: Heap, level: seq<Id>)
  {
    TuplesOnly(h, Nodes(h, Flat(h, level))) && TuplesOnly(h, level)
  }

  /** Level `k` and every level below it are tuples. */
  ghost predicate FrozenFrom(h: Heap, levels: seq<seq<Id>>, k: nat)
    decreases |levels| - k
  {
    k < |levels| ==> TuplesOverTuples(h, levels[k]) && FrozenFrom(h, levels, k + 1)
  }

  /** Which levels are tuples over tuples and leaves, all the way down (lines 1409, 1424-1425). */
  method FrozenLevels(h: Heap, levels: seq<seq<Id>>) returns (frozen: seq<bool>)
    requires |levels| > 0
    ensures |frozen| == |levels|
    ensures forall k: nat | k < |levels| :: frozen[k] <==> FrozenFrom(h, levels, k)
  {
    frozen := seq(|levels|, k requires 0 <= k < |levels| => TuplesOverTuples(h, levels[k]));
    var k := |levels| - 1;
    assert frozen[k] <==> FrozenFrom(h, levels, k);
    while k > 0
      invariant 0 <= k < |levels| && |frozen| == |levels|
      invariant forall i: nat | k <= i < |levels| :: frozen[i] <==> FrozenFrom(h, levels, i)
      invariant forall i | 0 <= i < k :: frozen[i] == TuplesOverTuples(h, levels[i])
    {
      k := k - 1;
      frozen := frozen[k := frozen[k] && frozen[k + 1]];
    }
  }

  /** A level of tuples over levels of tuples needs no copy. */
  lemma FrozenDone(m0: Mem, value: Id, levels: seq<seq<Id>>, k: nat, m: Mem)
    requires k < |levels| && LevelDone(m0, value, levels, k + 1, m, map[])
    requires TuplesOnly(m0.objs, levels[k])
    ensures LevelDone(m0, value, levels, k, m, map[])
    ensures MapIds(map[], levels[k]) == levels[k]
  {
    NextLevel(m0, value, levels, k + 1, m, map[]);
    var none: map<Id, Id> := map[];
    forall x: Id {:trigger Done(levels, k, |levels[k]|, x)} | Done(levels, k, |levels[k]|, x)
      ensures !NeedsCopy(m0.objs, none, x)
    {
      assert x in levels[k] || Done(levels, k, 0, x);
    }
  }

  /** The pass over the levels, from the last up (lines 1426-1477). */
  method Rebuild(m0: Mem, value: Id, levels: seq<seq<Id>>) returns (copy: Id, m: Mem, made: map<Id, Id>)
    requires MemOk(m0) && Chain(m0.objs, value, levels) && NoRepeat(m0.objs, levels)
    ensures LevelDone(m0, value, levels, 0, m, made)
    ensures copy == To(made, value)
  {
    var h := m0.objs;
    var frozen := FrozenLevels(h, levels);
    m, made := m0, map[];
    var k := |levels|;
    var newFlat := Flat(h, levels[k - 1]);
    var rebuilt := [];
    while k > 0
      invariant 0 <= k <= |levels|
      invariant LevelDone(m0, value, levels, k, m, made)
      invariant k == |levels| || frozen[k] ==> made == map[]
      invariant 0 < k < |levels| && !frozen[k] ==> newFlat == MapIds(made, Flat(h, levels[k - 1]))
      invariant k < |levels| ==> rebuilt == MapIds(made, levels[k])
    {
      k := k - 1;
      if frozen[k] {
        assert FrozenFrom(h, levels, k);
        FrozenDone(m0, value, levels, k, m);
        rebuilt := levels[k];
      } else if k + 1 == |levels| || frozen[k + 1] {
        rebuilt, m, made := CopyEach(m0, value, levels, k, m);
      } else {
        rebuilt, m, made := CopySlices(m0, value, levels, k, m, newFlat, made);
      }
      if k > 0 && !frozen[k] {
        var flat := Flat(h, levels[k - 1]);
        assert Linked(h, levels, k);
        forall c <- made ensures IsNode(h, c) {
          assert IsCopy(m0, levels, m, made, c);
        }
        if |flat| == |rebuilt| {
          AllNodes(h, flat);
          newFlat := rebuilt;
        } else {
          newFlat := PutAt(h, flat, rebuilt, made);
        }
      }
    }
    assert levels[0][0] == value;
    copy := rebuilt[0];
  }

  lemma {:induction false} NodesLength(h: Heap, flat: seq<Id>)
    ensures |Nodes(h, flat)| <= |flat|
  {
    if flat != [] {
      NodesLength(h, flat[1..]);
    }
  }

  lemma {:induction false} AllNodes(h: Heap, flat: seq<Id>)
    ensures |Nodes(h, flat)| == |flat| ==> Nodes(h, flat) == flat
  {
    if flat != [] {
      NodesLength(h, flat[1..]);
      AllNodes(h, flat[1..]);
    }
  }

  /** The counts cover the holders, or there is nothing for them to find. */
  ghost predicate CountsHold(h: Heap, levels: seq<seq<Id>>, unshared: nat, refs: Id -> nat)
    requires |levels| > 0
  {
    RefsCover(h, levels, unshared, refs) || NoRepeat(h, levels)
  }

  /**
   * `spine_copy`: a separate copy, exactly when the value is JSON-like over `leaves`, no list
   * or dict in it is met twice, and none that is the top or is counted over its base was copied for
   * another name. The memo then has the copy of every list and dict, and what it has is still held.
   * Otherwise nothing changes. A list or dict is copied a second time exactly when it is hidden.
   */
  method Copy(
    m0: Mem, leaves: set<LeafTy>, value: Id, memo0: map<Id, Id>, unshared: nat, refs: Id -> nat)
    returns (r: Option<Id>, m: Mem, memo: map<Id, Id>)
    requires MemOk(m0) && Absent !in leaves
    requires forall levels | IsWalk(m0.objs, leaves, value, MAX_LEVELS, levels) ::
               CountsHold(m0.objs, levels, unshared, refs)
    ensures r.Some? <==> exists levels :: IsWalk(m0.objs, leaves, value, MAX_LEVELS, levels)
                                          && NoRepeat(m0.objs, levels)
                                          && NoSuspectInMemo(m0.objs, levels, unshared, refs, memo0)
    ensures r.Some? ==> Separate(m0, value, m, r.value)
    ensures r.Some? ==> Once(m.objs, leaves, r.value, MAX_LEVELS)
    ensures r.Some? ==> forall x: Id | Reaches(m0.objs, value, x) && Writable(m0.objs, x) ::
                          x in memo && m0.next <= memo[x] < m.next && DeepEqual(m0.objs, x, m.objs, memo[x])
    ensures forall x <- memo :: x in memo0 || Reaches(m0.objs, value, x)
    ensures r.None? ==> m == m0 && memo == memo0
    ensures forall levels | IsWalk(m0.objs, leaves, value, MAX_LEVELS, levels) ::
              CopiedAgainIffHidden(m0.objs, levels, memo0, unshared, refs, r.Some?)
    ensures r.Some? ==> forall named | Kept(m0.objs, memo0, named) :: Kept(m.objs, memo, named + {value})
  {
    m, memo := m0, memo0;
    if !IsNode(m0.objs, value) {
      return None, m0, memo0;
    }
    var walk := TreeWalk(m0.objs, leaves, value, MAX_LEVELS);
    if walk.None? {
      return None, m0, memo0;
    }
    var levels := walk.value;
    forall ls | IsWalk(m0.objs, leaves, value, MAX_LEVELS, ls) ensures ls == levels {
      WalkUnique(m0.objs, value, ls, levels);
    }
    var twice := HeldTwice(m0.objs, value, levels, unshared, refs, memo0);
    AgainIsHidden(m0.objs, value, levels, memo0, unshared, refs, !twice);
    if twice {
      return None, m0, memo0;
    }
    var copy, made;
    copy, m, made := Rebuild(m0, value, levels);
    CopyIsSeparate(m0, leaves, value, MAX_LEVELS, levels, m, made);
    CopyIsOnce(m0, leaves, value, MAX_LEVELS, levels, m, made);
    MemoIsRight(m0, leaves, value, MAX_LEVELS, levels, m, made);
    forall named | Kept(m0.objs, memo0, named) ensures Kept(m.objs, memo0 + made, named + {value}) {
      StillKept(m0, value, levels, memo0, named, m, made);
    }
    return Some(copy), m, memo0 + made;
  }

  lemma MemoIsRight(
    m0: Mem, leaves: set<LeafTy>, value: Id, limit: nat, levels: seq<seq<Id>>, m: Mem, made: map<Id, Id>)
    requires LevelDone(m0, value, levels, 0, m, made) && IsWalk(m0.objs, leaves, value, limit, levels)
    requires Absent !in leaves
    ensures forall x <- made :: Reaches(m0.objs, value, x)
    ensures forall x: Id | Reaches(m0.objs, value, x) && Writable(m0.objs, x) ::
              x in made && m0.next <= made[x] < m.next && DeepEqual(m0.objs, x, m.objs, made[x])
  {
    forall x <- made ensures Reaches(m0.objs, value, x) {
      var k := MadeIsMet(m0, value, levels, m, made, x);
      ChainReach(m0.objs, value, levels, k);
    }
    forall x: Id | Reaches(m0.objs, value, x) && Writable(m0.objs, x)
      ensures x in made && m0.next <= made[x] < m.next && DeepEqual(m0.objs, x, m.objs, made[x])
    {
      var k := ReachedIsWalked(m0.objs, value, levels, x);
      WritableIsMade(m0, value, levels, m, made, k, x);
      CopyIsEqual(m0, leaves, value, limit, levels, m, made, k, x);
    }
  }

  lemma WritableIsMade(m0: Mem, value: Id, levels: seq<seq<Id>>, m: Mem, made: map<Id, Id>, k: nat, x: Id)
    requires LevelDone(m0, value, levels, 0, m, made) && k < |levels| && x in levels[k] && Writable(m0.objs, x)
    ensures x in made && m0.next <= made[x] < m.next
  {
    DoneIsImage(m0, value, levels, m, made);
    assert NeedsCopy(m0.objs, made, x);
    assert IsCopy(m0, levels, m, made, x);
  }

  /** Whatever names are held: a list or dict that was copied before is copied again exactly when it is hidden. */
  ghost predicate CopiedAgainIffHidden(
    h: Heap, levels: seq<seq<Id>>, memo: map<Id, Id>, unshared: nat, refs: Id -> nat, copied: bool)
  {
    forall named | SlotsRead(h, levels, named, unshared, refs) && Kept(h, memo, named) ::
      copied && !NotInMemo(h, levels, memo) <==> NoRepeat(h, levels) && Hidden(h, levels, memo, unshared, refs)
  }

  lemma AgainIsHidden(
    h: Heap, value: Id, levels: seq<seq<Id>>, memo: map<Id, Id>, unshared: nat, refs: Id -> nat, copied: bool)
    requires Chain(h, value, levels)
    requires copied <==> NoRepeat(h, levels) && NoSuspectInMemo(h, levels, unshared, refs, memo)
    ensures CopiedAgainIffHidden(h, levels, memo, unshared, refs, copied)
  {
    forall named | SlotsRead(h, levels, named, unshared, refs) && Kept(h, memo, named)
      ensures copied && !NotInMemo(h, levels, memo) <==> NoRepeat(h, levels) && Hidden(h, levels, memo, unshared, refs)
    {
      MemoPromise(h, value, levels, memo, named, unshared, refs);
    }
  }

  lemma MadeIsMet(m0: Mem, value: Id, levels: seq<seq<Id>>, m: Mem, made: map<Id, Id>, x: Id) returns (k: nat)
    requires LevelDone(m0, value, levels, 0, m, made) && x in made
    ensures k < |levels| && x in levels[k]
  {
    assert Done(levels, 0, |levels[0]|, x);
    assert levels[0][..|levels[0]|] == levels[0];
    k :| k < |levels| && x in levels[k];
  }

  /** What a container below the top needs copied, its holder needs copied too. */
  lemma MadeIsOwned(m0: Mem, value: Id, levels: seq<seq<Id>>, m: Mem, made: map<Id, Id>, x: Id)
    requires LevelDone(m0, value, levels, 0, m, made) && x in made && x != value
    ensures Owned(m0.objs, made, x)
  {
    DoneIsImage(m0, value, levels, m, made);
    var k := MadeIsMet(m0, value, levels, m, made, x);
    var p := HolderAbove(m0.objs, value, levels, k, x);
    assert NeedsCopy(m0.objs, made, p);
  }

  lemma OwnedStill(m0: Mem, m: Mem, memo: map<Id, Id>, memo': map<Id, Id>, x: Id)
    requires Extends(m0, m) && Owned(m0.objs, memo, x) && forall q <- memo :: q in memo'
    ensures Owned(m.objs, memo', x)
  {
    var q: Id :| q in memo && x in Kids(m0.objs, q);
    assert q in m0.objs;
  }

  lemma StillKept(
    m0: Mem, value: Id, levels: seq<seq<Id>>, memo0: map<Id, Id>, named: set<Id>, m: Mem, made: map<Id, Id>)
    requires LevelDone(m0, value, levels, 0, m, made) && Kept(m0.objs, memo0, named)
    ensures Kept(m.objs, memo0 + made, named + {value})
  {
    forall x <- memo0 + made ensures x in named + {value} || Owned(m.objs, memo0 + made, x) {
      if x !in named && x != value {
        if x in memo0 {
          OwnedStill(m0, m, memo0, memo0 + made, x);
        } else {
          MadeIsOwned(m0, value, levels, m, made, x);
          OwnedStill(m0, m, made, memo0 + made, x);
        }
      }
    }
  }

  // ---- A list that is copied twice ---------------------------------------

  /** `a = [t]` and `b = [t]` are copied one after the other, with one memo: the list in `t = ([1],)` is copied twice. */
  method CopiedTwice() returns (memo: map<Id, Id>, again: map<Id, Id>)
    ensures 3 in memo && 3 in again && memo[3] != again[3]
  {
    var refs := (x: Id) => if x == 2 then 3 else 2;
    var m0 := Mem(SHARED_TUPLE, 5);
    var m, m';
    m, memo := CopyShared(m0, 0, map[], refs);
    m', again := CopyShared(m, 1, memo, refs);
  }

  /** A list holding the tuple is copied, with every list in it, whatever was copied before but itself. */
  method CopyShared(m0: Mem, top: Id, memo0: map<Id, Id>, refs: Id -> nat) returns (m: Mem, memo: map<Id, Id>)
    requires MemOk(m0) && SharesTuple(m0.objs, top) && top !in memo0 && refs(2) == 3 && refs(3) == 2
    ensures MemOk(m) && Extends(m0, m) && 3 in memo && m0.next <= memo[3] < m.next
    ensures forall x <- memo :: x in memo0 || x == top || x == 2 || x == 3
  {
    var leaves := {Prim(0)};
    SharedWalk(m0.objs, leaves, top);
    forall ls | IsWalk(m0.objs, leaves, top, MAX_LEVELS, ls) ensures ls == [[top], [2], [3]] {
      WalkUnique(m0.objs, top, ls, [[top], [2], [3]]);
    }
    SharedSuspects(m0.objs, top, refs, memo0);
    var r;
    r, m, memo := Copy(m0, leaves, top, memo0, 2, refs);
    SharedReach(m0.objs, leaves, top, 3);
    forall x <- memo ensures x in memo0 || x == top || x == 2 || x == 3 {
      SharedReach(m0.objs, leaves, top, x);
    }
  }
}
