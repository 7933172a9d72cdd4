/**
 * The bottom-up half of `_spine_copy`. What it builds is described by one map, `made`,
 * from the containers it copied to their copies: the new heap holds the old one's
 * structure with every id sent through that map.
 */
module SpineRebuild {
  import opened PlainHeap
  import opened SpineCheck

  /** The heap, and the ids it has handed out so far. */
  datatype Mem = Mem(objs: Heap, next: Id)

  ghost predicate MemOk(m: Mem)
  {
    forall x <- m.objs :: x < m.next
  }

  /** The heap grew: no object changed. */
  ghost predicate Extends(m: Mem, m': Mem)
  {
    m.next <= m'.next && forall x <- m.objs :: x in m'.objs && m'.objs[x] == m.objs[x]
  }

  function To(made: map<Id, Id>, x: Id): Id
  {
    if x in made then made[x] else x
  }

  function MapIds(made: map<Id, Id>, s: seq<Id>): (r: seq<Id>)
    ensures |r| == |s|
    ensures forall i | 0 <= i < |s| :: r[i] == To(made, s[i])
  {
    seq(|s|, i requires 0 <= i < |s| => To(made, s[i]))
  }

  /** A container is copied when it can be written into or holds something copied. */
  predicate NeedsCopy(h: Heap, made: map<Id, Id>, x: Id)
  {
    Writable(h, x) || exists c <- Kids(h, x) :: c in made
  }

  /** `x` is at a level below `k`, or among the first `i` containers of level `k`. */
  predicate Done(levels: seq<seq<Id>>, k: nat, i: nat, x: Id)
    requires k < |levels| && i <= |levels[k]|
  {
    x in levels[k][..i] || exists j :: k < j < |levels| && x in levels[j]
  }

  /** Each copy is new, belongs to one original, and holds the copies of what that holds. */
  ghost predicate Copies(m0: Mem, levels: seq<seq<Id>>, m: Mem, made: map<Id, Id>)
  {
    && MemOk(m0) && MemOk(m) && Extends(m0, m)
    && (forall x <- made :: IsCopy(m0, levels, m, made, x))
    && (forall x, y | x in made && y in made && made[x] == made[y] :: x == y)
  }

  ghost predicate IsCopy(m0: Mem, levels: seq<seq<Id>>, m: Mem, made: map<Id, Id>, x: Id)
    requires x in made
  {
    && IsNode(m0.objs, x) && Total(levels, x) <= 1
    && m0.next <= made[x] < m.next && made[x] in m.objs
    && m.objs[made[x]] == WithItems(At(m0.objs, x), MapIds(made, Kids(m0.objs, x)))
  }

  /** Of the containers looked at so far, exactly those that need a copy have one. */
  ghost predicate UpTo(h: Heap, levels: seq<seq<Id>>, k: nat, i: nat, made: map<Id, Id>)
    requires k < |levels| && i <= |levels[k]|
  {
    && (forall x <- made :: Done(levels, k, i, x))
    && (forall x: Id {:trigger Done(levels, k, i, x)} | Done(levels, k, i, x) :: x in made <==> NeedsCopy(h, made, x))
  }

  // ---- One container -----------------------------------------------------

  /** A container met once is not among those done before its own place. */
  lemma NotBefore(levels: seq<seq<Id>>, k: nat, i: nat)
    requires k < |levels| && i < |levels[k]|
    requires Total(levels, levels[k][i]) <= 1
    ensures !Done(levels, k, i, levels[k][i])
  {
    var level, node := levels[k], levels[k][i];
    if node in level[..i] {
      assert level == level[..i] + level[i..];
      CountAppend(level[..i], level[i..], node);
      CountIn(level[..i], node);
      CountIn(level[i..], node);
      MetHas(levels, |levels|, k, node);
      assert false;
    }
    if j :| k < j < |levels| && node in levels[j] {
      MetTwice(levels, k, j, node);
      assert false;
    }
  }

  /** A container met once is not held by anything at its own level or below. */
  lemma NotHeldBy(h: Heap, value: Id, levels: seq<seq<Id>>, k: nat, node: Id, j: nat, x: Id)
    requires Chain(h, value, levels) && k <= j < |levels| && node in levels[k] && x in levels[j]
    requires Total(levels, node) <= 1
    ensures node !in Kids(h, x)
  {
    if node in Kids(h, x) {
      ChainNode(h, value, levels, k, node);
      HeldBelow(h, value, levels, j, x, node);
      MetTwice(levels, k, j + 1, node);
      assert false;
    }
  }

  lemma NotHeldByDone(h: Heap, value: Id, levels: seq<seq<Id>>, k: nat, i: nat, x: Id)
    requires Chain(h, value, levels) && k < |levels| && i < |levels[k]|
    requires Total(levels, levels[k][i]) <= 1 && Done(levels, k, i + 1, x)
    ensures levels[k][i] !in Kids(h, x)
  {
    if x in levels[k][..i + 1] {
      NotHeldBy(h, value, levels, k, levels[k][i], k, x);
    } else {
      var j :| k < j < |levels| && x in levels[j];
      NotHeldBy(h, value, levels, k, levels[k][i], j, x);
    }
  }

  /** Once a container is copied, everything holding it is met at most once too. */
  lemma NeedsCopyOnce(m0: Mem, value: Id, levels: seq<seq<Id>>, m: Mem, made: map<Id, Id>, x: Id)
    requires Copies(m0, levels, m, made) && Chain(m0.objs, value, levels) && NoRepeat(m0.objs, levels)
    requires NeedsCopy(m0.objs, made, x)
    ensures Total(levels, x) <= 1
  {
    if !Writable(m0.objs, x) {
      var c :| c in Kids(m0.objs, x) && c in made;
      assert IsCopy(m0, levels, m, made, c);
      MetBelow(m0.objs, value, levels, |levels|, x, c);
    }
  }

  lemma DoneNext(levels: seq<seq<Id>>, k: nat, i: nat, x: Id)
    requires k < |levels| && i < |levels[k]|
    ensures Done(levels, k, i + 1, x) <==> Done(levels, k, i, x) || x == levels[k][i]
  {
    assert levels[k][..i + 1] == levels[k][..i] + [levels[k][i]];
  }

  /** A container that needs no copy is passed on as it is. */
  lemma StepShare(h: Heap, levels: seq<seq<Id>>, k: nat, i: nat, made: map<Id, Id>)
    requires k < |levels| && i < |levels[k]|
    requires UpTo(h, levels, k, i, made) && !NeedsCopy(h, made, levels[k][i])
    ensures UpTo(h, levels, k, i + 1, made)
    ensures levels[k][i] !in made
  {
    forall x: Id
      ensures Done(levels, k, i + 1, x) <==> Done(levels, k, i, x) || x == levels[k][i]
    {
      DoneNext(levels, k, i, x);
    }
  }

  /** Copying a container that needs it: which containers have copies then. */
  lemma StepCopyUpTo(h: Heap, value: Id, levels: seq<seq<Id>>, k: nat, i: nat, made: map<Id, Id>, id: Id)
    requires Chain(h, value, levels) && k < |levels| && i < |levels[k]|
    requires UpTo(h, levels, k, i, made) && NeedsCopy(h, made, levels[k][i])
    requires Total(levels, levels[k][i]) <= 1
    ensures UpTo(h, levels, k, i + 1, made[levels[k][i] := id])
  {
    var node := levels[k][i];
    var made' := made[node := id];
    NotBefore(levels, k, i);
    forall x: Id {:trigger Done(levels, k, i + 1, x)}
      ensures Done(levels, k, i + 1, x) <==> Done(levels, k, i, x) || x == node
      ensures Done(levels, k, i + 1, x) ==> (NeedsCopy(h, made', x) <==> NeedsCopy(h, made, x))
    {
      DoneNext(levels, k, i, x);
      if Done(levels, k, i + 1, x) {
        NotHeldByDone(h, value, levels, k, i, x);
      }
    }
  }

  function Alloc(m: Mem, o: Obj): Mem
  {
    Mem(m.objs[m.next := o], m.next + 1)
  }

  /** Copying a container that needs it: the heap then. */
  lemma StepCopyMem(m0: Mem, levels: seq<seq<Id>>, m: Mem, made: map<Id, Id>, node: Id)
    requires Copies(m0, levels, m, made) && IsNode(m0.objs, node) && node !in made && Total(levels, node) <= 1
    requires forall x <- made :: node !in Kids(m0.objs, x)
    requires node !in Kids(m0.objs, node)
    ensures Copies(m0, levels, Alloc(m, WithItems(At(m0.objs, node), MapIds(made, Kids(m0.objs, node)))),
                   made[node := m.next])
  {
    var h := m0.objs;
    var made' := made[node := m.next];
    var m' := Alloc(m, WithItems(At(h, node), MapIds(made, Kids(h, node))));
    assert m.next !in m.objs;
    forall x <- made'
      ensures IsCopy(m0, levels, m', made', x)
    {
      assert MapIds(made', Kids(h, x)) == MapIds(made, Kids(h, x));
      assert x != node ==> IsCopy(m0, levels, m, made, x);
    }
    forall x, y | x in made' && y in made' && made'[x] == made'[y]
      ensures x == y
    {
      assert x != node ==> IsCopy(m0, levels, m, made, x);
      assert y != node ==> IsCopy(m0, levels, m, made, y);
    }
  }

  /** Copying one container that needs it keeps everything said of the copies. */
  lemma StepCopy(m0: Mem, value: Id, levels: seq<seq<Id>>, k: nat, i: nat, m: Mem, made: map<Id, Id>)
    requires Copies(m0, levels, m, made) && Chain(m0.objs, value, levels) && NoRepeat(m0.objs, levels)
    requires k < |levels| && i < |levels[k]|
    requires UpTo(m0.objs, levels, k, i, made) && NeedsCopy(m0.objs, made, levels[k][i])
    ensures var node := levels[k][i];
            var made' := made[node := m.next];
            var m' := Alloc(m, WithItems(At(m0.objs, node), MapIds(made, Kids(m0.objs, node))));
            && Copies(m0, levels, m', made') && UpTo(m0.objs, levels, k, i + 1, made')
            && !Done(levels, k, i, node) && Total(levels, node) <= 1
  {
    var h, node := m0.objs, levels[k][i];
    NeedsCopyOnce(m0, value, levels, m, made, node);
    NotBefore(levels, k, i);
    ChainNode(h, value, levels, k, node);
    StepCopyUpTo(h, value, levels, k, i, made, m.next);
    DoneNext(levels, k, i, node);
    NotHeldByDone(h, value, levels, k, i, node);
    forall x <- made
      ensures node !in Kids(h, x)
    {
      assert Done(levels, k, i, x);
      DoneNext(levels, k, i, x);
      NotHeldByDone(h, value, levels, k, i, x);
    }
    StepCopyMem(m0, levels, m, made, node);
  }

  /** A container holds something copied exactly when its items change under the map. */
  lemma ItemsChange(m0: Mem, levels: seq<seq<Id>>, m: Mem, made: map<Id, Id>, x: Id)
    requires Copies(m0, levels, m, made)
    ensures (exists c <- Kids(m0.objs, x) :: c in made) <==> MapIds(made, Kids(m0.objs, x)) != Kids(m0.objs, x)
  {
    var kids := Kids(m0.objs, x);
    if c :| c in kids && c in made {
      var j :| 0 <= j < |kids| && kids[j] == c;
      assert IsCopy(m0, levels, m, made, c);
      assert c in m0.objs;
      assert MapIds(made, kids)[j] == made[c] >= m0.next > c;
    } else {
      assert MapIds(made, kids) == kids;
    }
  }

  /** One more container of the level is placed, with its copy or as it is. */
  lemma Placed(levels: seq<seq<Id>>, k: nat, i: nat, made: map<Id, Id>, id: Id)
    requires k < |levels| && i < |levels[k]| && !Done(levels, k, i, levels[k][i])
    ensures MapIds(made[levels[k][i] := id], levels[k][..i + 1]) == MapIds(made, levels[k][..i]) + [id]
  {
    var node := levels[k][i];
    var made' := made[node := id];
    assert levels[k][..i + 1] == levels[k][..i] + [node];
    forall j | 0 <= j < i
      ensures To(made', levels[k][..i][j]) == To(made, levels[k][..i][j])
    {
      assert levels[k][..i][j] in levels[k][..i];
    }
  }

  /** Nothing at a level is held by anything at that level, when each copied container is met once. */
  lemma KidsKept(h: Heap, value: Id, levels: seq<seq<Id>>, k: nat, made: map<Id, Id>, x: Id)
    requires Chain(h, value, levels) && k < |levels| && x in levels[k]
    requires forall c <- made :: c in levels[k] && Total(levels, c) <= 1
    ensures MapIds(made, Kids(h, x)) == Kids(h, x)
  {
    var kids := Kids(h, x);
    forall j | 0 <= j < |kids|
      ensures To(made, kids[j]) == kids[j]
    {
      if kids[j] in made {
        NotHeldBy(h, value, levels, k, kids[j], k, x);
      }
    }
  }

  /** Copying a container changes no id in the flat list of its own level. */
  lemma FlatUnmoved(h: Heap, value: Id, levels: seq<seq<Id>>, k: nat, i: nat, made: map<Id, Id>, id: Id)
    requires Chain(h, value, levels) && k < |levels| && i < |levels[k]| && Total(levels, levels[k][i]) <= 1
    ensures MapIds(made[levels[k][i] := id], Flat(h, levels[k][i + 1..])) == MapIds(made, Flat(h, levels[k][i + 1..]))
  {
    var node := levels[k][i];
    if node in Flat(h, levels[k][i + 1..]) {
      var x := FlatFrom(h, levels[k][i + 1..], node);
      NotHeldBy(h, value, levels, k, node, k, x);
    }
  }

  /** From `at` on, `newFlat` has what the containers from `i` on hold, mapped. */
  ghost predicate SlicesFrom(h: Heap, level: seq<Id>, i: nat, newFlat: seq<Id>, at: int, made: map<Id, Id>)
    requires i <= |level|
  {
    0 <= at <= |newFlat| && newFlat[at..] == MapIds(made, Flat(h, level[i..]))
  }

  lemma SlicesStay(h: Heap, level: seq<Id>, i: nat, newFlat: seq<Id>, at: int, made: map<Id, Id>, made': map<Id, Id>)
    requires i <= |level| && SlicesFrom(h, level, i, newFlat, at, made)
    requires MapIds(made', Flat(h, level[i..])) == MapIds(made, Flat(h, level[i..]))
    ensures SlicesFrom(h, level, i, newFlat, at, made')
  {
  }

  lemma SliceIs(h: Heap, level: seq<Id>, i: nat, newFlat: seq<Id>, at: int, made: map<Id, Id>)
    requires i < |level| && SlicesFrom(h, level, i, newFlat, at, made)
    ensures var end := at + |Kids(h, level[i])|;
            && end <= |newFlat| && newFlat[at..end] == MapIds(made, Kids(h, level[i]))
            && SlicesFrom(h, level, i + 1, newFlat, end, made)
  {
    var kids, rest := Kids(h, level[i]), Flat(h, level[i + 1..]);
    assert level[i..][0] == level[i] && level[i..][1..] == level[i + 1..];
    assert Flat(h, level[i..]) == kids + rest;
    var all := MapIds(made, kids + rest);
    assert all[..|kids|] == MapIds(made, kids);
    assert all[|kids|..] == MapIds(made, rest);
    var end := at + |kids|;
    assert newFlat[at..end] == newFlat[at..][..|kids|];
    assert newFlat[end..] == newFlat[at..][|kids|..];
  }

  /** The copy of one container holding `part`; a tuple that holds just that already is passed on. */
  method CopyOne(m0: Mem, value: Id, levels: seq<seq<Id>>, k: nat, i: nat, m1: Mem, made1: map<Id, Id>, part: seq<Id>)
    returns (copied: Id, m: Mem, made: map<Id, Id>)
    requires Copies(m0, levels, m1, made1) && Chain(m0.objs, value, levels) && NoRepeat(m0.objs, levels)
    requires k < |levels| && i < |levels[k]| && UpTo(m0.objs, levels, k, i, made1)
    requires part == MapIds(made1, Kids(m0.objs, levels[k][i]))
    ensures Copies(m0, levels, m, made) && UpTo(m0.objs, levels, k, i + 1, made)
    ensures MapIds(made, levels[k][..i + 1]) == MapIds(made1, levels[k][..i]) + [copied]
    ensures MapIds(made, Flat(m0.objs, levels[k][i + 1..])) == MapIds(made1, Flat(m0.objs, levels[k][i + 1..]))
    ensures forall x <- made :: x in made1 || x == levels[k][i]
  {
    var node := levels[k][i];
    ChainNode(m0.objs, value, levels, k, node);
    ItemsChange(m0, levels, m1, made1, node);
    if At(m0.objs, node).Tuple? && part == Kids(m0.objs, node) {
      StepShare(m0.objs, levels, k, i, made1);
      assert levels[k][..i + 1] == levels[k][..i] + [node];
      copied, m, made := node, m1, made1;
    } else {
      StepCopy(m0, value, levels, k, i, m1, made1);
      Placed(levels, k, i, made1, m1.next);
      FlatUnmoved(m0.objs, value, levels, k, i, made1, m1.next);
      copied, m, made := m1.next, Alloc(m1, WithItems(At(m0.objs, node), part)), made1[node := m1.next];
    }
  }

  // ---- One level ---------------------------------------------------------

  /** Level `k` is done: the state between two levels of the bottom-up pass. */
  ghost predicate LevelDone(m0: Mem, value: Id, levels: seq<seq<Id>>, k: nat, m: Mem, made: map<Id, Id>)
  {
    && Chain(m0.objs, value, levels) && NoRepeat(m0.objs, levels)
    && Copies(m0, levels, m, made)
    && k <= |levels|
    && (k == |levels| ==> made == map[])
    && (k < |levels| ==> UpTo(m0.objs, levels, k, |levels[k]|, made))
  }

  /** Nothing of the next level up is looked at yet. */
  lemma NextLevel(m0: Mem, value: Id, levels: seq<seq<Id>>, k: nat, m: Mem, made: map<Id, Id>)
    requires 0 < k && LevelDone(m0, value, levels, k, m, made)
    ensures UpTo(m0.objs, levels, k - 1, 0, made)
  {
    forall x: Id {:trigger Done(levels, k - 1, 0, x)}
      ensures Done(levels, k - 1, 0, x) <==> k < |levels| && Done(levels, k, |levels[k]|, x)
    {
      if k < |levels| {
        assert levels[k][..|levels[k]|] == levels[k];
      }
    }
  }

  /**
   * A level whose items are shared: each list and dict is copied on its own, tuples are
   * passed on (lines 1430-1446).
   */
  method CopyEach(m0: Mem, value: Id, levels: seq<seq<Id>>, k: nat, m1: Mem)
    returns (rebuilt: seq<Id>, m: Mem, made: map<Id, Id>)
    requires k < |levels| && LevelDone(m0, value, levels, k + 1, m1, map[])
    ensures LevelDone(m0, value, levels, k, m, made)
    ensures rebuilt == MapIds(made, levels[k])
  {
    rebuilt, m, made := [], m1, map[];
    NextLevel(m0, value, levels, k + 1, m, made);
    for i := 0 to |levels[k]|
      invariant Copies(m0, levels, m, made) && UpTo(m0.objs, levels, k, i, made)
      invariant forall x <- made :: x in levels[k]
      invariant rebuilt == MapIds(made, levels[k][..i])
    {
      assert forall c <- made :: IsCopy(m0, levels, m, made, c);
      KidsKept(m0.objs, value, levels, k, made, levels[k][i]);
      var copied;
      copied, m, made := CopyOne(m0, value, levels, k, i, m, made, Kids(m0.objs, levels[k][i]));
      rebuilt := rebuilt + [copied];
    }
    assert levels[k][..|levels[k]|] == levels[k];
  }

  /** The slice of one container, and the copy that holds it. */
  method CopySlice(
    m0: Mem, value: Id, levels: seq<seq<Id>>, k: nat, i: nat, m1: Mem, newFlat: seq<Id>, at: int, made1: map<Id, Id>)
    returns (copied: Id, m: Mem, made: map<Id, Id>, end: int)
    requires Copies(m0, levels, m1, made1) && Chain(m0.objs, value, levels) && NoRepeat(m0.objs, levels)
    requires k < |levels| && i < |levels[k]| && UpTo(m0.objs, levels, k, i, made1)
    requires SlicesFrom(m0.objs, levels[k], i, newFlat, at, made1)
    ensures Copies(m0, levels, m, made) && UpTo(m0.objs, levels, k, i + 1, made)
    ensures SlicesFrom(m0.objs, levels[k], i + 1, newFlat, end, made)
    ensures MapIds(made, levels[k][..i + 1]) == MapIds(made1, levels[k][..i]) + [copied]
  {
    SliceIs(m0.objs, levels[k], i, newFlat, at, made1);
    end := at + |Kids(m0.objs, levels[k][i])|;
    copied, m, made := CopyOne(m0, value, levels, k, i, m1, made1, newFlat[at..end]);
    SlicesStay(m0.objs, levels[k], i + 1, newFlat, end, made1, made);
  }

  /**
   * A level over copied items: each container takes its slice of `newFlat`, and a tuple
   * whose slice is what it holds already is passed on (lines 1447-1463).
   */
  method CopySlices(m0: Mem, value: Id, levels: seq<seq<Id>>, k: nat, m1: Mem, newFlat: seq<Id>, made1: map<Id, Id>)
    returns (rebuilt: seq<Id>, m: Mem, made: map<Id, Id>)
    requires k < |levels| && LevelDone(m0, value, levels, k + 1, m1, made1)
    requires newFlat == MapIds(made1, Flat(m0.objs, levels[k]))
    ensures LevelDone(m0, value, levels, k, m, made)
    ensures rebuilt == MapIds(made, levels[k])
  {
    rebuilt, m, made := [], m1, made1;
    NextLevel(m0, value, levels, k + 1, m, made);
    var at := 0;
    assert levels[k][0..] == levels[k];
    for i := 0 to |levels[k]|
      invariant Copies(m0, levels, m, made) && UpTo(m0.objs, levels, k, i, made)
      invariant SlicesFrom(m0.objs, levels[k], i, newFlat, at, made)
      invariant rebuilt == MapIds(made, levels[k][..i])
    {
      var copied;
      copied, m, made, at := CopySlice(m0, value, levels, k, i, m, newFlat, at, made);
      rebuilt := rebuilt + [copied];
    }
    assert levels[k][..|levels[k]|] == levels[k];
  }

  /** `_put_at`: the rebuilt containers in their places among the leaves. */
  method PutAt(h: Heap, flat: seq<Id>, rebuilt: seq<Id>, ghost made: map<Id, Id>) returns (newFlat: seq<Id>)
    requires rebuilt == MapIds(made, Nodes(h, flat))
    requires forall c <- made :: IsNode(h, c)
    ensures newFlat == MapIds(made, flat)
  {
    newFlat := [];
    var n := 0;
    assert flat[0..] == flat;
    for i := 0 to |flat|
      invariant 0 <= n <= |rebuilt|
      invariant rebuilt[n..] == MapIds(made, Nodes(h, flat[i..]))
      invariant newFlat == MapIds(made, flat[..i])
    {
      assert flat[i..][0] == flat[i] && flat[i..][1..] == flat[i + 1..];
      assert flat[..i + 1] == flat[..i] + [flat[i]];
      if IsNode(h, flat[i]) {
        assert Nodes(h, flat[i..]) == [flat[i]] + Nodes(h, flat[i + 1..]);
        assert rebuilt[n..][0] == To(made, flat[i]);
        assert rebuilt[n + 1..] == rebuilt[n..][1..];
        newFlat := newFlat + [rebuilt[n]];
        n := n + 1;
      } else {
        newFlat := newFlat + [flat[i]];
      }
    }
    assert flat[..|flat|] == flat;
  }
}
