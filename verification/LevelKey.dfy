/**
 * `level_key_bytes`: the key bytes of nested lists and tuples, written level by level.
 * Nothing but the value itself has its key: the types, lengths and leaves of the levels
 * determine the whole tree.
 *
 * numpy, pickle and the type names are encoders given from outside, each telling apart
 * what it is given.
 */
module LevelKey {
  import opened Options
  import opened ByteFraming

  /** A numpy number of some kind, another leaf of some exact type, or a list or tuple. */
  datatype Value = Number(kind: nat, bits: int) | Leaf(ty: nat, val: int) | Seq(isList: bool, items: seq<Value>)

  datatype Ty = NumberTy(kind: nat) | LeafTy(ty: nat) | SeqTy(isList: bool)

  function TypeOf(v: Value): Ty
  {
    match v
    case Number(k, _) => NumberTy(k)
    case Leaf(t, _) => LeafTy(t)
    case Seq(l, _) => SeqTy(l)
  }

  function Types(flat: seq<Value>): (r: seq<Ty>)
    ensures |r| == |flat| && forall i | 0 <= i < |flat| :: r[i] == TypeOf(flat[i])
  {
    seq(|flat|, i requires 0 <= i < |flat| => TypeOf(flat[i]))
  }

  /** The encoders: one type, a list of types, the lengths, one kind's numbers, the other leaves. */
  datatype Codec = Codec(
    top: bool -> Bytes,
    oneType: Ty -> Bytes,
    types: seq<Ty> -> Bytes,
    lengths: seq<nat> -> Bytes,
    numbers: (nat, seq<int>) -> Bytes,
    leaves: seq<Value> -> Bytes)

  /** Each encoder tells its inputs apart, and one type is not encoded like a list of types. */
  ghost predicate TellsApart(c: Codec)
  {
    && c.top(true) != c.top(false)
    && (forall a, b | c.oneType(a) == c.oneType(b) :: a == b)
    && (forall a, b | c.types(a) == c.types(b) :: a == b)
    && (forall a, b :: c.oneType(a) != c.types(b))
    && (forall a, b | c.lengths(a) == c.lengths(b) :: a == b)
    && (forall k, a, b | c.numbers(k, a) == c.numbers(k, b) :: a == b)
    && (forall a, b | c.leaves(a) == c.leaves(b) :: a == b)
  }

  // ---- One level ---------------------------------------------------------

  function Seqs(flat: seq<Value>): (r: seq<Value>)
    ensures forall v <- r :: v.Seq?
  {
    if flat == [] then []
    else if flat[0].Seq? then [flat[0]] + Seqs(flat[1..])
    else Seqs(flat[1..])
  }

  function Leaves(flat: seq<Value>): seq<Value>
  {
    if flat == [] then []
    else if flat[0].Leaf? then [flat[0]] + Leaves(flat[1..])
    else Leaves(flat[1..])
  }

  function Numbers(flat: seq<Value>, kind: nat): seq<int>
  {
    if flat == [] then []
    else if flat[0].Number? && flat[0].kind == kind then [flat[0].bits] + Numbers(flat[1..], kind)
    else Numbers(flat[1..], kind)
  }

  function Lengths(seqs: seq<Value>): (r: seq<nat>)
    requires forall v <- seqs :: v.Seq?
    ensures |r| == |seqs| && forall i | 0 <= i < |seqs| :: r[i] == |seqs[i].items|
  {
    seq(|seqs|, i requires 0 <= i < |seqs| => |seqs[i].items|)
  }

  predicate Has(flat: seq<Value>, t: Ty)
  {
    exists v <- flat :: TypeOf(v) == t
  }

  predicate OneType(flat: seq<Value>)
  {
    flat != [] && forall v <- flat :: TypeOf(v) == TypeOf(flat[0])
  }

  function NumberParts(c: Codec, kinds: seq<nat>, flat: seq<Value>): seq<Bytes>
  {
    if kinds == [] then []
    else if Has(flat, NumberTy(kinds[0])) then
      [c.numbers(kinds[0], Numbers(flat, kinds[0]))] + NumberParts(c, kinds[1..], flat)
    else NumberParts(c, kinds[1..], flat)
  }

  function TypePart(c: Codec, flat: seq<Value>): Bytes
  {
    if OneType(flat) then c.oneType(TypeOf(flat[0])) else c.types(Types(flat))
  }

  function LengthParts(c: Codec, flat: seq<Value>): seq<Bytes>
  {
    if Seqs(flat) != [] then [c.lengths(Lengths(Seqs(flat)))] else []
  }

  function LeafParts(c: Codec, flat: seq<Value>): seq<Bytes>
  {
    if Leaves(flat) != [] then [c.leaves(Leaves(flat))] else []
  }

  /** What one level adds: its types, its lengths, its numbers kind by kind, its other leaves. */
  function LevelParts(c: Codec, kinds: seq<nat>, flat: seq<Value>): seq<Bytes>
  {
    [TypePart(c, flat)] + (LengthParts(c, flat) + (NumberParts(c, kinds, flat) + LeafParts(c, flat)))
  }

  function Flatten(seqs: seq<Value>): seq<Value>
    requires forall v <- seqs :: v.Seq?
  {
    if seqs == [] then [] else seqs[0].items + Flatten(seqs[1..])
  }

  /** Every item is a known number, a known leaf or a sequence. */
  predicate LevelPlain(kinds: seq<nat>, leafTypes: set<nat>, flat: seq<Value>)
  {
    forall v <- flat :: v.Seq? || (v.Number? && v.kind in kinds) || (v.Leaf? && v.ty in leafTypes)
  }

  /** The parts of a level and of all levels below it. */
  function Parts(c: Codec, kinds: seq<nat>, leafTypes: set<nat>, flat: seq<Value>, fuel: nat): Option<seq<Bytes>>
    decreases fuel
  {
    if fuel == 0 || !LevelPlain(kinds, leafTypes, flat) then None
    else if Seqs(flat) == [] then Some(LevelParts(c, kinds, flat))
    else
      var rest := Parts(c, kinds, leafTypes, Flatten(Seqs(flat)), fuel - 1);
      if rest.None? then None else Some(LevelParts(c, kinds, flat) + rest.value)
  }

  // ---- One level can be read back ----------------------------------------

  /** The two levels hold the same types, lengths, numbers and leaves. */
  ghost predicate SameLevel(kinds: seq<nat>, a: seq<Value>, b: seq<Value>)
  {
    && Types(a) == Types(b)
    && Lengths(Seqs(a)) == Lengths(Seqs(b))
    && Leaves(a) == Leaves(b)
    && forall k <- kinds :: Numbers(a, k) == Numbers(b, k)
  }

  lemma {:induction false} AllOneType(flat: seq<Value>, t: Ty)
    requires forall v <- flat :: TypeOf(v) == t
    ensures t.SeqTy? ==> Seqs(flat) == flat && Leaves(flat) == []
    ensures t.LeafTy? ==> Seqs(flat) == [] && Leaves(flat) == flat
    ensures t.NumberTy? ==> Seqs(flat) == [] && Leaves(flat) == [] && |Numbers(flat, t.kind)| == |flat|
    ensures forall k: nat | t != NumberTy(k) :: Numbers(flat, k) == []
  {
    if flat != [] {
      assert TypeOf(flat[0]) == t && flat == [flat[0]] + flat[1..];
      AllOneType(flat[1..], t);
    }
  }

  /** The two levels have the same parts, whatever is in them. */
  ghost predicate SameShape(kinds: seq<nat>, a: seq<Value>, b: seq<Value>)
  {
    && (Seqs(a) == [] <==> Seqs(b) == [])
    && (Leaves(a) == [] <==> Leaves(b) == [])
    && forall k <- kinds :: Has(a, NumberTy(k)) <==> Has(b, NumberTy(k))
  }

  lemma {:induction false} TypesDecide(a: seq<Value>, b: seq<Value>)
    requires Types(a) == Types(b)
    ensures |Seqs(a)| == |Seqs(b)| && |Leaves(a)| == |Leaves(b)|
  {
    if a != [] {
      assert Types(a)[1..] == Types(a[1..]) && Types(b)[1..] == Types(b[1..]);
      assert TypeOf(a[0]) == Types(a)[0] == Types(b)[0] == TypeOf(b[0]);
      TypesDecide(a[1..], b[1..]);
    }
  }

  lemma TypesDecideHas(a: seq<Value>, b: seq<Value>, t: Ty)
    requires Types(a) == Types(b) && Has(a, t)
    ensures Has(b, t)
  {
    var i :| 0 <= i < |a| && TypeOf(a[i]) == t;
    assert Types(b)[i] == t;
    assert b[i] in b;
  }

  /** The type part alone says which parts follow it. */
  lemma ShapeFromTypes(c: Codec, kinds: seq<nat>, a: seq<Value>, b: seq<Value>)
    requires TellsApart(c) && TypePart(c, a) == TypePart(c, b)
    ensures SameShape(kinds, a, b)
    ensures OneType(a) <==> OneType(b)
    ensures !OneType(a) ==> Types(a) == Types(b)
    ensures OneType(a) ==> TypeOf(a[0]) == TypeOf(b[0])
  {
    if OneType(a) {
      AllOneType(a, TypeOf(a[0]));
      AllOneType(b, TypeOf(b[0]));
    } else {
      TypesDecide(a, b);
      forall k <- kinds ensures Has(a, NumberTy(k)) <==> Has(b, NumberTy(k)) {
        if Has(a, NumberTy(k)) {
          TypesDecideHas(a, b, NumberTy(k));
        }
        if Has(b, NumberTy(k)) {
          TypesDecideHas(b, a, NumberTy(k));
        }
      }
    }
  }

  lemma SplitParts(a: seq<Bytes>, a': seq<Bytes>, b: seq<Bytes>, b': seq<Bytes>)
    requires a + a' == b + b' && |a| == |b|
    ensures a == b && a' == b'
  {
    assert a == (a + a')[..|a|] && b == (b + b')[..|b|];
    assert a' == (a + a')[|a|..] && b' == (b + b')[|b|..];
  }

  lemma {:induction false} NoneOfKind(flat: seq<Value>, k: nat)
    requires !Has(flat, NumberTy(k))
    ensures Numbers(flat, k) == []
  {
    if flat != [] {
      assert TypeOf(flat[0]) != NumberTy(k);
      NoneOfKind(flat[1..], k);
    }
  }

  /** The number parts can be read back, kind by kind. */
  lemma {:induction false} NumbersReadBack(
    c: Codec, kinds: seq<nat>, a: seq<Value>, ra: seq<Bytes>, b: seq<Value>, rb: seq<Bytes>)
    requires TellsApart(c) && NumberParts(c, kinds, a) + ra == NumberParts(c, kinds, b) + rb
    requires forall k <- kinds :: Has(a, NumberTy(k)) <==> Has(b, NumberTy(k))
    ensures ra == rb && forall k <- kinds :: Numbers(a, k) == Numbers(b, k)
  {
    if kinds == [] {
      assert NumberParts(c, kinds, a) + ra == ra && NumberParts(c, kinds, b) + rb == rb;
    } else {
      var k := kinds[0];
      var pa := if Has(a, NumberTy(k)) then [c.numbers(k, Numbers(a, k))] else [];
      var pb := if Has(b, NumberTy(k)) then [c.numbers(k, Numbers(b, k))] else [];
      var na, nb := NumberParts(c, kinds[1..], a), NumberParts(c, kinds[1..], b);
      assert (pa + na) + ra == pa + (na + ra) && (pb + nb) + rb == pb + (nb + rb);
      SplitParts(pa, na + ra, pb, nb + rb);
      if Has(a, NumberTy(k)) {
        assert pa[0] == pb[0];
      } else {
        NoneOfKind(a, k);
        NoneOfKind(b, k);
      }
      NumbersReadBack(c, kinds[1..], a, ra, b, rb);
    }
  }

  lemma Assoc(t: seq<Bytes>, l: seq<Bytes>, n: seq<Bytes>, f: seq<Bytes>, r: seq<Bytes>)
    ensures (t + (l + (n + f))) + r == t + (l + (n + (f + r)))
  {
    assert (n + f) + r == n + (f + r);
    assert (l + (n + f)) + r == l + (n + (f + r));
  }

  /** The four kinds of part, told apart by the first. */
  lemma PartsReadBack(c: Codec, kinds: seq<nat>, a: seq<Value>, ra: seq<Bytes>, b: seq<Value>, rb: seq<Bytes>)
    requires TellsApart(c) && LevelParts(c, kinds, a) + ra == LevelParts(c, kinds, b) + rb
    ensures TypePart(c, a) == TypePart(c, b) && LengthParts(c, a) == LengthParts(c, b)
    ensures forall k <- kinds :: Numbers(a, k) == Numbers(b, k)
    ensures LeafParts(c, a) == LeafParts(c, b) && ra == rb
  {
    var ta, tb := [TypePart(c, a)], [TypePart(c, b)];
    var la, lb := LengthParts(c, a), LengthParts(c, b);
    var na, nb := NumberParts(c, kinds, a), NumberParts(c, kinds, b);
    var fa, fb := LeafParts(c, a), LeafParts(c, b);
    Assoc(ta, la, na, fa, ra);
    Assoc(tb, lb, nb, fb, rb);
    SplitParts(ta, la + (na + (fa + ra)), tb, lb + (nb + (fb + rb)));
    assert ta[0] == tb[0];
    ShapeFromTypes(c, kinds, a, b);
    SplitParts(la, na + (fa + ra), lb, nb + (fb + rb));
    NumbersReadBack(c, kinds, a, fa + ra, b, fb + rb);
    SplitParts(fa, ra, fb, rb);
  }

  /** The parts of a level, in front of whatever follows, determine the level. */
  lemma LevelReadBack(
    c: Codec, kinds: seq<nat>, leafTypes: set<nat>, a: seq<Value>, ra: seq<Bytes>, b: seq<Value>, rb: seq<Bytes>)
    requires TellsApart(c) && LevelPlain(kinds, leafTypes, a)
    requires LevelParts(c, kinds, a) + ra == LevelParts(c, kinds, b) + rb
    ensures SameLevel(kinds, a, b) && ra == rb
  {
    PartsReadBack(c, kinds, a, ra, b, rb);
    ShapeFromTypes(c, kinds, a, b);
    LengthsEqual(c, a, b);
    LeavesEqual(c, a, b);
    if OneType(a) {
      SameTypes(kinds, leafTypes, a, b);
    }
  }

  lemma LengthsEqual(c: Codec, a: seq<Value>, b: seq<Value>)
    requires TellsApart(c) && LengthParts(c, a) == LengthParts(c, b) && (Seqs(a) == [] <==> Seqs(b) == [])
    ensures Lengths(Seqs(a)) == Lengths(Seqs(b))
  {
    if Seqs(a) != [] {
      assert LengthParts(c, a)[0] == LengthParts(c, b)[0];
    }
  }

  lemma LeavesEqual(c: Codec, a: seq<Value>, b: seq<Value>)
    requires TellsApart(c) && LeafParts(c, a) == LeafParts(c, b) && (Leaves(a) == [] <==> Leaves(b) == [])
    ensures Leaves(a) == Leaves(b)
  {
    if Leaves(a) != [] {
      assert LeafParts(c, a)[0] == LeafParts(c, b)[0];
    }
  }

  /** A level of one type: what was written tells how many items there are. */
  lemma SameTypes(kinds: seq<nat>, leafTypes: set<nat>, a: seq<Value>, b: seq<Value>)
    requires OneType(a) && OneType(b) && TypeOf(a[0]) == TypeOf(b[0])
    requires LevelPlain(kinds, leafTypes, a)
    requires Lengths(Seqs(a)) == Lengths(Seqs(b)) && Leaves(a) == Leaves(b)
    requires forall k <- kinds :: Numbers(a, k) == Numbers(b, k)
    ensures Types(a) == Types(b)
  {
    var t := TypeOf(a[0]);
    AllOneType(a, t);
    AllOneType(b, t);
    assert a[0] in a;
    assert |a| == |b| by {
      if t.SeqTy? {
        assert |Lengths(Seqs(a))| == |Seqs(a)| && |Lengths(Seqs(b))| == |Seqs(b)|;
      }
    }
  }

  // ---- From level to value -----------------------------------------------

  /** Equal flat items, cut by equal lengths, are equal sequences. */
  lemma {:induction false} Regroup(a: seq<Value>, b: seq<Value>)
    requires (forall v <- a :: v.Seq?) && (forall v <- b :: v.Seq?)
    requires Types(a) == Types(b) && Lengths(a) == Lengths(b) && Flatten(a) == Flatten(b)
    ensures a == b
  {
    if a != [] {
      assert |a| == |Types(a)| == |Types(b)| == |b|;
      assert Types(a)[1..] == Types(a[1..]) && Types(b)[1..] == Types(b[1..]);
      assert Lengths(a)[1..] == Lengths(a[1..]) && Lengths(b)[1..] == Lengths(b[1..]);
      var ia, ib := a[0].items, b[0].items;
      assert |ia| == Lengths(a)[0] == Lengths(b)[0] == |ib|;
      SplitValues(ia, Flatten(a[1..]), ib, Flatten(b[1..]));
      assert Types(a)[0] == Types(b)[0];
      Regroup(a[1..], b[1..]);
      assert a == [a[0]] + a[1..] && b == [b[0]] + b[1..];
    }
  }

  lemma SplitValues(a: seq<Value>, a': seq<Value>, b: seq<Value>, b': seq<Value>)
    requires a + a' == b + b' && |a| == |b|
    ensures a == b && a' == b'
  {
    assert a == (a + a')[..|a|] && b == (b + b')[..|b|];
    assert a' == (a + a')[|a|..] && b' == (b + b')[|b|..];
  }

  /** What the first item adds to the types of the sequences. */
  lemma SeqTypesHead(a: seq<Value>)
    requires a != []
    ensures a[0].Seq? ==> Types(Seqs(a)) == [TypeOf(a[0])] + Types(Seqs(a[1..]))
    ensures !a[0].Seq? ==> Seqs(a) == Seqs(a[1..])
    ensures Types(a)[1..] == Types(a[1..]) && Types(a)[0] == TypeOf(a[0])
  {
    if a[0].Seq? {
      var rest := Seqs(a[1..]);
      assert Seqs(a) == [a[0]] + rest;
      assert ([a[0]] + rest)[1..] == rest;
    }
  }

  lemma {:induction false} SeqTypes(a: seq<Value>, b: seq<Value>)
    requires Types(a) == Types(b)
    ensures Types(Seqs(a)) == Types(Seqs(b))
  {
    if a != [] {
      assert |a| == |Types(a)| == |Types(b)| == |b|;
      SeqTypesHead(a);
      SeqTypesHead(b);
      SeqTypes(a[1..], b[1..]);
    }
  }

  /** A level is its types, its sequences, its numbers by kind and its leaves. */
  lemma {:induction false} Reassemble(kinds: seq<nat>, leafTypes: set<nat>, a: seq<Value>, b: seq<Value>)
    requires LevelPlain(kinds, leafTypes, a)
    requires Types(a) == Types(b) && Seqs(a) == Seqs(b) && Leaves(a) == Leaves(b)
    requires forall k <- kinds :: Numbers(a, k) == Numbers(b, k)
    ensures a == b
  {
    if a != [] {
      assert |a| == |Types(a)| == |Types(b)| == |b|;
      assert Types(a)[1..] == Types(a[1..]) && Types(b)[1..] == Types(b[1..]);
      assert TypeOf(a[0]) == Types(a)[0] == Types(b)[0] == TypeOf(b[0]);
      assert a[0] in a;
      HeadsEqual(kinds, a, b);
      forall k <- kinds ensures Numbers(a[1..], k) == Numbers(b[1..], k) {
        TailNumbers(a, b, k);
      }
      TailSeqs(a, b);
      TailLeaves(a, b);
      Reassemble(kinds, leafTypes, a[1..], b[1..]);
      assert a == [a[0]] + a[1..] && b == [b[0]] + b[1..];
    }
  }

  lemma HeadsEqual(kinds: seq<nat>, a: seq<Value>, b: seq<Value>)
    requires a != [] && b != [] && TypeOf(a[0]) == TypeOf(b[0])
    requires a[0].Number? ==> a[0].kind in kinds
    requires Seqs(a) == Seqs(b) && Leaves(a) == Leaves(b)
    requires forall k <- kinds :: Numbers(a, k) == Numbers(b, k)
    ensures a[0] == b[0]
  {
    match a[0]
    case Seq(_, _) => assert Seqs(a)[0] == a[0] && Seqs(b)[0] == b[0];
    case Leaf(_, _) => assert Leaves(a)[0] == a[0] && Leaves(b)[0] == b[0];
    case Number(k, _) => assert Numbers(a, k)[0] == a[0].bits && Numbers(b, k)[0] == b[0].bits;
  }

  lemma TailNumbers(a: seq<Value>, b: seq<Value>, k: nat)
    requires a != [] && b != [] && TypeOf(a[0]) == TypeOf(b[0]) && Numbers(a, k) == Numbers(b, k)
    ensures Numbers(a[1..], k) == Numbers(b[1..], k)
  {
    var n := if a[0].Number? && a[0].kind == k then 1 else 0;
    assert Numbers(a, k)[n..] == Numbers(a[1..], k) && Numbers(b, k)[n..] == Numbers(b[1..], k);
  }

  lemma TailSeqs(a: seq<Value>, b: seq<Value>)
    requires a != [] && b != [] && TypeOf(a[0]) == TypeOf(b[0]) && Seqs(a) == Seqs(b)
    ensures Seqs(a[1..]) == Seqs(b[1..])
  {
    var n := if a[0].Seq? then 1 else 0;
    assert Seqs(a)[n..] == Seqs(a[1..]) && Seqs(b)[n..] == Seqs(b[1..]);
  }

  lemma TailLeaves(a: seq<Value>, b: seq<Value>)
    requires a != [] && b != [] && TypeOf(a[0]) == TypeOf(b[0]) && Leaves(a) == Leaves(b)
    ensures Leaves(a[1..]) == Leaves(b[1..])
  {
    var n := if a[0].Leaf? then 1 else 0;
    assert Leaves(a)[n..] == Leaves(a[1..]) && Leaves(b)[n..] == Leaves(b[1..]);
  }

  lemma SeqsEmpty(a: seq<Value>, b: seq<Value>)
    requires Lengths(Seqs(a)) == Lengths(Seqs(b))
    ensures Seqs(a) == [] <==> Seqs(b) == []
  {
    assert |Lengths(Seqs(a))| == |Seqs(a)| && |Lengths(Seqs(b))| == |Seqs(b)|;
  }

  ghost predicate IsParts(
    c: Codec, kinds: seq<nat>, leafTypes: set<nat>, flat: seq<Value>, fuel: nat, parts: Option<seq<Bytes>>)
  {
    parts == Parts(c, kinds, leafTypes, flat, fuel)
  }

  ghost function Behind(parts: seq<Bytes>, rest: Option<seq<Bytes>>): Option<seq<Bytes>>
  {
    if rest.None? then None else Some(parts + rest.value)
  }

  /** The parts of a level stand before those of the levels below it, if there are any. */
  lemma PartsStep(
    c: Codec, kinds: seq<nat>, leafTypes: set<nat>, flat: seq<Value>, fuel: nat, parts: Option<seq<Bytes>>)
    returns (rest: Option<seq<Bytes>>)
    requires IsParts(c, kinds, leafTypes, flat, fuel, parts)
    ensures fuel == 0 || !LevelPlain(kinds, leafTypes, flat) ==> parts.None?
    ensures fuel > 0 && LevelPlain(kinds, leafTypes, flat) ==> parts == Behind(LevelParts(c, kinds, flat), rest)
    ensures Seqs(flat) == [] ==> rest == Some([])
    ensures fuel > 0 && Seqs(flat) != [] ==> IsParts(c, kinds, leafTypes, Flatten(Seqs(flat)), fuel - 1, rest)
  {
    if Seqs(flat) == [] {
      rest := Some([]);
      assert LevelParts(c, kinds, flat) + [] == LevelParts(c, kinds, flat);
    } else if fuel > 0 {
      rest := Parts(c, kinds, leafTypes, Flatten(Seqs(flat)), fuel - 1);
    } else {
      rest := None;
    }
  }

  /** The parts of all levels determine the items they were written for. */
  lemma {:induction false} PartsInjective(
    c: Codec, kinds: seq<nat>, leafTypes: set<nat>, a: seq<Value>, b: seq<Value>, fuel: nat, parts: seq<Bytes>)
    requires TellsApart(c)
    requires IsParts(c, kinds, leafTypes, a, fuel, Some(parts)) && IsParts(c, kinds, leafTypes, b, fuel, Some(parts))
    ensures a == b
    decreases fuel, 1
  {
    var rest := SameParts(c, kinds, leafTypes, a, b, fuel, parts);
    if Seqs(a) != [] {
      BelowInjective(c, kinds, leafTypes, a, b, fuel, rest);
    }
    Rebuilt(kinds, leafTypes, a, b);
  }

  lemma {:induction false} BelowInjective(
    c: Codec, kinds: seq<nat>, leafTypes: set<nat>, a: seq<Value>, b: seq<Value>, fuel: nat, rest: seq<Bytes>)
    requires TellsApart(c) && fuel > 0
    requires IsParts(c, kinds, leafTypes, Flatten(Seqs(a)), fuel - 1, Some(rest))
    requires IsParts(c, kinds, leafTypes, Flatten(Seqs(b)), fuel - 1, Some(rest))
    ensures Flatten(Seqs(a)) == Flatten(Seqs(b))
    decreases fuel, 0
  {
    PartsInjective(c, kinds, leafTypes, Flatten(Seqs(a)), Flatten(Seqs(b)), fuel - 1, rest);
  }

  /** Equal parts are equal levels, with equal parts below them. */
  lemma SameParts(
    c: Codec, kinds: seq<nat>, leafTypes: set<nat>, a: seq<Value>, b: seq<Value>, fuel: nat, parts: seq<Bytes>)
    returns (rest: seq<Bytes>)
    requires TellsApart(c)
    requires IsParts(c, kinds, leafTypes, a, fuel, Some(parts)) && IsParts(c, kinds, leafTypes, b, fuel, Some(parts))
    ensures fuel > 0 && LevelPlain(kinds, leafTypes, a) && SameLevel(kinds, a, b) && (Seqs(a) == [] <==> Seqs(b) == [])
    ensures Seqs(a) != [] ==> IsParts(c, kinds, leafTypes, Flatten(Seqs(a)), fuel - 1, Some(rest))
    ensures Seqs(a) != [] ==> IsParts(c, kinds, leafTypes, Flatten(Seqs(b)), fuel - 1, Some(rest))
  {
    var ra := PartsStep(c, kinds, leafTypes, a, fuel, Some(parts));
    var rb := PartsStep(c, kinds, leafTypes, b, fuel, Some(parts));
    LevelReadBack(c, kinds, leafTypes, a, ra.value, b, rb.value);
    SeqsEmpty(a, b);
    rest := ra.value;
  }

  /** Equal levels over equal items are equal. */
  lemma Rebuilt(kinds: seq<nat>, leafTypes: set<nat>, a: seq<Value>, b: seq<Value>)
    requires LevelPlain(kinds, leafTypes, a) && SameLevel(kinds, a, b) && (Seqs(a) == [] <==> Seqs(b) == [])
    requires Seqs(a) != [] ==> Flatten(Seqs(a)) == Flatten(Seqs(b))
    ensures a == b
  {
    if Seqs(a) != [] {
      SeqTypes(a, b);
      Regroup(Seqs(a), Seqs(b));
    }
    Reassemble(kinds, leafTypes, a, b);
  }

  // ---- The key -----------------------------------------------------------

  /** The parts of a whole value: the top's type, then its levels. */
  function ValueParts(c: Codec, kinds: seq<nat>, leafTypes: set<nat>, v: Value, limit: nat): Option<seq<Bytes>>
  {
    if !v.Seq? then None
    else
      var rest := Parts(c, kinds, leafTypes, v.items, limit);
      if rest.None? then None else Some([c.top(v.isList)] + rest.value)
  }

  /** The key: every part behind its length. None for what is not plain or too long to frame. */
  function KeyBytes(c: Codec, kinds: seq<nat>, leafTypes: set<nat>, v: Value, limit: nat): Option<Bytes>
  {
    var parts := ValueParts(c, kinds, leafTypes, v, limit);
    if parts.None? || !Short(parts.value) then None else Some(Framed(parts.value))
  }

  /** Two values with one key are one value. */
  lemma KeyInjective(c: Codec, kinds: seq<nat>, leafTypes: set<nat>, v: Value, w: Value, limit: nat)
    requires TellsApart(c)
    requires KeyBytes(c, kinds, leafTypes, v, limit).Some?
    requires KeyBytes(c, kinds, leafTypes, v, limit) == KeyBytes(c, kinds, leafTypes, w, limit)
    ensures v == w
  {
    var pv, pw := ValueParts(c, kinds, leafTypes, v, limit).value, ValueParts(c, kinds, leafTypes, w, limit).value;
    FramedInjective(pv, pw);
    assert pv[0] == pw[0];
    assert pv[1..] == Parts(c, kinds, leafTypes, v.items, limit).value;
    assert pw[1..] == Parts(c, kinds, leafTypes, w.items, limit).value;
    PartsInjective(c, kinds, leafTypes, v.items, w.items, limit, pv[1..]);
  }

  /** `level_key_bytes`: one pass over the levels writes the key. */
  method LevelKeyBytes(c: Codec, kinds: seq<nat>, leafTypes: set<nat>, v: Value, limit: nat) returns (r: Option<Bytes>)
    ensures r == KeyBytes(c, kinds, leafTypes, v, limit)
  {
    if !v.Seq? {
      return None;
    }
    var parts := [c.top(v.isList)];
    var flat := v.items;
    ghost var whole := ValueParts(c, kinds, leafTypes, v, limit);
    ghost var rest := Parts(c, kinds, leafTypes, flat, limit);
    for n := 0 to limit
      invariant IsParts(c, kinds, leafTypes, flat, limit - n, rest)
      invariant IsBehind(whole, parts, rest)
    {
      ghost var next := PartsStep(c, kinds, leafTypes, flat, limit - n, rest);
      if !LevelPlain(kinds, leafTypes, flat) {
        return None;
      }
      var level := LevelParts(c, kinds, flat);
      BehindBoth(whole, parts, level, next);
      parts := parts + level;
      if Seqs(flat) == [] {
        BehindAll(whole, parts);
        return if Short(parts) then Some(Framed(parts)) else None;
      }
      flat, rest := Flatten(Seqs(flat)), next;
    }
    ghost var next := PartsStep(c, kinds, leafTypes, flat, 0, rest);
    return None;
  }

  ghost predicate IsBehind(whole: Option<seq<Bytes>>, parts: seq<Bytes>, rest: Option<seq<Bytes>>)
  {
    whole == Behind(parts, rest)
  }

  lemma BehindBoth(whole: Option<seq<Bytes>>, parts: seq<Bytes>, level: seq<Bytes>, rest: Option<seq<Bytes>>)
    requires IsBehind(whole, parts, Behind(level, rest))
    ensures IsBehind(whole, parts + level, rest)
  {
    if rest.Some? {
      assert parts + (level + rest.value) == parts + level + rest.value;
    }
  }

  lemma BehindAll(whole: Option<seq<Bytes>>, parts: seq<Bytes>)
    requires IsBehind(whole, parts, Some([]))
    ensures whole == Some(parts)
  {
    assert parts + [] == parts;
  }
}
