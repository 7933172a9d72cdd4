/**
 * Encoders that tell their inputs apart: what the claims about `level_key` ask of marshal, pickle and
 * numpy's bytes can be met. Every encoding says where it ends.
 */
module PlainCodec {
  import opened ByteFraming
  import opened LevelKey

  /** A byte in front. */
  function Tag(b: Byte, rest: Bytes): Bytes
  {
    [b] + rest
  }

  lemma TagSplit(b: Byte, p: Bytes, x: Bytes, c: Byte, q: Bytes, y: Bytes)
    requires Tag(b, p) + x == Tag(c, q) + y
    ensures b == c && p + x == q + y
  {
    assert Tag(b, p) + x == [b] + (p + x) && Tag(c, q) + y == [c] + (q + y);
    SplitEqual([b], p + x, [c], q + y);
  }

  lemma Regrouped(a: Bytes, b: Bytes, x: Bytes)
    ensures (a + b) + x == a + (b + x)
  {
  }

  function Num(n: nat): Bytes
  {
    if n == 0 then Tag(0, []) else Tag(1, Num(n - 1))
  }

  lemma {:induction false} NumSplit(a: nat, x: Bytes, b: nat, y: Bytes)
    requires Num(a) + x == Num(b) + y
    ensures a == b && x == y
    decreases a
  {
    TagSplit(if a == 0 then 0 else 1, if a == 0 then [] else Num(a - 1), x, if b == 0 then 0 else 1, if b == 0 then [] else Num(b - 1), y);
    if a == 0 {
      assert [] + x == x && [] + y == y;
    } else {
      NumSplit(a - 1, x, b - 1, y);
    }
  }

  function Signed(i: int): Bytes
  {
    if i < 0 then Tag(1, Num(-i)) else Tag(0, Num(i))
  }

  lemma SignedSplit(a: int, x: Bytes, b: int, y: Bytes)
    requires Signed(a) + x == Signed(b) + y
    ensures a == b && x == y
  {
    var p, q := if a < 0 then -a else a, if b < 0 then -b else b;
    TagSplit(if a < 0 then 1 else 0, Num(p), x, if b < 0 then 1 else 0, Num(q), y);
    NumSplit(p, x, q, y);
  }

  function Flag(b: bool): nat
  {
    if b then 1 else 0
  }

  function OfType(t: Ty): Bytes
  {
    match t
    case NumberTy(k) => Tag(0, Num(k))
    case LeafTy(k) => Tag(1, Num(k))
    case SeqTy(l) => Tag(2, Num(Flag(l)))
  }

  lemma TypeSplit(a: Ty, x: Bytes, b: Ty, y: Bytes)
    requires OfType(a) + x == OfType(b) + y
    ensures a == b && x == y
  {
    var m := match a case NumberTy(k) => k case LeafTy(k) => k case SeqTy(l) => Flag(l);
    var n := match b case NumberTy(k) => k case LeafTy(k) => k case SeqTy(l) => Flag(l);
    var s: Byte := match a case NumberTy(_) => 0 case LeafTy(_) => 1 case SeqTy(_) => 2;
    var t: Byte := match b case NumberTy(_) => 0 case LeafTy(_) => 1 case SeqTy(_) => 2;
    TagSplit(s, Num(m), x, t, Num(n), y);
    NumSplit(m, x, n, y);
  }

  // ---- Lists -------------------------------------------------------------

  function OfTypes(s: seq<Ty>): Bytes
  {
    if s == [] then Tag(0, []) else Tag(1, OfType(s[0]) + OfTypes(s[1..]))
  }

  lemma {:induction false} TypesSplit(a: seq<Ty>, x: Bytes, b: seq<Ty>, y: Bytes)
    requires OfTypes(a) + x == OfTypes(b) + y
    ensures a == b && x == y
    decreases |a|
  {
    ListSplit(a == [], if a == [] then [] else OfType(a[0]) + OfTypes(a[1..]), x,
              b == [], if b == [] then [] else OfType(b[0]) + OfTypes(b[1..]), y);
    if a != [] {
      Regrouped(OfType(a[0]), OfTypes(a[1..]), x);
      Regrouped(OfType(b[0]), OfTypes(b[1..]), y);
      TypeSplit(a[0], OfTypes(a[1..]) + x, b[0], OfTypes(b[1..]) + y);
      TypesSplit(a[1..], x, b[1..], y);
      assert a == [a[0]] + a[1..] && b == [b[0]] + b[1..];
    }
  }

  /** The tag in front of a list says whether it is empty. */
  lemma ListSplit(none: bool, p: Bytes, x: Bytes, none': bool, q: Bytes, y: Bytes)
    requires Tag(if none then 0 else 1, p) + x == Tag(if none' then 0 else 1, q) + y
    requires (none ==> p == []) && (none' ==> q == [])
    ensures none == none' && (if none then x == y else p + x == q + y)
  {
    TagSplit(if none then 0 else 1, p, x, if none' then 0 else 1, q, y);
    if none {
      assert p + x == x && q + y == y;
    }
  }

  function OfInts(s: seq<int>): Bytes
  {
    if s == [] then Tag(0, []) else Tag(1, Signed(s[0]) + OfInts(s[1..]))
  }

  lemma {:induction false} IntsSplit(a: seq<int>, x: Bytes, b: seq<int>, y: Bytes)
    requires OfInts(a) + x == OfInts(b) + y
    ensures a == b && x == y
    decreases |a|
  {
    ListSplit(a == [], if a == [] then [] else Signed(a[0]) + OfInts(a[1..]), x,
              b == [], if b == [] then [] else Signed(b[0]) + OfInts(b[1..]), y);
    if a != [] {
      Regrouped(Signed(a[0]), OfInts(a[1..]), x);
      Regrouped(Signed(b[0]), OfInts(b[1..]), y);
      SignedSplit(a[0], OfInts(a[1..]) + x, b[0], OfInts(b[1..]) + y);
      IntsSplit(a[1..], x, b[1..], y);
      assert a == [a[0]] + a[1..] && b == [b[0]] + b[1..];
    }
  }

  // ---- Values ------------------------------------------------------------

  function OfValue(v: Value): Bytes
  {
    match v
    case Number(k, bits) => Tag(0, Num(k) + Signed(bits))
    case Leaf(t, val) => Tag(1, Num(t) + Signed(val))
    case Seq(l, items) => Tag(2, Num(Flag(l)) + OfValues(items))
  }

  function OfValues(s: seq<Value>): Bytes
  {
    if s == [] then Tag(0, []) else Tag(1, OfValue(s[0]) + OfValues(s[1..]))
  }

  lemma PairSplit(m: nat, i: int, x: Bytes, n: nat, j: int, y: Bytes)
    requires (Num(m) + Signed(i)) + x == (Num(n) + Signed(j)) + y
    ensures m == n && i == j && x == y
  {
    Regrouped(Num(m), Signed(i), x);
    Regrouped(Num(n), Signed(j), y);
    NumSplit(m, Signed(i) + x, n, Signed(j) + y);
    SignedSplit(i, x, j, y);
  }

  function TagOf(v: Value): Byte
  {
    match v case Number(_, _) => 0 case Leaf(_, _) => 1 case Seq(_, _) => 2
  }

  function BodyOf(v: Value): Bytes
  {
    match v
    case Number(k, bits) => Num(k) + Signed(bits)
    case Leaf(t, val) => Num(t) + Signed(val)
    case Seq(l, items) => Num(Flag(l)) + OfValues(items)
  }

  lemma {:induction false} ValueSplit(a: Value, x: Bytes, b: Value, y: Bytes)
    requires OfValue(a) + x == OfValue(b) + y
    ensures a == b && x == y
    decreases a
  {
    assert OfValue(a) == Tag(TagOf(a), BodyOf(a)) && OfValue(b) == Tag(TagOf(b), BodyOf(b));
    TagSplit(TagOf(a), BodyOf(a), x, TagOf(b), BodyOf(b), y);
    match a
    case Number(k, bits) => PairSplit(k, bits, x, b.kind, b.bits, y);
    case Leaf(t, val) => PairSplit(t, val, x, b.ty, b.val, y);
    case Seq(l, items) =>
      Regrouped(Num(Flag(l)), OfValues(items), x);
      Regrouped(Num(Flag(b.isList)), OfValues(b.items), y);
      NumSplit(Flag(l), OfValues(items) + x, Flag(b.isList), OfValues(b.items) + y);
      ValuesSplit(items, x, b.items, y);
  }

  lemma {:induction false} ValuesSplit(a: seq<Value>, x: Bytes, b: seq<Value>, y: Bytes)
    requires OfValues(a) + x == OfValues(b) + y
    ensures a == b && x == y
    decreases a
  {
    ListSplit(a == [], if a == [] then [] else OfValue(a[0]) + OfValues(a[1..]), x,
              b == [], if b == [] then [] else OfValue(b[0]) + OfValues(b[1..]), y);
    if a != [] {
      Regrouped(OfValue(a[0]), OfValues(a[1..]), x);
      Regrouped(OfValue(b[0]), OfValues(b[1..]), y);
      ValueSplit(a[0], OfValues(a[1..]) + x, b[0], OfValues(b[1..]) + y);
      ValuesSplit(a[1..], x, b[1..], y);
      assert a == [a[0]] + a[1..] && b == [b[0]] + b[1..];
    }
  }

  // ---- The codec ---------------------------------------------------------

  function AsInts(s: seq<nat>): (r: seq<int>)
    ensures |r| == |s| && forall i | 0 <= i < |s| :: r[i] == s[i]
  {
    s
  }

  /** Its encoders tell apart what they are given. */
  lemma PlainTellsApart() returns (c: Codec)
    ensures TellsApart(c)
  {
    c := Codec(l => Num(Flag(l)), t => Tag(0, OfType(t)), s => Tag(1, OfTypes(s)), s => OfInts(AsInts(s)), (k, s) => OfInts(s),
               s => OfValues(s));
    assert c.top(true) != c.top(false) by {
      assert Num(1)[0] != Num(0)[0];
    }
    forall a: Ty, b: Ty | c.oneType(a) == c.oneType(b) ensures a == b {
      TagSplit(0, OfType(a), [], 0, OfType(b), []);
      TypeSplit(a, [], b, []);
    }
    forall a: seq<Ty>, b: seq<Ty> | c.types(a) == c.types(b) ensures a == b {
      TagSplit(1, OfTypes(a), [], 1, OfTypes(b), []);
      TypesSplit(a, [], b, []);
    }
    forall a: Ty, b: seq<Ty> ensures c.oneType(a) != c.types(b) {
      assert c.oneType(a)[0] != c.types(b)[0];
    }
    forall a: seq<nat>, b: seq<nat> | c.lengths(a) == c.lengths(b) ensures a == b {
      IntsSplit(AsInts(a), [], AsInts(b), []);
    }
    forall k: nat, a: seq<int>, b: seq<int> | c.numbers(k, a) == c.numbers(k, b) ensures a == b {
      IntsSplit(a, [], b, []);
    }
    forall a: seq<Value>, b: seq<Value> | c.leaves(a) == c.leaves(b) ensures a == b {
      ValuesSplit(a, [], b, []);
    }
  }
}
