/** Bytes, `int.to_bytes(8, "little")`, and parts framed by their length. */
module ByteFraming {
  type Byte = x: int | 0 <= x < 256
  type Bytes = seq<Byte>

  const TWO_64: nat := 0x1_0000_0000_0000_0000

  ghost function Pow256(k: nat): nat
  {
    if k == 0 then 1 else 256 * Pow256(k - 1)
  }

  /** The `k` low bytes of `n`, lowest first. */
  function Little(n: nat, k: nat): (r: Bytes)
    ensures |r| == k
  {
    if k == 0 then [] else [n % 256] + Little(n / 256, k - 1)
  }

  lemma {:induction false} LittleInjective(a: nat, b: nat, k: nat)
    requires a < Pow256(k) && b < Pow256(k) && Little(a, k) == Little(b, k)
    ensures a == b
  {
    if k > 0 {
      assert Little(a, k)[0] == Little(b, k)[0];
      assert Little(a, k)[1..] == Little(b, k)[1..];
      LittleInjective(a / 256, b / 256, k - 1);
    }
  }

  /** `n.to_bytes(8, "little")`, which refuses 2**64 and more. */
  function Length8(n: nat): (r: Bytes)
    requires n < TWO_64
    ensures |r| == 8
  {
    Little(n, 8)
  }

  lemma Length8Injective(a: nat, b: nat)
    requires a < TWO_64 && b < TWO_64 && Length8(a) == Length8(b)
    ensures a == b
  {
    assert Pow256(4) == 256 * Pow256(3) == 0x1_0000_0000;
    assert Pow256(8) == TWO_64 by {
      assert Pow256(6) == 256 * Pow256(5) == 65536 * Pow256(4);
      assert Pow256(8) == 256 * Pow256(7) == 65536 * Pow256(6);
    }
    LittleInjective(a, b, 8);
  }

  /** Two byte strings that start with pieces of one length agree piece by piece. */
  lemma SplitEqual(a: Bytes, a': Bytes, b: Bytes, b': Bytes)
    requires a + a' == b + b' && |a| == |b|
    ensures a == b && a' == b'
  {
    assert a == (a + a')[..|a|] && b == (b + b')[..|b|];
    assert a' == (a + a')[|a|..] && b' == (b + b')[|b|..];
  }

  predicate Short(parts: seq<Bytes>)
  {
    forall p <- parts :: |p| < TWO_64
  }

  /** Every part behind its length in eight bytes. */
  function Framed(parts: seq<Bytes>): (r: Bytes)
    requires Short(parts)
    ensures parts != [] ==> |r| >= 8
  {
    if parts == [] then [] else (Length8(|parts[0]|) + parts[0]) + Framed(parts[1..])
  }

  /** A part behind its length can be told from whatever follows it. */
  lemma FrameSplit(a: Bytes, a': Bytes, b: Bytes, b': Bytes)
    requires |a| < TWO_64 && |b| < TWO_64
    requires (Length8(|a|) + a) + a' == (Length8(|b|) + b) + b'
    ensures a == b && a' == b'
  {
    var la, lb := Length8(|a|), Length8(|b|);
    PrefixSplit(la, a, a', lb, b, b');
    Length8Injective(|a|, |b|);
    SplitEqual(a, a', b, b');
  }

  lemma PrefixSplit(la: Bytes, a: Bytes, a': Bytes, lb: Bytes, b: Bytes, b': Bytes)
    requires |la| == |lb| && (la + a) + a' == (lb + b) + b'
    ensures la == lb && a + a' == b + b'
  {
    assert (la + a) + a' == la + (a + a');
    assert (lb + b) + b' == lb + (b + b');
    SplitEqual(la, a + a', lb, b + b');
  }

  /** The framed bytes determine the parts. */
  lemma {:induction false} FramedInjective(a: seq<Bytes>, b: seq<Bytes>)
    requires Short(a) && Short(b) && Framed(a) == Framed(b)
    ensures a == b
  {
    if a != [] && b != [] {
      FrameSplit(a[0], Framed(a[1..]), b[0], Framed(b[1..]));
      FramedInjective(a[1..], b[1..]);
      assert a == [a[0]] + a[1..] && b == [b[0]] + b[1..];
    }
  }
}
