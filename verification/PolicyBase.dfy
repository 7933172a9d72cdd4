/**
 * What the eviction policies share: keys in an order, the dict of stored sizes, and
 * totals over keys (`benchmarks/eviction_sim/policies.py`).
 */
module PolicyBase {
  import opened Options

  type Key = int

  // ---- Ordered keys: an OrderedDict's keys, oldest first -----------------

  predicate Distinct(s: seq<Key>)
  {
    forall i, j | 0 <= i < j < |s| :: s[i] != s[j]
  }

  /** `pop(key, None)`. */
  function Without(s: seq<Key>, k: Key): (r: seq<Key>)
    ensures forall x: Key :: x in r <==> x in s && x != k
    ensures |r| <= |s| && (k !in s ==> r == s)
  {
    if s == [] then []
    else if s[0] == k then
      var rest := Without(s[1..], k);
      assert s == [s[0]] + s[1..];
      rest
    else
      assert s == [s[0]] + s[1..];
      [s[0]] + Without(s[1..], k)
  }

  lemma {:induction false} WithoutDistinct(s: seq<Key>, k: Key)
    requires Distinct(s)
    ensures Distinct(Without(s, k))
    ensures k in s ==> |Without(s, k)| == |s| - 1
  {
    if s != [] {
      WithoutDistinct(s[1..], k);
      assert s[0] !in s[1..];
      assert s == [s[0]] + s[1..];
    }
  }

  lemma AppendDistinct(s: seq<Key>, k: Key)
    requires Distinct(s) && k !in s
    ensures Distinct(s + [k])
  {
  }

  /** `od[key] = None`: a key already there keeps its place. */
  function Put(s: seq<Key>, k: Key): seq<Key>
  {
    if k in s then s else s + [k]
  }

  /** `move_to_end(key)`. */
  function ToEnd(s: seq<Key>, k: Key): (r: seq<Key>)
    ensures k in s ==> forall x: Key :: x in r <==> x in s
  {
    Without(s, k) + [k]
  }

  lemma ToEndDistinct(s: seq<Key>, k: Key)
    requires Distinct(s)
    ensures Distinct(ToEnd(s, k))
  {
    WithoutDistinct(s, k);
    AppendDistinct(Without(s, k), k);
  }

  lemma TailDistinct(s: seq<Key>)
    requires Distinct(s) && s != []
    ensures Distinct(s[1..]) && s[0] !in s[1..] && s[1..] == Without(s, s[0])
  {
    assert s == [s[0]] + s[1..];
  }

  /** The first key that is not `protect`. */
  function FirstOther(s: seq<Key>, protect: Option<Key>): (r: Option<Key>)
    ensures r.Some? ==> r.value in s && Some(r.value) != protect
    ensures r.None? ==> forall k <- s :: Some(k) == protect
  {
    if s == [] then None
    else if Some(s[0]) != protect then Some(s[0])
    else FirstOther(s[1..], protect)
  }

  // ---- Stored sizes ------------------------------------------------------

  /** The dict of stored sizes: its keys in insertion order, and the size of each. */
  datatype Sizes = Sizes(keys: seq<Key>, at: map<Key, nat>)

  const EMPTY := Sizes([], map[])

  ghost predicate SizesOk(z: Sizes)
  {
    Distinct(z.keys) && forall k: Key :: k in z.keys <==> k in z.at
  }

  function Add(z: Sizes, k: Key, n: nat): Sizes
  {
    Sizes(z.keys + [k], z.at[k := n])
  }

  function Drop(z: Sizes, k: Key): Sizes
  {
    Sizes(Without(z.keys, k), map x | x in z.at && x != k :: z.at[x])
  }

  lemma AddOk(z: Sizes, k: Key, n: nat)
    requires SizesOk(z) && k !in z.at
    ensures SizesOk(Add(z, k, n))
  {
    AppendDistinct(z.keys, k);
  }

  lemma DropOk(z: Sizes, k: Key)
    requires SizesOk(z)
    ensures SizesOk(Drop(z, k))
  {
    WithoutDistinct(z.keys, k);
  }

  /** The stored size of a key, 0 for one not stored. */
  function SizeOf(at: map<Key, nat>, k: Key): nat
  {
    if k in at then at[k] else 0
  }

  /** The bytes of some keys. */
  function Sum(at: map<Key, nat>, s: seq<Key>): nat
  {
    if s == [] then 0 else SizeOf(at, s[0]) + Sum(at, s[1..])
  }

  lemma {:induction false} SumSame(at: map<Key, nat>, at': map<Key, nat>, s: seq<Key>)
    requires forall k <- s :: SizeOf(at, k) == SizeOf(at', k)
    ensures Sum(at, s) == Sum(at', s)
  {
    if s != [] {
      SumSame(at, at', s[1..]);
    }
  }

  lemma {:induction false} SumAppend(at: map<Key, nat>, a: seq<Key>, b: seq<Key>)
    ensures Sum(at, a + b) == Sum(at, a) + Sum(at, b)
  {
    if a == [] {
      assert a + b == b;
    } else {
      assert (a + b)[1..] == a[1..] + b;
      SumAppend(at, a[1..], b);
    }
  }

  lemma {:induction false} SumWithout(at: map<Key, nat>, s: seq<Key>, k: Key)
    requires Distinct(s) && k in s
    ensures Sum(at, s) == Sum(at, Without(s, k)) + SizeOf(at, k)
  {
    assert s == [s[0]] + s[1..];
    if s[0] == k {
      assert k !in s[1..];
    } else {
      SumWithout(at, s[1..], k);
      assert Without(s, k) == [s[0]] + Without(s[1..], k);
    }
  }

  /** Storing one key more. */
  lemma SumAdd(z: Sizes, k: Key, n: nat)
    requires SizesOk(z) && k !in z.at
    ensures Sum(Add(z, k, n).at, Add(z, k, n).keys) == Sum(z.at, z.keys) + n
  {
    SumAppend(Add(z, k, n).at, z.keys, [k]);
    SumSame(z.at, Add(z, k, n).at, z.keys);
    assert Sum(Add(z, k, n).at, [k]) == n;
  }

  /** Dropping one: the total falls by its size. */
  lemma SumDrop(z: Sizes, k: Key)
    requires SizesOk(z) && k in z.at
    ensures Sum(Drop(z, k).at, Drop(z, k).keys) + z.at[k] == Sum(z.at, z.keys)
  {
    SumWithout(z.at, z.keys, k);
    SumSame(z.at, Drop(z, k).at, Without(z.keys, k));
  }

  /** The bytes of some stored keys, after one key is no longer stored. */
  lemma SegmentDrop(z: Sizes, s: seq<Key>, k: Key)
    requires Distinct(s)
    ensures Sum(Drop(z, k).at, Without(s, k)) + (if k in s then SizeOf(z.at, k) else 0) == Sum(z.at, s)
  {
    if k in s {
      SumWithout(z.at, s, k);
    }
    SumSame(z.at, Drop(z, k).at, Without(s, k));
  }

  /** The bytes of some stored keys, after another is stored. */
  lemma SegmentAdd(z: Sizes, s: seq<Key>, k: Key, n: nat)
    requires k !in s
    ensures Sum(Add(z, k, n).at, s) == Sum(z.at, s)
    ensures Sum(Add(z, k, n).at, s + [k]) == Sum(z.at, s) + n
  {
    SumSame(z.at, Add(z, k, n).at, s);
    SumAppend(Add(z, k, n).at, s, [k]);
    assert Sum(Add(z, k, n).at, [k]) == n;
  }

  lemma TwoDiffer(s: seq<Key>)
    requires Distinct(s)
    ensures |s| > 1 ==> exists a, b :: a in s && b in s && a != b
  {
    if |s| > 1 {
      assert s[0] in s && s[1] in s && s[0] != s[1];
    }
  }

  /** Only `protect` is stored: the total is its size. */
  lemma {:induction false} OnlyOne(z: Sizes, k: Key)
    requires SizesOk(z) && k in z.at && forall x <- z.keys :: x == k
    ensures Sum(z.at, z.keys) == z.at[k]
  {
    TwoDiffer(z.keys);
    assert |z.keys| == 1 && z.keys[0] in z.keys;
    assert z.keys == [k];
    assert Sum(z.at, [k]) == z.at[k] + Sum(z.at, []);
  }

  // ---- Two segments that share the keys between them ---------------------

  /** `a` and `b` hold each stored key once between them. */
  ghost predicate Partition(z: Sizes, a: seq<Key>, b: seq<Key>)
  {
    && Distinct(a) && Distinct(b)
    && (forall k: Key | k in a :: k !in b)
    && (forall k: Key :: k in z.at <==> k in a || k in b)
  }

  lemma PartitionDrop(z: Sizes, a: seq<Key>, b: seq<Key>, k: Key)
    requires Partition(z, a, b)
    ensures Partition(Drop(z, k), Without(a, k), Without(b, k))
  {
    WithoutDistinct(a, k);
    WithoutDistinct(b, k);
  }

  lemma PartitionAdd(z: Sizes, a: seq<Key>, b: seq<Key>, k: Key, n: nat)
    requires Partition(z, a, b) && k !in z.at
    ensures Partition(Add(z, k, n), a + [k], b) && Partition(Add(z, k, n), a, b + [k])
  {
    AppendDistinct(a, k);
    AppendDistinct(b, k);
  }

  /** A key moves to the end of the other segment, or of its own. */
  lemma PartitionMove(z: Sizes, a: seq<Key>, b: seq<Key>, k: Key)
    requires Partition(z, a, b) && k in z.at
    ensures Partition(z, Without(a, k), ToEnd(b, k)) && Partition(z, ToEnd(a, k), Without(b, k))
  {
    WithoutDistinct(a, k);
    WithoutDistinct(b, k);
    ToEndDistinct(a, k);
    ToEndDistinct(b, k);
  }
}
