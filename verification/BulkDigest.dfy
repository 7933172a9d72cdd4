/**
 * The tree digest of big raw data (`src/cash/bulk_digest.py`): data cut into fixed leaves,
 * each hashed on its own, the leaf digests hashed together behind the total length.
 *
 * The hashes are functions given from outside; a leaf digest and a root digest have
 * `DIGEST_BYTES` bytes.
 */
module BulkDigest {
  import opened Options
  import opened ByteFraming

  const LEAF_BYTES: nat := 1_048_576
  const PARALLEL_MIN_BYTES: nat := 0x80_0000
  const DIGEST_BYTES: nat := 32

  /** The scheme an install uses: the hashes, the tag at the head of a tree, the biggest buffer folded in whole. */
  datatype Scheme = Scheme(leaf: Bytes -> Bytes, root: Bytes -> Bytes, tag: Bytes, directMax: nat)

  /** Digests have one length. */
  ghost predicate FixedLength(h: Scheme)
  {
    (forall x :: |h.leaf(x)| == DIGEST_BYTES) && (forall x :: |h.root(x)| == DIGEST_BYTES)
  }

  /** Two leaves with one digest. */
  predicate LeafCollision(h: Scheme, x: Bytes, y: Bytes)
  {
    x != y && h.leaf(x) == h.leaf(y)
  }

  /** Two root preimages with one digest. */
  predicate RootCollision(h: Scheme, x: Bytes, y: Bytes)
  {
    x != y && h.root(x) == h.root(y)
  }

  // ---- What a digest is --------------------------------------------------

  /** The data cut into leaves: all whole but the last. */
  function Cut(data: Bytes): (leaves: seq<Bytes>)
    ensures forall l <- leaves :: 0 < |l| <= LEAF_BYTES
  {
    if data == [] then []
    else if |data| <= LEAF_BYTES then [data]
    else [data[..LEAF_BYTES]] + Cut(data[LEAF_BYTES..])
  }

  /** The leaf digests, one after the other. */
  function LeafHashes(h: Scheme, leaves: seq<Bytes>): Bytes
  {
    if leaves == [] then [] else h.leaf(leaves[0]) + LeafHashes(h, leaves[1..])
  }

  /** What the root hash is taken of: the tag, the total length, the digest of each leaf in order. */
  function Preimage(h: Scheme, data: Bytes): Bytes
    requires |data| < TWO_64
  {
    h.tag + (Length8(|data|) + LeafHashes(h, Cut(data)))
  }

  function Digest(h: Scheme, data: Bytes): Bytes
    requires |data| < TWO_64
  {
    h.root(Preimage(h, data))
  }

  // ---- Distinct data, distinct preimages ---------------------------------

  lemma {:induction false} CutJoins(a: Bytes, b: Bytes)
    requires Cut(a) == Cut(b)
    ensures a == b
    decreases |a|
  {
    if a == [] || b == [] {
    } else if |a| <= LEAF_BYTES && |b| <= LEAF_BYTES {
      assert Cut(a)[0] == Cut(b)[0];
    } else {
      CutHead(a);
      CutHead(b);
      assert Cut(a)[0] == Cut(b)[0];
      assert Cut(a)[1..] == Cut(b)[1..];
      if |a| > LEAF_BYTES && |b| > LEAF_BYTES {
        CutJoins(a[LEAF_BYTES..], b[LEAF_BYTES..]);
        assert a == a[..LEAF_BYTES] + a[LEAF_BYTES..] && b == b[..LEAF_BYTES] + b[LEAF_BYTES..];
      }
    }
  }

  lemma CutHead(a: Bytes)
    requires a != []
    ensures Cut(a) != []
    ensures |a| <= LEAF_BYTES ==> Cut(a) == [a] && Cut(a)[1..] == []
    ensures |a| > LEAF_BYTES ==> Cut(a)[0] == a[..LEAF_BYTES] && Cut(a)[1..] == Cut(a[LEAF_BYTES..])
    ensures |a| > LEAF_BYTES ==> Cut(a)[1..] != []
  {
  }

  /** Somewhere the two lists have different leaves with one digest. */
  ghost predicate LeavesCollide(h: Scheme, a: seq<Bytes>, b: seq<Bytes>)
  {
    exists i :: 0 <= i < |a| && i < |b| && LeafCollision(h, a[i], b[i])
  }

  lemma LaterCollide(h: Scheme, a: seq<Bytes>, b: seq<Bytes>)
    requires a != [] && b != [] && LeavesCollide(h, a[1..], b[1..])
    ensures LeavesCollide(h, a, b)
  {
    var i :| 0 <= i < |a[1..]| && i < |b[1..]| && LeafCollision(h, a[1..][i], b[1..][i]);
    assert LeafCollision(h, a[i + 1], b[i + 1]);
  }

  lemma {:induction false} HashesInjective(h: Scheme, a: seq<Bytes>, b: seq<Bytes>)
    requires FixedLength(h) && LeafHashes(h, a) == LeafHashes(h, b)
    ensures a == b || LeavesCollide(h, a, b)
  {
    if a != [] && b != [] {
      SplitEqual(h.leaf(a[0]), LeafHashes(h, a[1..]), h.leaf(b[0]), LeafHashes(h, b[1..]));
      HashesInjective(h, a[1..], b[1..]);
      if a[0] != b[0] {
        assert LeafCollision(h, a[0], b[0]);
      } else if a[1..] != b[1..] {
        LaterCollide(h, a, b);
      } else {
        assert a == [a[0]] + a[1..] && b == [b[0]] + b[1..];
      }
    }
  }

  /** Different data with one root preimage give two leaves with one digest, at the same place. */
  lemma PreimageInjective(h: Scheme, a: Bytes, b: Bytes)
    requires FixedLength(h) && |a| < TWO_64 && |b| < TWO_64
    requires Preimage(h, a) == Preimage(h, b)
    ensures a == b || LeavesCollide(h, Cut(a), Cut(b))
  {
    var la, lb := Length8(|a|), Length8(|b|);
    SplitEqual(h.tag, la + LeafHashes(h, Cut(a)), h.tag, lb + LeafHashes(h, Cut(b)));
    SplitEqual(la, LeafHashes(h, Cut(a)), lb, LeafHashes(h, Cut(b)));
    HashesInjective(h, Cut(a), Cut(b));
    if Cut(a) == Cut(b) {
      CutJoins(a, b);
    }
  }

  /** Different data with one digest give a collision of the leaf hash or of the root hash, to be read off the data. */
  ghost predicate Collide(h: Scheme, a: Bytes, b: Bytes)
  {
    && a != b && |a| < TWO_64 && |b| < TWO_64
    && (LeavesCollide(h, Cut(a), Cut(b)) || RootCollision(h, Preimage(h, a), Preimage(h, b)))
  }

  lemma DigestInjective(h: Scheme, a: Bytes, b: Bytes)
    requires FixedLength(h) && |a| < TWO_64 && |b| < TWO_64 && Digest(h, a) == Digest(h, b)
    ensures a == b || Collide(h, a, b)
  {
    if Preimage(h, a) == Preimage(h, b) {
      PreimageInjective(h, a, b);
    }
  }

  // ---- Whole leaves, by index --------------------------------------------

  /** Leaf `i` of a buffer. */
  function LeafAt(view: Bytes, i: nat): Bytes
    requires (i + 1) * LEAF_BYTES <= |view|
  {
    view[i * LEAF_BYTES..(i + 1) * LEAF_BYTES]
  }

  /** The digests of the first `count` whole leaves, in order. */
  function WholeDigests(h: Scheme, view: Bytes, count: nat): (r: seq<Bytes>)
    requires count * LEAF_BYTES <= |view|
    ensures |r| == count
    ensures forall i: nat | i < count :: (i + 1) * LEAF_BYTES <= |view| && r[i] == h.leaf(LeafAt(view, i))
  {
    if count == 0 then [] else WholeDigests(h, view, count - 1) + [h.leaf(LeafAt(view, count - 1))]
  }

  function Join(parts: seq<Bytes>): Bytes
  {
    if parts == [] then [] else parts[0] + Join(parts[1..])
  }

  lemma {:induction false} JoinAppend(a: seq<Bytes>, b: seq<Bytes>)
    ensures Join(a + b) == Join(a) + Join(b)
  {
    if a == [] {
      assert a + b == b;
    } else {
      assert (a + b)[1..] == a[1..] + b;
      JoinAppend(a[1..], b);
      assert a[0] + (Join(a[1..]) + Join(b)) == (a[0] + Join(a[1..])) + Join(b);
    }
  }

  /** What follows the whole leaves. */
  function LastDigest(h: Scheme, rest: Bytes): Bytes
  {
    if rest == [] then [] else h.leaf(rest)
  }

  lemma SliceBehind(data: Bytes, view: Bytes, a: nat, b: nat)
    requires a <= b <= |view|
    ensures (data + view)[|data| + a..|data| + b] == view[a..b]
  {
  }

  /** Behind data that ends at a leaf's end, leaves are counted on. */
  lemma LeafBehind(data: Bytes, view: Bytes, count: nat, j: nat)
    requires |data| == count * LEAF_BYTES && (j + 1) * LEAF_BYTES <= |view|
    ensures (count + j + 1) * LEAF_BYTES <= |data + view| && LeafAt(data + view, count + j) == LeafAt(view, j)
  {
    SliceBehind(data, view, j * LEAF_BYTES, (j + 1) * LEAF_BYTES);
  }

  /** Cutting off one whole leaf: the digests that are left are the rest's. */
  lemma {:induction false} WholeTail(h: Scheme, view: Bytes, count: nat)
    requires count * LEAF_BYTES <= |view| && count > 0
    ensures (count - 1) * LEAF_BYTES <= |view[LEAF_BYTES..]|
    ensures WholeDigests(h, view, count) == [h.leaf(view[..LEAF_BYTES])] + WholeDigests(h, view[LEAF_BYTES..], count - 1)
  {
    var tail := view[LEAF_BYTES..];
    var r := [h.leaf(view[..LEAF_BYTES])] + WholeDigests(h, tail, count - 1);
    assert LeafAt(view, 0) == view[..LEAF_BYTES];
    forall i: nat | i < count
      ensures WholeDigests(h, view, count)[i] == r[i]
    {
      if i > 0 {
        assert view == view[..LEAF_BYTES] + tail;
        LeafBehind(view[..LEAF_BYTES], tail, 1, i - 1);
      }
    }
  }

  /** Whole leaves by index and the rest have the hashes of the leaves the data is cut into. */
  ghost predicate AsCut(h: Scheme, data: Bytes, count: nat)
  {
    && count * LEAF_BYTES <= |data|
    && Join(WholeDigests(h, data, count)) + LastDigest(h, data[count * LEAF_BYTES..]) == LeafHashes(h, Cut(data))
  }

  lemma {:induction false} WholeIsCut(h: Scheme, data: Bytes, count: nat)
    requires count * LEAF_BYTES <= |data| < (count + 1) * LEAF_BYTES
    ensures AsCut(h, data, count)
    decreases count
  {
    if count == 0 {
      NoneIsCut(h, data);
    } else {
      var rest := data[LEAF_BYTES..];
      assert |rest| == |data| - LEAF_BYTES;
      WholeIsCut(h, rest, count - 1);
      WholeStep(h, data, count);
    }
  }

  lemma NoneIsCut(h: Scheme, data: Bytes)
    requires |data| < LEAF_BYTES
    ensures AsCut(h, data, 0)
  {
    assert data[0..] == data;
    CutShort(h, data);
    assert Join(WholeDigests(h, data, 0)) == [];
  }

  lemma WholeStep(h: Scheme, data: Bytes, count: nat)
    requires 0 < count && count * LEAF_BYTES <= |data| && AsCut(h, data[LEAF_BYTES..], count - 1)
    ensures AsCut(h, data, count)
  {
    var first, rest := h.leaf(data[..LEAF_BYTES]), WholeDigests(h, data[LEAF_BYTES..], count - 1);
    var last := LastDigest(h, data[count * LEAF_BYTES..]);
    assert Join(WholeDigests(h, data, count)) + last == first + (Join(rest) + last) by {
      WholeTail(h, data, count);
      JoinFirst(first, rest, last);
    }
    assert Join(rest) + last == LeafHashes(h, Cut(data[LEAF_BYTES..])) by {
      DropTwice(data, count);
    }
    CutWhole(h, data);
  }

  lemma DropTwice(data: Bytes, count: nat)
    requires 0 < count && count * LEAF_BYTES <= |data|
    ensures data[LEAF_BYTES..][(count - 1) * LEAF_BYTES..] == data[count * LEAF_BYTES..]
  {
  }

  lemma JoinFirst(first: Bytes, rest: seq<Bytes>, last: Bytes)
    ensures Join([first] + rest) + last == first + (Join(rest) + last)
  {
    assert ([first] + rest)[1..] == rest;
  }

  lemma CutShort(h: Scheme, data: Bytes)
    requires |data| < LEAF_BYTES
    ensures LeafHashes(h, Cut(data)) == LastDigest(h, data)
  {
    if data != [] {
      assert Cut(data) == [data];
      assert LeafHashes(h, [data]) == h.leaf(data) + LeafHashes(h, []);
    }
  }

  lemma CutWhole(h: Scheme, data: Bytes)
    requires |data| >= LEAF_BYTES
    ensures LeafHashes(h, Cut(data)) == h.leaf(data[..LEAF_BYTES]) + LeafHashes(h, Cut(data[LEAF_BYTES..]))
  {
    if |data| == LEAF_BYTES {
      assert data[..LEAF_BYTES] == data && data[LEAF_BYTES..] == [];
    } else {
      CutHead(data);
    }
  }

  // ---- Several threads ---------------------------------------------------

  /** `bounds`: worker `k` fills the slots from `bounds[k]` up to `bounds[k + 1]`. */
  ghost predicate BoundsOk(bounds: seq<nat>, count: nat, threads: nat)
  {
    && |bounds| == threads + 1 && bounds[0] == 0 && bounds[threads] == count
    && forall j, k | 0 <= j <= k <= threads :: bounds[j] <= bounds[k]
  }

  lemma DivGrows(count: nat, threads: nat, j: nat, k: nat)
    requires threads > 0 && j <= k
    ensures count * j / threads <= count * k / threads
  {
    var a, b := count * j, count * k;
    assert a <= b;
    assert a / threads * threads <= a && b < (b / threads + 1) * threads;
    if a / threads > b / threads {
      MulGrows(threads, b / threads + 1, a / threads);
      assert false;
    }
  }

  lemma MulGrows(d: nat, x: nat, y: nat)
    requires x <= y
    ensures x * d <= y * d
  {
  }

  lemma DivExact(count: nat, threads: nat)
    requires threads > 0
    ensures count * threads / threads == count
  {
    var q := count * threads / threads;
    assert q * threads <= count * threads < (q + 1) * threads;
    if q < count {
      MulGrows(threads, q + 1, count);
      assert false;
    }
    if q > count {
      MulGrows(threads, count + 1, q);
      assert false;
    }
  }

  /** The bounds the source computes share the slots out without gap or overlap. */
  method Bounds(count: nat, threads: nat) returns (bounds: seq<nat>)
    requires threads > 0
    ensures BoundsOk(bounds, count, threads)
    ensures forall k | 0 <= k <= threads :: bounds[k] == count * k / threads
  {
    bounds := seq(threads + 1, k requires 0 <= k <= threads => count * k / threads);
    forall j: nat, k: nat | j <= k <= threads ensures bounds[j] <= bounds[k] {
      DivGrows(count, threads, j, k);
    }
    DivExact(count, threads);
  }

  /** Slot `i` is one of worker `k`'s. */
  predicate InRange(bounds: seq<nat>, k: nat, i: nat)
    requires k + 1 < |bounds|
  {
    bounds[k] <= i < bounds[k + 1]
  }

  /** Every slot has a worker. */
  lemma HasWorker(bounds: seq<nat>, count: nat, threads: nat, i: nat) returns (k: nat)
    requires BoundsOk(bounds, count, threads) && i < count
    ensures k < threads && InRange(bounds, k, i)
  {
    k := 0;
    while bounds[k + 1] <= i
      invariant k < threads && bounds[k] <= i
      decreases threads - k
    {
      k := k + 1;
    }
  }

  /** No slot has two. */
  lemma OneWorker(bounds: seq<nat>, count: nat, threads: nat, j: nat, k: nat, i: nat)
    requires BoundsOk(bounds, count, threads) && j < threads && k < threads
    requires InRange(bounds, j, i) && InRange(bounds, k, i)
    ensures j == k
  {
  }

  /** The workers: where each has got to, and what the slots hold. */
  datatype Pool = Pool(next: seq<nat>, out: seq<Option<Bytes>>)

  /** Worker `k`'s slots below `next[k]` hold their digest, written once; the others are untouched. */
  ghost predicate Slot(want: seq<Bytes>, p: Pool, writes: seq<nat>, k: nat, i: nat)
    requires k < |p.next| && i < |want| == |p.out| == |writes|
  {
    if i < p.next[k] then p.out[i] == Some(want[i]) && writes[i] == 1
    else p.out[i] == None && writes[i] == 0
  }

  ghost predicate PoolOk(want: seq<Bytes>, bounds: seq<nat>, threads: nat, p: Pool, writes: seq<nat>)
  {
    && BoundsOk(bounds, |want|, threads)
    && |p.next| == threads && |p.out| == |writes| == |want|
    && (forall k: nat | k < threads :: bounds[k] <= p.next[k] && p.next[k] <= bounds[k + 1])
    && (forall k: nat, i: nat | k < threads && i < |want| && InRange(bounds, k, i) :: Slot(want, p, writes, k, i))
  }

  predicate CanStep(bounds: seq<nat>, p: Pool, k: nat)
    requires |p.next| < |bounds|
  {
    k < |p.next| && p.next[k] < bounds[k + 1]
  }

  /** Whichever worker goes next, the slots stay right. */
  lemma PoolStep(want: seq<Bytes>, bounds: seq<nat>, threads: nat, p: Pool, writes: seq<nat>, k: nat)
    requires PoolOk(want, bounds, threads, p, writes) && CanStep(bounds, p, k)
    ensures p.next[k] < |want|
    ensures var i := p.next[k];
            PoolOk(want, bounds, threads, Pool(p.next[k := i + 1], p.out[i := Some(want[i])]), writes[i := writes[i] + 1])
  {
    var at := p.next[k];
    assert bounds[k + 1] <= bounds[threads];
    var p', writes' := Pool(p.next[k := at + 1], p.out[at := Some(want[at])]), writes[at := writes[at] + 1];
    assert InRange(bounds, k, at);
    assert Slot(want, p, writes, k, at);
    forall j: nat, i: nat | j < threads && i < |want| && InRange(bounds, j, i)
      ensures Slot(want, p', writes', j, i)
    {
      assert Slot(want, p, writes, j, i);
      if i == at {
        OneWorker(bounds, |want|, threads, j, k, i);
      }
    }
  }

  lemma PoolStart(want: seq<Bytes>, bounds: seq<nat>, threads: nat, p: Pool, writes: seq<nat>)
    requires BoundsOk(bounds, |want|, threads) && p.next == bounds[..threads]
    requires |p.out| == |want| && forall i | 0 <= i < |want| :: p.out[i] == None
    requires |writes| == |want| && forall i | 0 <= i < |want| :: writes[i] == 0
    ensures PoolOk(want, bounds, threads, p, writes)
  {
  }

  /** When every worker is through, each slot holds its leaf's digest and was written once. */
  lemma PoolEnd(want: seq<Bytes>, bounds: seq<nat>, threads: nat, p: Pool, writes: seq<nat>, i: nat)
    requires PoolOk(want, bounds, threads, p, writes) && i < |want|
    requires forall k: nat | k < threads :: !CanStep(bounds, p, k)
    ensures p.out[i] == Some(want[i]) && writes[i] == 1
  {
    var k := HasWorker(bounds, |want|, threads, i);
    assert !CanStep(bounds, p, k);
    assert Slot(want, p, writes, k, i);
  }

  /** How many slots the first `k` workers have left. */
  ghost function Left(bounds: seq<nat>, next: seq<nat>, k: nat): int
    requires k <= |next| < |bounds|
  {
    if k == 0 then 0 else Left(bounds, next, k - 1) + bounds[k] - next[k - 1]
  }

  lemma {:induction false} LeftDrops(bounds: seq<nat>, next: seq<nat>, at: nat, k: nat)
    requires k <= |next| < |bounds| && at < |next|
    ensures Left(bounds, next[at := next[at] + 1], k) == Left(bounds, next, k) - (if at < k then 1 else 0)
  {
    if k > 0 {
      LeftDrops(bounds, next, at, k - 1);
    }
  }

  lemma {:induction false} LeftPositive(bounds: seq<nat>, next: seq<nat>, k: nat)
    requires k <= |next| < |bounds| && forall j: nat | j < |next| :: next[j] <= bounds[j + 1]
    ensures Left(bounds, next, k) >= 0
  {
    if k > 0 {
      LeftPositive(bounds, next, k - 1);
    }
  }

  /** One worker fills its next slot. */
  method WorkerStep(
    h: Scheme, view: Bytes, ghost want: seq<Bytes>, bounds: seq<nat>, threads: nat, p: Pool, ghost writes: seq<nat>, k: nat)
    returns (p': Pool, ghost writes': seq<nat>)
    requires |want| * LEAF_BYTES <= |view| && forall i: nat | i < |want| :: want[i] == h.leaf(LeafAt(view, i))
    requires PoolOk(want, bounds, threads, p, writes) && CanStep(bounds, p, k)
    ensures PoolOk(want, bounds, threads, p', writes')
    ensures p'.next == p.next[k := p.next[k] + 1]
  {
    var i := p.next[k];
    PoolStep(want, bounds, threads, p, writes, k);
    p' := Pool(p.next[k := i + 1], p.out[i := Some(h.leaf(LeafAt(view, i)))]);
    writes' := writes[i := writes[i] + 1];
  }

  lemma LeftStep(bounds: seq<nat>, next: seq<nat>, next': seq<nat>, k: nat)
    requires |next| < |bounds| && k < |next| && next' == next[k := next[k] + 1]
    requires forall j: nat | j < |next'| :: next'[j] <= bounds[j + 1]
    ensures 0 <= Left(bounds, next', |next|) < Left(bounds, next, |next|)
  {
    LeftDrops(bounds, next, k, |next|);
    LeftPositive(bounds, next', |next|);
  }

  /** The workers run to the end, in an order nothing here chooses. */
  method RunWorkers(h: Scheme, view: Bytes, count: nat, threads: nat) returns (r: seq<Bytes>, ghost writes: seq<nat>)
    requires count * LEAF_BYTES <= |view| && threads > 0
    ensures r == WholeDigests(h, view, count)
    ensures |writes| == count && forall i | 0 <= i < count :: writes[i] == 1
  {
    var bounds := Bounds(count, threads);
    ghost var want := WholeDigests(h, view, count);
    var p := Pool(bounds[..threads], seq(count, i => None));
    writes := seq(count, i => 0);
    PoolStart(want, bounds, threads, p, writes);
    while exists k: nat | k < threads :: CanStep(bounds, p, k)
      invariant PoolOk(want, bounds, threads, p, writes)
      decreases Left(bounds, p.next, threads)
    {
      var k: nat :| k < threads && CanStep(bounds, p, k);
      ghost var before := p.next;
      p, writes := WorkerStep(h, view, want, bounds, threads, p, writes, k);
      LeftStep(bounds, before, p.next, k);
    }
    forall i: nat | i < count ensures p.out[i] == Some(want[i]) && writes[i] == 1 {
      PoolEnd(want, bounds, threads, p, writes, i);
    }
    r := seq(count, i requires 0 <= i < count && p.out[i].Some? => p.out[i].value);
  }

  /**
   * `_leaf_digests`: the digests of the first `count` leaves. With enough to share out, the
   * slots are filled by several workers in an order nothing here chooses.
   */
  method LeafDigests(h: Scheme, view: Bytes, count: nat, available: nat) returns (r: seq<Bytes>)
    requires count * LEAF_BYTES <= |view|
    ensures r == WholeDigests(h, view, count)
  {
    var share := count * LEAF_BYTES / PARALLEL_MIN_BYTES;
    var threads := if available < share then available else share;
    if threads < 2 {
      r := [];
      for i := 0 to count
        invariant r == WholeDigests(h, view, i)
      {
        r := r + [h.leaf(LeafAt(view, i))];
      }
      return;
    }
    ghost var writes;
    r, writes := RunWorkers(h, view, count, threads);
  }

  // ---- The stream and the one-shot digest --------------------------------

  /** Whole leaves stay what they are when data is added behind them. */
  lemma {:induction false} WholePrefix(h: Scheme, data: Bytes, more: Bytes, count: nat)
    requires count * LEAF_BYTES <= |data|
    ensures WholeDigests(h, data + more, count) == WholeDigests(h, data, count)
  {
    forall i: nat | i < count
      ensures WholeDigests(h, data + more, count)[i] == WholeDigests(h, data, count)[i]
    {
      assert LeafAt(data + more, i) == LeafAt(data, i);
    }
  }

  /** Leaves of the new piece follow the leaves before, when those end at a leaf's end. */
  lemma {:induction false} WholeFollows(h: Scheme, data: Bytes, view: Bytes, count: nat, more: nat)
    requires count * LEAF_BYTES == |data| && more * LEAF_BYTES <= |view|
    ensures (count + more) * LEAF_BYTES <= |data + view|
    ensures WholeDigests(h, data + view, count + more) == WholeDigests(h, data, count) + WholeDigests(h, view, more)
  {
    WholePrefix(h, data, view, count);
    var all := data + view;
    forall i: nat | i < count + more
      ensures WholeDigests(h, all, count + more)[i] == (WholeDigests(h, data, count) + WholeDigests(h, view, more))[i]
    {
      if i < count {
        assert LeafAt(all, i) == LeafAt(data, i);
      } else {
        LeafBehind(data, view, count, i - count);
      }
    }
  }

  /** The digest from the whole leaves' digests and what is left. */
  lemma DigestFromLeaves(h: Scheme, data: Bytes, leaves: seq<Bytes>, rest: Bytes)
    requires |data| < TWO_64 && |leaves| * LEAF_BYTES <= |data| < (|leaves| + 1) * LEAF_BYTES
    requires leaves == WholeDigests(h, data, |leaves|) && rest == data[|leaves| * LEAF_BYTES..]
    ensures Digest(h, data) == h.root(h.tag + (Length8(|data|) + (Join(leaves) + LastDigest(h, rest))))
  {
    WholeIsCut(h, data, |leaves|);
  }

  /** `leaves` are the digests of the whole leaves of `data`, `partial` is what follows them. */
  ghost predicate Holds(h: Scheme, data: Bytes, leaves: seq<Bytes>, partial: Bytes)
  {
    && |partial| < LEAF_BYTES && |leaves| * LEAF_BYTES + |partial| == |data|
    && leaves == WholeDigests(h, data, |leaves|)
    && partial == data[|leaves| * LEAF_BYTES..]
  }

  /** A piece that does not fill the leaf begun before. */
  lemma TopUp(h: Scheme, data: Bytes, leaves: seq<Bytes>, partial: Bytes, more: Bytes)
    requires Holds(h, data, leaves, partial) && |partial| + |more| < LEAF_BYTES
    ensures Holds(h, data + more, leaves, partial + more)
  {
    WholePrefix(h, data, more, |leaves|);
    DropKeeps(data, more, |leaves| * LEAF_BYTES);
  }

  lemma DropKeeps(data: Bytes, more: Bytes, n: nat)
    requires n <= |data|
    ensures (data + more)[n..] == data[n..] + more
  {
  }

  /** A piece that fills it. */
  lemma FillUp(h: Scheme, data: Bytes, leaves: seq<Bytes>, partial: Bytes, more: Bytes)
    requires Holds(h, data, leaves, partial) && |partial| + |more| == LEAF_BYTES
    ensures Holds(h, data + more, leaves + [h.leaf(partial + more)], [])
  {
    var all, n := data + more, |leaves|;
    WholePrefix(h, data, more, n);
    DropKeeps(data, more, n * LEAF_BYTES);
    assert LeafAt(all, n) == all[n * LEAF_BYTES..];
    assert WholeDigests(h, all, n + 1) == WholeDigests(h, all, n) + [h.leaf(LeafAt(all, n))];
  }

  /** Whole leaves, when none was begun. */
  lemma AddWhole(h: Scheme, data: Bytes, leaves: seq<Bytes>, more: Bytes, count: nat)
    requires Holds(h, data, leaves, []) && |more| == count * LEAF_BYTES
    ensures Holds(h, data + more, leaves + WholeDigests(h, more, count), [])
  {
    WholeFollows(h, data, more, |leaves|, count);
  }

  /** Less than a leaf, when none was begun. */
  lemma AddLess(h: Scheme, data: Bytes, leaves: seq<Bytes>, rest: Bytes)
    requires Holds(h, data, leaves, []) && |rest| < LEAF_BYTES
    ensures Holds(h, data + rest, leaves, rest)
  {
    TopUp(h, data, leaves, [], rest);
    assert [] + rest == rest;
  }

  /** The whole leaves of a piece and what is left of it, when no leaf was begun. */
  lemma AddPiece(h: Scheme, data: Bytes, leaves: seq<Bytes>, tail: Bytes, whole: nat)
    requires Holds(h, data, leaves, []) && whole * LEAF_BYTES <= |tail| < (whole + 1) * LEAF_BYTES
    ensures Holds(h, data + tail, leaves + WholeDigests(h, tail, whole), tail[whole * LEAF_BYTES..])
  {
    var head, rest := tail[..whole * LEAF_BYTES], tail[whole * LEAF_BYTES..];
    assert tail == head + rest;
    WholePrefix(h, head, rest, whole);
    AddWhole(h, data, leaves, head, whole);
    AddLess(h, data + head, leaves + WholeDigests(h, tail, whole), rest);
    assert data + tail == (data + head) + rest;
  }

  /** The streaming hasher. `data` is everything handed over so far. */
  class BulkHasher {
    const h: Scheme
    var leaves: seq<Bytes>
    var partial: Bytes
    var total: nat
    ghost var data: Bytes

    ghost predicate Valid()
      reads this
    {
      total == |data| && Holds(h, data, leaves, partial)
    }

    constructor (h: Scheme)
      ensures Valid() && data == [] && this.h == h
    {
      this.h, leaves, partial, total, data := h, [], [], 0, [];
    }

    /** Take one more piece, of any length. */
    method Update(view: Bytes, available: nat)
      requires Valid()
      modifies this
      ensures Valid() && data == old(data) + view
    {
      var n := |view|;
      if n == 0 {
        assert data + view == data;
        return;
      }
      total := total + n;
      var start := 0;
      if partial != [] {
        start := if n < LEAF_BYTES - |partial| then n else LEAF_BYTES - |partial|;
        if |partial| + start < LEAF_BYTES {
          TopUp(h, data, leaves, partial, view[..start]);
          assert view[..start] == view;
        } else {
          FillUp(h, data, leaves, partial, view[..start]);
        }
        partial := partial + view[..start];
        data := data + view[..start];
        if |partial| < LEAF_BYTES {
          return;
        }
        leaves := leaves + [h.leaf(partial)];
        partial := [];
      } else {
        assert view[..start] == [] && data == old(data) + view[..start];
      }
      AddRest(view, start, available);
      assert view == view[..start] + view[start..];
      assert data == old(data) + view;
    }

    /** The whole leaves of the rest of a piece, and what is left of it (lines 181-186). */
    method AddRest(view: Bytes, start: nat, available: nat)
      requires start <= |view| && Holds(h, data, leaves, []) && partial == []
      modifies this`leaves, this`partial, this`data
      ensures Holds(h, data, leaves, partial) && data == old(data) + view[start..]
    {
      var n, tail := |view|, view[start..];
      var whole := (n - start) / LEAF_BYTES;
      var digests := [];
      if whole > 0 {
        digests := LeafDigests(h, tail, whole, available);
      }
      AddPiece(h, data, leaves, tail, whole);
      leaves, data := leaves + digests, data + tail;
      var rest := start + whole * LEAF_BYTES;
      assert view[rest..] == tail[whole * LEAF_BYTES..];
      if rest < n {
        partial := partial + view[rest..];
      }
    }

    /** The digest of everything so far; too long for its length field, none. */
    method DigestNow() returns (r: Option<Bytes>)
      requires Valid()
      ensures r == if |data| < TWO_64 then Some(Digest(h, data)) else None
    {
      if total >= TWO_64 {
        return None;
      }
      DigestFromLeaves(h, data, leaves, partial);
      var fed := h.tag + (Length8(total) + (Join(leaves) + LastDigest(h, partial)));
      return Some(h.root(fed));
    }
  }

  /** `bulk_digest`: the same digest of one buffer, in one go. */
  method BulkDigestOf(h: Scheme, view: Bytes, available: nat) returns (r: Option<Bytes>)
    ensures r == if |view| < TWO_64 then Some(Digest(h, view)) else None
  {
    var n := |view|;
    var whole := n / LEAF_BYTES;
    if n >= TWO_64 {
      return None;
    }
    var fed := [];
    var digests := [];
    if whole > 0 {
      digests := LeafDigests(h, view, whole, available);
      fed := Join(digests);
    }
    var rest := view[whole * LEAF_BYTES..];
    DigestFromLeaves(h, view, digests, rest);
    if n > whole * LEAF_BYTES {
      fed := fed + h.leaf(rest);
    }
    assert fed == Join(digests) + LastDigest(h, rest);
    return Some(h.root(h.tag + (Length8(n) + fed)));
  }

  /** However the data is cut into pieces and however many threads there are, the two agree. */
  method StreamAgrees(h: Scheme, pieces: seq<Bytes>, threads: seq<nat>, oneShot: nat)
    returns (streamed: Option<Bytes>, once: Option<Bytes>)
    requires |threads| == |pieces|
    ensures streamed == once
    ensures |Join(pieces)| < TWO_64 ==> once == Some(Digest(h, Join(pieces)))
  {
    var hasher := new BulkHasher(h);
    for i := 0 to |pieces|
      invariant hasher.Valid() && hasher.h == h && hasher.data == Join(pieces[..i])
      invariant fresh(hasher)
    {
      hasher.Update(pieces[i], threads[i]);
      assert pieces[..i + 1] == pieces[..i] + [pieces[i]];
      JoinAppend(pieces[..i], [pieces[i]]);
      assert Join([pieces[i]]) == pieces[i];
    }
    assert pieces[..|pieces|] == pieces;
    streamed := hasher.DigestNow();
    once := BulkDigestOf(h, Join(pieces), oneShot);
  }

  // ---- Folding buffers into a running hash -------------------------------

  /** What one `fold_buffer` feeds: a tag, the length, the bytes or their tree digest. */
  function Feed(h: Scheme, data: Bytes): Bytes
    requires |data| < TWO_64
  {
    if |data| <= h.directMax then (['r' as int] + Length8(|data|)) + data
    else (['t' as int] + Length8(|data|)) + Digest(h, data)
  }

  function FeedAll(h: Scheme, buffers: seq<Bytes>): Bytes
    requires Short(buffers)
  {
    if buffers == [] then [] else Feed(h, buffers[0]) + FeedAll(h, buffers[1..])
  }

  /** A running hash, as the bytes fed to it. */
  class Running {
    var fed: Bytes

    constructor ()
      ensures fed == []
    {
      fed := [];
    }

    method Update(piece: Bytes)
      modifies this
      ensures fed == old(fed) + piece
    {
      fed := fed + piece;
    }
  }

  /** `fold_buffer`; a buffer too long for its length field is refused and nothing is fed. */
  method FoldBuffer(h: Scheme, running: Running, data: Bytes, available: nat) returns (ok: bool)
    modifies running
    ensures ok == (|data| < TWO_64)
    ensures running.fed == if ok then old(running.fed) + Feed(h, data) else old(running.fed)
  {
    var n := |data|;
    if n >= TWO_64 {
      return false;
    }
    if n <= h.directMax {
      running.Update(['r' as int] + Length8(n));
      running.Update(data);
    } else {
      running.Update(['t' as int] + Length8(n));
      var digest := BulkDigestOf(h, data, available);
      running.Update(digest.value);
    }
    return true;
  }

  /** What one call feeds can be told from whatever is fed after it, short of a collision. */
  lemma FeedSplit(h: Scheme, a: Bytes, a': Bytes, b: Bytes, b': Bytes)
    requires FixedLength(h) && |a| < TWO_64 && |b| < TWO_64
    requires Feed(h, a) + a' == Feed(h, b) + b'
    ensures a' == b' && |a| == |b|
    ensures a == b || (|a| > h.directMax && Collide(h, a, b))
  {
    var ta, tb := if |a| <= h.directMax then 'r' as int else 't' as int, if |b| <= h.directMax then 'r' as int else 't' as int;
    var ba, bb := if |a| <= h.directMax then a else Digest(h, a), if |b| <= h.directMax then b else Digest(h, b);
    var la, lb := [ta] + Length8(|a|), [tb] + Length8(|b|);
    PrefixSplit(la, ba, a', lb, bb, b');
    SplitEqual([ta], Length8(|a|), [tb], Length8(|b|));
    Length8Injective(|a|, |b|);
    assert |ba| == |bb|;
    SplitEqual(ba, a', bb, b');
    if |a| > h.directMax {
      DigestInjective(h, a, b);
    }
  }

  /** At some place the two sequences have different big buffers whose digests collide. */
  ghost predicate BuffersCollide(h: Scheme, a: seq<Bytes>, b: seq<Bytes>)
  {
    exists i :: 0 <= i < |a| && i < |b| && |a[i]| > h.directMax && Collide(h, a[i], b[i])
  }

  lemma LaterBuffersCollide(h: Scheme, a: seq<Bytes>, b: seq<Bytes>)
    requires a != [] && b != [] && BuffersCollide(h, a[1..], b[1..])
    ensures BuffersCollide(h, a, b)
  {
    var i :| 0 <= i < |a[1..]| && i < |b[1..]| && |a[1..][i]| > h.directMax && Collide(h, a[1..][i], b[1..][i]);
    assert Collide(h, a[i + 1], b[i + 1]);
  }

  lemma FeedFirst(h: Scheme, a: seq<Bytes>, b: seq<Bytes>)
    requires FixedLength(h) && Short(a) && Short(b) && a != [] && b != []
    requires FeedAll(h, a) == FeedAll(h, b)
    ensures FeedAll(h, a[1..]) == FeedAll(h, b[1..]) && (a[0] == b[0] || BuffersCollide(h, a, b))
  {
    FeedSplit(h, a[0], FeedAll(h, a[1..]), b[0], FeedAll(h, b[1..]));
    assert Collide(h, a[0], b[0]) && |a[0]| > h.directMax ==> BuffersCollide(h, a, b);
  }

  lemma FeedsSomething(h: Scheme, a: seq<Bytes>)
    requires Short(a) && a != []
    ensures |FeedAll(h, a)| > 0
  {
    assert |Feed(h, a[0])| > 0;
  }

  lemma SameOrCollide(h: Scheme, a: seq<Bytes>, b: seq<Bytes>)
    requires a != [] && b != [] && a[0] == b[0] && (a[1..] == b[1..] || BuffersCollide(h, a[1..], b[1..]))
    ensures a == b || BuffersCollide(h, a, b)
  {
    if a[1..] == b[1..] {
      assert a == [a[0]] + a[1..] && b == [b[0]] + b[1..];
    } else {
      LaterBuffersCollide(h, a, b);
    }
  }

  /** The bytes that any sequence of calls feeds determine the sequence of buffers, or a collision can be read off the two. */
  lemma {:induction false} FeedInjective(h: Scheme, a: seq<Bytes>, b: seq<Bytes>)
    requires FixedLength(h) && Short(a) && Short(b)
    requires FeedAll(h, a) == FeedAll(h, b)
    ensures a == b || BuffersCollide(h, a, b)
  {
    if a == [] && b != [] {
      FeedsSomething(h, b);
    } else if a != [] && b == [] {
      FeedsSomething(h, a);
    } else if a != [] {
      FeedFirst(h, a, b);
      if a[0] == b[0] {
        FeedInjective(h, a[1..], b[1..]);
        SameOrCollide(h, a, b);
      }
    }
  }

  // ---- The claims have instances -----------------------------------------

  /** A digest of the first bytes, filled up with zeros. */
  function Head(x: Bytes): (d: Bytes)
    ensures |d| == DIGEST_BYTES
  {
    seq(DIGEST_BYTES, i => if 0 <= i < |x| then x[i] else 0)
  }

  /** A scheme of fixed length, two data whose leaves do not collide, and so two preimages. */
  lemma ToldApart() returns (h: Scheme, a: Bytes, b: Bytes)
    ensures FixedLength(h) && a != b && |a| < TWO_64 && |b| < TWO_64 && !LeavesCollide(h, Cut(a), Cut(b))
    ensures Preimage(h, a) != Preimage(h, b)
  {
    h := Scheme(x => Head(x), x => Head(x), [], 0);
    a, b := [1], [2];
    assert Cut(a) == [a] && Cut(b) == [b];
    assert Head(a)[0] != Head(b)[0];
    if Preimage(h, a) == Preimage(h, b) {
      PreimageInjective(h, a, b);
    }
  }
}
