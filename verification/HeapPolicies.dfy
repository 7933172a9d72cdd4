/**
 * The policies that rank keys in a heap: `LFU`, `GDSF` (with the touch hint), `CostLRU` and
 * `SampledGDSF`. An entry is never updated in the heap: a new one is pushed, and the old one is
 * recognised as stale when it comes up.
 *
 * `heapq` is a multiset with pop-minimum.
 */
module StaleHeap {
  import opened Options
  import opened PolicyBase

  /** A heap entry: the rank, the tie-breaking stamp, the key, compared in that order. */
  datatype Entry = Entry(rank: real, stamp: int, key: Key)

  predicate Leq(a: Entry, b: Entry)
  {
    a.rank < b.rank || (a.rank == b.rank && (a.stamp < b.stamp || (a.stamp == b.stamp && a.key <= b.key)))
  }

  lemma {:induction false} MinExists(heap: multiset<Entry>) returns (m: Entry)
    requires heap != multiset{}
    ensures m in heap && forall x <- heap :: Leq(m, x)
    decreases |heap|
  {
    var x :| x in heap;
    var rest := heap - multiset{x};
    assert forall y <- heap :: y == x || y in rest;
    if rest == multiset{} {
      m := x;
    } else {
      var m' := MinExists(rest);
      m := if Leq(x, m') then x else m';
    }
  }

  /** `heapq.heappop`. */
  method PopMin(heap: multiset<Entry>) returns (e: Entry, rest: multiset<Entry>)
    requires heap != multiset{}
    ensures e in heap && rest == heap - multiset{e} && forall x <- heap :: Leq(e, x)
  {
    ghost var m := MinExists(heap);
    e :| e in heap && forall x <- heap :: Leq(e, x);
    rest := heap - multiset{e};
  }

  /** An entry that says what is now true of a key other than the protected one. */
  predicate Eligible(current: Entry -> bool, protect: Option<Key>, e: Entry)
  {
    current(e) && Some(e.key) != protect
  }

  /** What the loop of `_victim` keeps: no current entry is lost, only the protected key's are set aside. */
  ghost predicate Popped(
    heap: multiset<Entry>, current: Entry -> bool, protect: Option<Key>, left: multiset<Entry>, skipped: multiset<Entry>)
  {
    forall x: Entry {:trigger heap[x]} ::
      && left[x] + skipped[x] <= heap[x]
      && (current(x) ==> left[x] + skipped[x] == heap[x])
      && (skipped[x] > 0 ==> current(x) && Some(x.key) == protect)
  }

  lemma PopStep(
    heap: multiset<Entry>, current: Entry -> bool, protect: Option<Key>, left: multiset<Entry>, skipped: multiset<Entry>, e: Entry)
    requires Popped(heap, current, protect, left, skipped) && e in left
    ensures !current(e) ==> Popped(heap, current, protect, left - multiset{e}, skipped)
    ensures current(e) && Some(e.key) == protect ==>
              Popped(heap, current, protect, left - multiset{e}, skipped + multiset{e})
  {
    forall x: Entry
      ensures (left - multiset{e})[x] == left[x] - (if x == e then 1 else 0)
      ensures (skipped + multiset{e})[x] == skipped[x] + (if x == e then 1 else 0)
    {
    }
  }

  /** What the first other current entry is among all that were there. */
  lemma PopTake(
    heap: multiset<Entry>, current: Entry -> bool, protect: Option<Key>, left: multiset<Entry>, skipped: multiset<Entry>, e: Entry)
    requires Popped(heap, current, protect, left, skipped) && e in left && forall x <- left :: Leq(e, x)
    requires Eligible(current, protect, e)
    ensures e in heap && forall x <- heap | Eligible(current, protect, x) :: Leq(e, x)
    ensures forall x: Entry | current(x) && x != e :: (left - multiset{e} + skipped)[x] == heap[x]
    ensures (left - multiset{e} + skipped)[e] == heap[e] - 1
  {
    assert left[e] + skipped[e] <= heap[e];
    forall x <- heap | Eligible(current, protect, x) ensures Leq(e, x) {
      assert left[x] + skipped[x] == heap[x] && skipped[x] == 0;
    }
    forall x: Entry ensures (left - multiset{e} + skipped)[x] == left[x] + skipped[x] - (if x == e then 1 else 0) {
    }
  }

  /**
   * The loop of `_victim`: stale entries are thrown away, the protected key's are put back,
   * the first other current entry is taken.
   */
  method PopVictim(heap: multiset<Entry>, current: Entry -> bool, protect: Option<Key>)
    returns (v: Option<Entry>, rest: multiset<Entry>)
    ensures v.None? ==> forall x <- heap :: !Eligible(current, protect, x)
    ensures v.Some? ==> v.value in heap && Eligible(current, protect, v.value)
    ensures v.Some? ==> forall x <- heap | Eligible(current, protect, x) :: Leq(v.value, x)
    ensures forall x: Entry | current(x) && v != Some(x) :: rest[x] == heap[x]
    ensures v.Some? ==> rest[v.value] == heap[v.value] - 1
  {
    var left: multiset<Entry>, skipped: multiset<Entry> := heap, multiset{};
    while left != multiset{}
      invariant Popped(heap, current, protect, left, skipped)
      decreases |left|
    {
      var e, more := PopMin(left);
      PopStep(heap, current, protect, left, skipped, e);
      if current(e) {
        if Some(e.key) != protect {
          PopTake(heap, current, protect, left, skipped, e);
          return Some(e), more + skipped;
        }
        skipped := skipped + multiset{e};
      }
      left := more;
    }
    forall x <- heap ensures !Eligible(current, protect, x) {
      assert left[x] + skipped[x] == heap[x] || !current(x);
    }
    return None, skipped;
  }
}

/** `LFU` with the LRU tie-break. */
module LfuPolicy {
  import opened Options
  import opened PolicyBase
  import opened StaleHeap

  datatype State = State(freq: map<Key, nat>, last: map<Key, nat>, heap: multiset<Entry>)

  /** The entry that is true of a key. */
  function EntryOf(s: State, k: Key): Entry
    requires k in s.freq && k in s.last
  {
    Entry(s.freq[k] as real, s.last[k], k)
  }

  predicate Current(s: State, z: Sizes, e: Entry)
  {
    e.key in z.at && e.key in s.freq && e.key in s.last && e == EntryOf(s, e.key)
  }

  /** Every stored key but possibly one has its entry in the heap. */
  ghost predicate InvBut(s: State, z: Sizes, gone: Option<Key>)
  {
    && s.freq.Keys == z.at.Keys && s.last.Keys == z.at.Keys
    && forall k <- z.at | Some(k) != gone :: EntryOf(s, k) in s.heap
  }

  ghost predicate Inv(s: State, z: Sizes)
  {
    InvBut(s, z, None)
  }

  function Push(s: State, key: Key): State
    requires key in s.freq && key in s.last
  {
    s.(heap := s.heap + multiset{EntryOf(s, key)})
  }

  function OnHit(s: State, key: Key, now: nat): State
    requires key in s.freq && key in s.last
  {
    Push(s.(freq := s.freq[key := s.freq[key] + 1], last := s.last[key := now]), key)
  }

  function OnInsert(s: State, key: Key, now: nat): State
  {
    Push(s.(freq := s.freq[key := 1], last := s.last[key := now]), key)
  }

  function OnRemove(s: State, key: Key): State
  {
    s.(freq := map k | k in s.freq && k != key :: s.freq[k], last := map k | k in s.last && k != key :: s.last[k])
  }

  lemma HitKeeps(s: State, z: Sizes, key: Key, now: nat)
    requires Inv(s, z) && key in z.at
    ensures Inv(OnHit(s, key, now), z)
  {
    var s' := OnHit(s, key, now);
    forall k <- z.at ensures EntryOf(s', k) in s'.heap {
      assert k != key ==> EntryOf(s', k) == EntryOf(s, k);
    }
  }

  lemma InsertKeeps(s: State, z: Sizes, key: Key, n: nat, now: nat)
    requires Inv(s, z) && key !in z.at
    ensures Inv(OnInsert(s, key, now), Add(z, key, n))
  {
    var s' := OnInsert(s, key, now);
    forall k <- Add(z, key, n).at ensures EntryOf(s', k) in s'.heap {
      assert k != key ==> EntryOf(s', k) == EntryOf(s, k);
    }
  }

  lemma RemoveKeeps(s: State, z: Sizes, key: Key)
    requires InvBut(s, z, Some(key))
    ensures Inv(OnRemove(s, key), Drop(z, key))
  {
    var s' := OnRemove(s, key);
    assert s'.freq.Keys == Drop(z, key).at.Keys && s'.last.Keys == Drop(z, key).at.Keys;
    forall k <- Drop(z, key).at ensures EntryOf(s', k) in s'.heap {
      assert EntryOf(s', k) == EntryOf(s, k);
    }
  }

  /** The stored key used least often, and among those least recently; None only when there is no other. */
  method Victim(s: State, z: Sizes, protect: Option<Key>) returns (v: Option<Key>, r: State)
    requires Inv(s, z)
    ensures r.freq == s.freq && r.last == s.last
    ensures v.None? ==> Inv(r, z) && forall k <- z.at :: Some(k) == protect
    ensures v.Some? ==> v.value in z.at && Some(v.value) != protect && InvBut(r, z, v)
    ensures v.Some? ==> forall k <- z.at | Some(k) != protect :: Leq(EntryOf(s, v.value), EntryOf(s, k))
  {
    var e, rest := PopVictim(s.heap, e => Current(s, z, e), protect);
    r := s.(heap := rest);
    forall k <- z.at ensures Some(k) != protect ==> Eligible(e => Current(s, z, e), protect, EntryOf(s, k)) {
    }
    v := if e.None? then None else Some(e.value.key);
    forall k <- z.at | v != Some(k) ensures EntryOf(s, k) in rest {
      assert Current(s, z, EntryOf(s, k));
    }
  }
}

/** `GDSF`: H = L + freq * cost / size, the minimum goes, L becomes its H. */
module GdsfPolicy {
  import opened Options
  import opened PolicyBase
  import opened StaleHeap

  datatype State = State(
    useFreq: bool, clock: real, prio: map<Key, real>, freq: map<Key, nat>, cost: map<Key, real>, heap: multiset<Entry>)

  predicate Current(s: State, z: Sizes, e: Entry)
  {
    e.key in z.at && e.key in s.prio && s.prio[e.key] == e.rank
  }

  /** An entry with the key's priority is in the heap. */
  ghost predicate Ranked(s: State, k: Key)
    requires k in s.prio
  {
    exists t: int :: Entry(s.prio[k], t, k) in s.heap
  }

  ghost predicate InvBut(s: State, z: Sizes, gone: Option<Key>)
  {
    && s.prio.Keys == z.at.Keys && s.freq.Keys == z.at.Keys && s.cost.Keys == z.at.Keys
    && forall k <- z.at | Some(k) != gone :: Ranked(s, k)
  }

  ghost predicate Inv(s: State, z: Sizes)
  {
    InvBut(s, z, None)
  }

  function Max(a: real, b: real): real
  {
    if a >= b then a else b
  }

  function Prio(s: State, z: Sizes, key: Key): real
    requires key in s.freq && key in s.cost && key in z.at
  {
    s.clock + Gain(if s.useFreq then s.freq[key] else 1, s.cost[key], z.at[key])
  }

  /** What a use is worth per byte. */
  function Gain(freq: nat, cost: real, size: nat): real
  {
    freq as real * Max(cost, 0.000000001) / Max(size as real, 1.0)
  }

  /** `_push`: the priority against the current clock, and an entry for it. */
  function Push(s: State, z: Sizes, key: Key, now: nat): State
    requires key in s.freq && key in s.cost && key in z.at
  {
    var h := Prio(s, z, key);
    s.(prio := s.prio[key := h], heap := s.heap + multiset{Entry(h, now, key)})
  }

  function OnHit(s: State, z: Sizes, key: Key, now: nat): State
    requires key in s.freq && key in s.cost && key in z.at
  {
    Push(s.(freq := s.freq[key := s.freq[key] + 1]), z, key, now)
  }

  function OnInsert(s: State, z: Sizes, key: Key, cost: real, now: nat): State
    requires key in z.at
  {
    Push(s.(freq := s.freq[key := 1], cost := s.cost[key := cost]), z, key, now)
  }

  function OnRemove(s: State, key: Key): State
  {
    s.(prio := map k | k in s.prio && k != key :: s.prio[k],
       freq := map k | k in s.freq && k != key :: s.freq[k],
       cost := map k | k in s.cost && k != key :: s.cost[k])
  }

  lemma PushRanks(s: State, s': State, z: Sizes, key: Key, now: nat)
    requires key in s.freq && key in s.cost && key in z.at && s' == Push(s, z, key, now)
    ensures Ranked(s', key)
    ensures forall k <- s.prio | k != key && Ranked(s, k) :: Ranked(s', k)
  {
    assert Entry(s'.prio[key], now, key) in s'.heap;
    forall k <- s.prio | k != key && Ranked(s, k) ensures Ranked(s', k) {
      var t: int :| Entry(s.prio[k], t, k) in s.heap;
      assert Entry(s'.prio[k], t, k) in s'.heap;
    }
  }

  lemma HitKeeps(s: State, z: Sizes, key: Key, now: nat)
    requires Inv(s, z) && key in z.at
    ensures Inv(OnHit(s, z, key, now), z)
  {
    var s1 := s.(freq := s.freq[key := s.freq[key] + 1]);
    SameRanks(s, s1);
    PushRanks(s1, OnHit(s, z, key, now), z, key, now);
  }

  lemma SameRanks(s: State, s1: State)
    requires s.prio == s1.prio && s.heap == s1.heap
    ensures forall k <- s.prio | Ranked(s, k) :: Ranked(s1, k)
  {
    forall k <- s.prio | Ranked(s, k) ensures Ranked(s1, k) {
      var t: int :| Entry(s.prio[k], t, k) in s.heap;
      assert Entry(s1.prio[k], t, k) in s1.heap;
    }
  }

  /** `hint('touch')` re-bases a stored key to the current clock. */
  lemma TouchKeeps(s: State, z: Sizes, key: Key, now: nat)
    requires Inv(s, z) && key in z.at
    ensures Inv(Push(s, z, key, now), z)
  {
    PushRanks(s, Push(s, z, key, now), z, key, now);
  }

  lemma InsertKeeps(s: State, z: Sizes, key: Key, n: nat, cost: real, now: nat)
    requires Inv(s, z) && key !in z.at
    ensures Inv(OnInsert(s, Add(z, key, n), key, cost, now), Add(z, key, n))
  {
    var s1 := s.(freq := s.freq[key := 1], cost := s.cost[key := cost]);
    SameRanks(s, s1);
    PushRanks(s1, OnInsert(s, Add(z, key, n), key, cost, now), Add(z, key, n), key, now);
  }

  lemma RemoveKeeps(s: State, z: Sizes, key: Key)
    requires InvBut(s, z, Some(key))
    ensures Inv(OnRemove(s, key), Drop(z, key))
  {
    var s' := OnRemove(s, key);
    assert s'.prio.Keys == Drop(z, key).at.Keys;
    assert s'.freq.Keys == Drop(z, key).at.Keys && s'.cost.Keys == Drop(z, key).at.Keys;
    forall k <- Drop(z, key).at ensures Ranked(s', k) {
      var t: int :| Entry(s.prio[k], t, k) in s.heap;
      assert Entry(s'.prio[k], t, k) in s'.heap;
    }
  }

  /** A stored key of minimal priority, which becomes the clock; None only when there is no other. */
  method Victim(s: State, z: Sizes, protect: Option<Key>) returns (v: Option<Key>, r: State)
    requires Inv(s, z)
    ensures v.None? ==> r.clock == s.clock && Inv(r, z) && forall k <- z.at :: Some(k) == protect
    ensures v.Some? ==> v.value in z.at && Some(v.value) != protect && InvBut(r, z, v)
    ensures v.Some? ==> r.clock == s.prio[v.value]
    ensures v.Some? ==> forall k <- z.at | Some(k) != protect :: s.prio[v.value] <= s.prio[k]
    ensures r == s.(clock := r.clock, heap := r.heap)
  {
    var current := (e: Entry) => Current(s, z, e);
    var e, rest := PopVictim(s.heap, current, protect);
    r := s.(heap := rest);
    v := if e.None? then None else Some(e.value.key);
    if e.Some? {
      r := r.(clock := e.value.rank);
    }
    forall k <- z.at
      ensures v != Some(k) ==> Ranked(r, k)
      ensures Some(k) != protect ==> exists x <- s.heap :: Eligible(current, protect, x) && x.key == k && x.rank == s.prio[k]
    {
      assert Ranked(s, k);
      var t: int :| Entry(s.prio[k], t, k) in s.heap;
      var x := Entry(s.prio[k], t, k);
      assert current(x);
      if v != Some(k) {
        assert x in rest;
        assert Entry(r.prio[k], t, k) in r.heap;
      }
    }
  }
}

/** `CostLRU`: recency shifted by the logarithm of the value density. */
module CostLruPolicy {
  import opened Options
  import opened PolicyBase
  import opened StaleHeap

  datatype State = State(
    tau: real, freqOn: bool, rank: map<Key, real>, dens: map<Key, real>, freq: map<Key, nat>, heap: multiset<Entry>)

  predicate Current(s: State, z: Sizes, e: Entry)
  {
    e.key in z.at && e.key in s.rank && s.rank[e.key] == e.rank
  }

  ghost predicate InvBut(s: State, z: Sizes, gone: Option<Key>)
  {
    && s.rank.Keys == z.at.Keys && s.dens.Keys == z.at.Keys && s.freq.Keys == z.at.Keys
    && forall k <- z.at | Some(k) != gone :: Entry(s.rank[k], 0, k) in s.heap
  }

  ghost predicate Inv(s: State, z: Sizes)
  {
    InvBut(s, z, None)
  }

  function Max(a: real, b: real): real
  {
    if a >= b then a else b
  }

  /** `_push`; `ln` is the natural logarithm. */
  function Push(s: State, ln: real -> real, key: Key, now: nat): State
    requires key in s.freq && key in s.dens
  {
    var f := if s.freqOn then ln(1.0 + s.freq[key] as real) else 0.0;
    var r := now as real + s.tau * (ln(s.dens[key]) + f);
    s.(rank := s.rank[key := r], heap := s.heap + multiset{Entry(r, 0, key)})
  }

  function OnHit(s: State, ln: real -> real, key: Key, now: nat): State
    requires key in s.freq && key in s.dens
  {
    Push(s.(freq := s.freq[key := s.freq[key] + 1]), ln, key, now)
  }

  function Density(cost: real, size: nat): real
  {
    Max(cost, 0.000001) / Max(size as real / 1000000.0, 0.000001)
  }

  function OnInsert(s: State, ln: real -> real, key: Key, size: nat, cost: real, now: nat): State
  {
    Push(s.(dens := s.dens[key := Density(cost, size)], freq := s.freq[key := 0]), ln, key, now)
  }

  function OnRemove(s: State, key: Key): State
  {
    s.(rank := map k | k in s.rank && k != key :: s.rank[k],
       dens := map k | k in s.dens && k != key :: s.dens[k],
       freq := map k | k in s.freq && k != key :: s.freq[k])
  }

  lemma HitKeeps(s: State, ln: real -> real, z: Sizes, key: Key, now: nat)
    requires Inv(s, z) && key in z.at
    ensures Inv(OnHit(s, ln, key, now), z)
  {
  }

  lemma InsertKeeps(s: State, ln: real -> real, z: Sizes, key: Key, n: nat, cost: real, now: nat)
    requires Inv(s, z) && key !in z.at
    ensures Inv(OnInsert(s, ln, key, n, cost, now), Add(z, key, n))
  {
  }

  lemma RemoveKeeps(s: State, z: Sizes, key: Key)
    requires InvBut(s, z, Some(key))
    ensures Inv(OnRemove(s, key), Drop(z, key))
  {
    var s' := OnRemove(s, key);
    assert s'.rank.Keys == Drop(z, key).at.Keys;
    assert s'.dens.Keys == Drop(z, key).at.Keys && s'.freq.Keys == Drop(z, key).at.Keys;
  }

  /** A stored key of lowest rank; None only when there is no other. */
  method Victim(s: State, z: Sizes, protect: Option<Key>) returns (v: Option<Key>, r: State)
    requires Inv(s, z)
    ensures v.None? ==> Inv(r, z) && forall k <- z.at :: Some(k) == protect
    ensures v.Some? ==> v.value in z.at && Some(v.value) != protect && InvBut(r, z, v)
    ensures v.Some? ==> forall k <- z.at | Some(k) != protect :: s.rank[v.value] <= s.rank[k]
    ensures r == s.(heap := r.heap)
  {
    var current := (e: Entry) => Current(s, z, e);
    var e, rest := PopVictim(s.heap, current, protect);
    r := s.(heap := rest);
    v := if e.None? then None else Some(e.value.key);
    forall k <- z.at
      ensures v != Some(k) ==> Entry(s.rank[k], 0, k) in rest
      ensures Some(k) != protect ==> Eligible(current, protect, Entry(s.rank[k], 0, k))
    {
      assert current(Entry(s.rank[k], 0, k));
    }
  }
}

/** `SampledGDSF`: the lowest of a few keys drawn at random; its clock only rises. */
module SampledPolicy {
  import opened Options
  import opened PolicyBase
  import G = GdsfPolicy

  datatype State = State(g: G.State, sample: nat, keys: seq<Key>, pos: map<Key, nat>)

  /** `keys` lists the stored keys without gap, `pos` says where each is. */
  ghost predicate DenseIn(keys: seq<Key>, pos: map<Key, nat>, live: set<Key>)
  {
    && pos.Keys == live
    && (forall k <- live :: pos[k] < |keys| && keys[pos[k]] == k)
    && (forall i | 0 <= i < |keys| :: keys[i] in live && pos[keys[i]] == i)
  }

  ghost predicate Inv(s: State, z: Sizes)
  {
    G.Inv(s.g, z) && DenseIn(s.keys, s.pos, z.at.Keys)
  }

  function OnHit(s: State, z: Sizes, key: Key, now: nat): State
    requires key in s.g.freq && key in s.g.cost && key in z.at
  {
    s.(g := G.OnHit(s.g, z, key, now))
  }

  function OnInsert(s: State, z: Sizes, key: Key, cost: real, now: nat): State
    requires key in z.at
  {
    State(G.OnInsert(s.g, z, key, cost, now), s.sample, s.keys + [key], s.pos[key := |s.keys|])
  }

  /** The last key takes the removed one's place. */
  function OnRemove(s: State, key: Key): State
  {
    var g := G.OnRemove(s.g, key);
    if key !in s.pos || s.keys == [] then s.(g := g)
    else
      var i, last := s.pos[key], s.keys[|s.keys| - 1];
      var keys := s.keys[..|s.keys| - 1];
      var pos := map k | k in s.pos && k != key :: s.pos[k];
      if i < |keys| then State(g, s.sample, keys[i := last], pos[last := i]) else State(g, s.sample, keys, pos)
  }

  lemma HitKeeps(s: State, z: Sizes, key: Key, now: nat)
    requires Inv(s, z) && key in z.at
    ensures Inv(OnHit(s, z, key, now), z)
  {
    G.HitKeeps(s.g, z, key, now);
  }

  lemma InsertKeeps(s: State, z: Sizes, key: Key, n: nat, cost: real, now: nat)
    requires Inv(s, z) && key !in z.at
    ensures Inv(OnInsert(s, Add(z, key, n), key, cost, now), Add(z, key, n))
  {
    G.InsertKeeps(s.g, z, key, n, cost, now);
  }

  /** The last key takes the place left free. */
  lemma DenseMoved(keys: seq<Key>, pos: map<Key, nat>, live: set<Key>, key: Key, keys': seq<Key>, pos': map<Key, nat>)
    requires DenseIn(keys, pos, live) && key in live
    requires |keys'| == |keys| - 1
    requires pos[key] < |keys| - 1 ==> pos'.Keys == live - {key} && pos'[keys[|keys| - 1]] == pos[key]
    requires pos[key] == |keys| - 1 ==> pos'.Keys == live - {key}
    requires forall k <- live | k != key && pos[k] < |keys| - 1 :: pos'[k] == pos[k]
    requires forall i | 0 <= i < |keys'| :: keys'[i] == if i == pos[key] then keys[|keys| - 1] else keys[i]
    ensures DenseIn(keys', pos', live - {key})
  {
  }

  lemma RemoveKeeps(s: State, z: Sizes, key: Key)
    requires Inv(s, z) && key in z.at
    ensures Inv(OnRemove(s, key), Drop(z, key))
  {
    G.RemoveKeeps(s.g, z, key);
    var s' := OnRemove(s, key);
    assert Drop(z, key).at.Keys == z.at.Keys - {key};
    DenseMoved(s.keys, s.pos, z.at.Keys, key, s'.keys, s'.pos);
  }

  /** One of the sampled keys with the lowest priority among them; the clock does not fall. */
  method Victim(s: State, z: Sizes, protect: Option<Key>) returns (v: Option<Key>, r: State, ghost drawn: seq<Key>)
    requires Inv(s, z)
    ensures Inv(r, z) && r.g.clock >= s.g.clock && r == s.(g := s.g.(clock := r.g.clock))
    ensures v.None? ==> forall k <- z.at :: Some(k) == protect
    ensures v.Some? ==> v.value in z.at && Some(v.value) != protect
    ensures v.Some? ==> forall k <- drawn | Some(k) != protect :: k in z.at && s.g.prio[v.value] <= s.g.prio[k]
    ensures v.Some? && v.value in drawn ==> r.g.clock >= s.g.prio[v.value]
  {
    var n := if s.sample < |s.keys| then s.sample else |s.keys|;
    drawn := [];
    v, r := None, s;
    for i := 0 to n
      invariant forall k <- drawn :: k in z.at
      invariant v.None? ==> forall k <- drawn :: Some(k) == protect
      invariant v.Some? ==> v.value in drawn && v.value in z.at && Some(v.value) != protect
      invariant v.Some? ==> forall k <- drawn | Some(k) != protect :: s.g.prio[v.value] <= s.g.prio[k]
    {
      var at: nat :| at < |s.keys|;
      var k := s.keys[at];
      drawn := drawn + [k];
      if Some(k) != protect && (v.None? || s.g.prio[k] < s.g.prio[v.value]) {
        v := Some(k);
      }
    }
    if v.None? {
      assert forall k <- drawn :: Some(k) == protect;
      v := FirstOther(s.keys, protect);
      forall k <- z.at ensures v.None? ==> Some(k) == protect {
        assert s.keys[s.pos[k]] in s.keys;
      }
    } else {
      var clock := G.Max(s.g.clock, s.g.prio[v.value]);
      r := s.(g := s.g.(clock := clock));
      G.SameRanks(s.g, r.g);
    }
  }
}
