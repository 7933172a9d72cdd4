/**
 * The policies that keep their keys in recency lists: `LRU` (with `FIFO` and `CashRAM`),
 * `CashCurrent`, `SLRU` and `ARC`. Each is its hook state, the invariant that ties it to the
 * stored sizes, and the hooks.
 *
 * `remove` runs `_on_remove` while the size is still stored, `_drop` after it is popped, so
 * each `OnRemove` is given the sizes as they are at that moment.
 */
module RecencyPolicy {
  import opened Options
  import opened PolicyBase

  /** `LRU`; `FIFO` is the same without the move on a hit. */
  datatype State = State(od: seq<Key>, fifo: bool)

  ghost predicate Inv(s: State, z: Sizes)
  {
    Distinct(s.od) && forall k: Key :: k in z.at <==> k in s.od
  }

  function OnHit(s: State, key: Key): State
  {
    if s.fifo then s else s.(od := ToEnd(s.od, key))
  }

  function OnInsert(s: State, key: Key): State
  {
    s.(od := Put(s.od, key))
  }

  function OnRemove(s: State, key: Key): State
  {
    s.(od := Without(s.od, key))
  }

  lemma HitKeeps(s: State, z: Sizes, key: Key)
    requires Inv(s, z) && key in z.at
    ensures Inv(OnHit(s, key), z)
  {
    ToEndDistinct(s.od, key);
  }

  lemma InsertKeeps(s: State, z: Sizes, key: Key, n: nat)
    requires Inv(s, z) && key !in z.at
    ensures Inv(OnInsert(s, key), Add(z, key, n))
  {
    AppendDistinct(s.od, key);
  }

  lemma RemoveKeeps(s: State, z: Sizes, key: Key)
    requires Inv(s, z)
    ensures Inv(OnRemove(s, key), Drop(z, key))
  {
    WithoutDistinct(s.od, key);
  }

  // ---- The list is the order of last use ---------------------------------

  /** When each key was last used, by a clock that counts the uses. */
  datatype Uses = Uses(at: map<Key, nat>, clock: nat)

  const NO_USES := Uses(map[], 0)

  function Use(u: Uses, key: Key): Uses
  {
    Uses(u.at[key := u.clock + 1], u.clock + 1)
  }

  function When(u: Uses, k: Key): nat
  {
    if k in u.at then u.at[k] else 0
  }

  /** Each key of the list was used after the keys before it. */
  ghost predicate InUseOrder(od: seq<Key>, u: Uses)
  {
    && (forall i | 0 <= i < |od| :: When(u, od[i]) <= u.clock)
    && (forall i, j | 0 <= i < j < |od| :: When(u, od[i]) < When(u, od[j]))
  }

  lemma {:induction false} WithoutInOrder(od: seq<Key>, u: Uses, key: Key)
    requires InUseOrder(od, u)
    ensures InUseOrder(Without(od, key), u)
  {
    if od != [] {
      var rest := Without(od[1..], key);
      WithoutInOrder(od[1..], u, key);
      forall j | 0 <= j < |rest| ensures When(u, od[0]) < When(u, rest[j]) {
        LaterThanHead(od, u, key, j);
      }
    }
  }

  lemma LaterThanHead(od: seq<Key>, u: Uses, key: Key, j: nat)
    requires InUseOrder(od, u) && od != [] && j < |Without(od[1..], key)|
    ensures When(u, od[0]) < When(u, Without(od[1..], key)[j])
  {
    var k: Key := Without(od[1..], key)[j];
    assert k in Without(od[1..], key);
    var i :| 0 <= i < |od[1..]| && od[1..][i] == k;
    assert od[i + 1] == k;
  }

  /** A use now puts the key last. */
  lemma LastInOrder(od: seq<Key>, u: Uses, key: Key)
    requires InUseOrder(od, u) && key !in od
    ensures InUseOrder(od, Use(u, key)) && InUseOrder(od + [key], Use(u, key))
  {
    forall i | 0 <= i < |od| ensures When(Use(u, key), od[i]) == When(u, od[i]) {
      var k: Key := od[i];
      assert k in od;
    }
  }

  /** A hit counts as a use, except in a `FIFO`; so does an insert. */
  lemma UseKeepsOrder(s: State, z: Sizes, u: Uses, key: Key)
    requires Inv(s, z) && InUseOrder(s.od, u)
    ensures key in z.at ==> InUseOrder(OnHit(s, key).od, if s.fifo then u else Use(u, key))
    ensures key !in z.at ==> InUseOrder(OnInsert(s, key).od, Use(u, key)) && InUseOrder(s.od, Use(u, key))
    ensures InUseOrder(OnRemove(s, key).od, u)
  {
    WithoutInOrder(s.od, u, key);
    LastInOrder(Without(s.od, key), u, key);
    if key !in s.od {
      LastInOrder(s.od, u, key);
    }
  }

  /** The victim is the key used longest ago, the protected one aside. */
  lemma {:induction false} VictimIsLeastRecent(od: seq<Key>, u: Uses, protect: Option<Key>, i: nat)
    requires InUseOrder(od, u) && FirstOther(od, protect).Some? && i < |od| && Some(od[i]) != protect
    ensures When(u, FirstOther(od, protect).value) <= When(u, od[i])
    decreases |od|
  {
    if Some(od[0]) == protect {
      VictimIsLeastRecent(od[1..], u, protect, i - 1);
    }
  }
}

/** `CashCurrent`: entries under the crumb size apart from the rest, crumbs first when they alone close the gap. */
module CrumbPolicy {
  import opened Options
  import opened PolicyBase

  datatype State = State(crumb: nat, small: seq<Key>, big: seq<Key>, smallBytes: int)

  ghost predicate Inv(s: State, z: Sizes)
  {
    && Partition(z, s.small, s.big)
    && (forall k <- z.at :: k in s.small <==> z.at[k] < s.crumb)
    && s.smallBytes == Sum(z.at, s.small)
  }

  /** `max(1, int(cap * 0.001))`, or 0 when crumbs are not split off. */
  function CrumbSize(cap: nat, crumbs: bool): nat
  {
    if !crumbs then 0 else if cap / 1000 < 1 then 1 else cap / 1000
  }

  function OnHit(s: State, z: Sizes, key: Key): State
    requires key in z.at
  {
    if z.at[key] < s.crumb then s.(small := ToEnd(s.small, key)) else s.(big := ToEnd(s.big, key))
  }

  function OnInsert(s: State, z: Sizes, key: Key, size: nat): State
    requires key in z.at
  {
    if z.at[key] < s.crumb then s.(small := Put(s.small, key), smallBytes := s.smallBytes + size)
    else s.(big := Put(s.big, key))
  }

  /** `removed` is the size noted by `remove` and `_drop` before the base class runs. */
  function OnRemove(s: State, key: Key, removed: nat): State
  {
    var s1 := if key in s.small then s.(small := Without(s.small, key), smallBytes := s.smallBytes - removed) else s;
    s1.(big := Without(s1.big, key))
  }

  lemma HitKeeps(s: State, z: Sizes, key: Key)
    requires Inv(s, z) && key in z.at
    ensures Inv(OnHit(s, z, key), z)
  {
    ToEndDistinct(s.small, key);
    ToEndDistinct(s.big, key);
    if key in s.small {
      SumWithout(z.at, s.small, key);
      SumAppend(z.at, Without(s.small, key), [key]);
      assert Sum(z.at, [key]) == z.at[key];
    }
  }

  lemma InsertKeeps(s: State, z: Sizes, key: Key, n: nat)
    requires Inv(s, z) && key !in z.at
    ensures Inv(OnInsert(s, Add(z, key, n), key, n), Add(z, key, n))
  {
    PartitionAdd(z, s.small, s.big, key, n);
    SegmentAdd(z, s.small, key, n);
  }

  lemma RemoveKeeps(s: State, z: Sizes, key: Key)
    requires Inv(s, z) && key in z.at
    ensures Inv(OnRemove(s, key, z.at[key]), Drop(z, key))
  {
    PartitionDrop(z, s.small, s.big, key);
    SegmentDrop(z, s.small, key);
  }

  /** The next victim on the way down to `target` bytes (lines 167-179). */
  function Victim(s: State, z: Sizes, used: nat, target: real, protect: Option<Key>): (v: Option<Key>)
    ensures v.Some? ==> v.value in s.small || v.value in s.big
    ensures v.Some? ==> Some(v.value) != protect
    ensures v.None? ==> (forall k <- s.small :: Some(k) == protect) && (forall k <- s.big :: Some(k) == protect)
  {
    var need := used as real - target;
    var spare := s.smallBytes - (if protect.Some? && protect.value in s.small then SizeOf(z.at, protect.value) else 0);
    var small, big := FirstOther(s.small, protect), FirstOther(s.big, protect);
    if spare as real >= need then (if small.Some? then small else big)
    else (if big.Some? then big else small)
  }

  /** Crumbs are evicted while they can close the gap alone; otherwise the rest goes first. */
  lemma CrumbsFirst(s: State, z: Sizes, used: nat, target: real, protect: Key, v: Key)
    requires Inv(s, z) && Victim(s, z, used, target, Some(protect)) == Some(v)
    ensures v in s.big && Sum(z.at, Without(s.small, protect)) as real >= used as real - target ==>
              forall k <- s.small :: k == protect
    ensures v in s.small && (Sum(z.at, Without(s.small, protect)) as real) < used as real - target ==>
              forall k <- s.big :: k == protect
  {
    if protect in s.small {
      SumWithout(z.at, s.small, protect);
    }
  }
}

/** `SLRU`: a probation and a protected segment; the protected one holds up to 80% of the bytes. */
module SlruPolicy {
  import opened Options
  import opened PolicyBase

  datatype State = State(prob: seq<Key>, prot: seq<Key>, protUsed: int)

  ghost predicate Inv(s: State, z: Sizes)
  {
    Partition(z, s.prob, s.prot) && s.protUsed == Sum(z.at, s.prot)
  }

  function OverShare(protUsed: int, cap: nat): bool
  {
    protUsed as real > cap as real * 0.8
  }

  /** The oldest protected keys go back to probation until the share is kept or one is left. */
  function Demoted(s: State, z: Sizes, cap: nat): State
    decreases |s.prot|
  {
    if OverShare(s.protUsed, cap) && |s.prot| > 1 then
      Demoted(State(s.prob + [s.prot[0]], s.prot[1..], s.protUsed - SizeOf(z.at, s.prot[0])), z, cap)
    else s
  }

  /** A hit makes the key the newest protected one. */
  function HitState(s: State, z: Sizes, cap: nat, key: Key): State
  {
    if key in s.prot then s.(prot := ToEnd(s.prot, key))
    else Demoted(State(Without(s.prob, key), s.prot + [key], s.protUsed + SizeOf(z.at, key)), z, cap)
  }

  /** A protected key goes to the end of its segment. */
  lemma ProtectedHit(s: State, z: Sizes, key: Key)
    requires Inv(s, z) && key in s.prot && key in z.at
    ensures Inv(s.(prot := ToEnd(s.prot, key)), z)
  {
    PartitionMove(z, s.prob, s.prot, key);
    assert Without(s.prob, key) == s.prob;
    SumMoved(z.at, s.prot, key);
  }

  lemma SumMoved(at: map<Key, nat>, keys: seq<Key>, key: Key)
    requires Distinct(keys) && key in keys && key in at
    ensures Sum(at, ToEnd(keys, key)) == Sum(at, keys)
  {
    SumWithout(at, keys, key);
    SumAppend(at, Without(keys, key), [key]);
    assert Sum(at, [key]) == at[key];
  }

  /** Another key becomes the newest protected one, before any goes back. */
  lemma Promoted(s: State, z: Sizes, key: Key)
    requires Inv(s, z) && key !in s.prot && key in z.at
    ensures Inv(State(Without(s.prob, key), s.prot + [key], s.protUsed + z.at[key]), z)
  {
    PartitionMove(z, s.prob, s.prot, key);
    assert ToEnd(s.prot, key) == s.prot + [key];
    SumAppend(z.at, s.prot, [key]);
    assert Sum(z.at, [key]) == z.at[key];
  }

  /** A hit moves the key to the protected end; the oldest protected keys go back until the share is kept. */
  method OnHit(s: State, z: Sizes, cap: nat, key: Key) returns (r: State)
    requires Inv(s, z) && key in z.at
    ensures r == HitState(s, z, cap, key)
    ensures Inv(r, z) && r.prot != [] && r.prot[|r.prot| - 1] == key
    ensures key !in s.prot ==> !OverShare(r.protUsed, cap) || |r.prot| == 1
  {
    if key in s.prot {
      ProtectedHit(s, z, key);
      return s.(prot := ToEnd(s.prot, key));
    }
    Promoted(s, z, key);
    r := Demote(State(Without(s.prob, key), s.prot + [key], s.protUsed + z.at[key]), z, cap);
  }

  method Demote(s: State, z: Sizes, cap: nat) returns (r: State)
    requires Inv(s, z) && s.prot != []
    ensures r == Demoted(s, z, cap) && Inv(r, z) && r.prot != [] && r.prot[|r.prot| - 1] == s.prot[|s.prot| - 1]
    ensures !OverShare(r.protUsed, cap) || |r.prot| == 1
  {
    r := s;
    while OverShare(r.protUsed, cap) && |r.prot| > 1
      invariant Inv(r, z) && r.prot != [] && r.prot[|r.prot| - 1] == s.prot[|s.prot| - 1]
      invariant Demoted(r, z, cap) == Demoted(s, z, cap)
      decreases |r.prot|
    {
      DemoteStep(r, z);
      r := State(r.prob + [r.prot[0]], r.prot[1..], r.protUsed - SizeOf(z.at, r.prot[0]));
    }
  }

  lemma DemoteStep(s: State, z: Sizes)
    requires Inv(s, z) && |s.prot| > 1
    ensures Inv(State(s.prob + [s.prot[0]], s.prot[1..], s.protUsed - SizeOf(z.at, s.prot[0])), z)
  {
    var k := s.prot[0];
    TailDistinct(s.prot);
    PartitionMove(z, s.prob, s.prot, k);
    assert k !in s.prob;
    SumWithout(z.at, s.prot, k);
  }

  function OnInsert(s: State, key: Key): State
  {
    s.(prob := Put(s.prob, key))
  }

  /** `z` is the dict of sizes at this moment: with the key under `remove`, without it under `_drop`. */
  function OnRemove(s: State, z: Sizes, key: Key): State
  {
    var s1 := if key in s.prot then s.(prot := Without(s.prot, key), protUsed := s.protUsed - SizeOf(z.at, key)) else s;
    s1.(prob := Without(s1.prob, key))
  }

  /** `_drop`: the protected total is corrected before the size is popped. */
  function OnDrop(s: State, z: Sizes, key: Key): State
  {
    var s1 := if key in s.prot then s.(protUsed := s.protUsed - SizeOf(z.at, key)) else s;
    OnRemove(s1, Drop(z, key), key)
  }

  lemma InsertKeeps(s: State, z: Sizes, key: Key, n: nat)
    requires Inv(s, z) && key !in z.at
    ensures Inv(OnInsert(s, key), Add(z, key, n))
  {
    PartitionAdd(z, s.prob, s.prot, key, n);
    SegmentAdd(z, s.prot, key, n);
  }

  /** Both orders of removal end in the same state, with the total right. */
  lemma RemoveKeeps(s: State, z: Sizes, key: Key)
    requires Inv(s, z)
    ensures OnDrop(s, z, key) == OnRemove(s, z, key)
    ensures Inv(OnRemove(s, z, key), Drop(z, key))
  {
    PartitionDrop(z, s.prob, s.prot, key);
    SegmentDrop(z, s.prot, key);
  }

  function Victim(s: State, protect: Option<Key>): (v: Option<Key>)
    ensures v.Some? ==> (v.value in s.prob || v.value in s.prot) && Some(v.value) != protect
    ensures v.None? ==> (forall k <- s.prob :: Some(k) == protect) && (forall k <- s.prot :: Some(k) == protect)
  {
    var first := FirstOther(s.prob, protect);
    if first.Some? then first else FirstOther(s.prot, protect)
  }
}

/** Byte-weighted `ARC`: two live lists, two ghost lists sized in bytes, and the adaptive target `p`. */
module ArcPolicy {
  import opened Options
  import opened PolicyBase

  datatype State = State(
    t1: seq<Key>, t2: seq<Key>, t1Bytes: int,
    b1: seq<Key>, b2: seq<Key>, b1Bytes: int, b2Bytes: int,
    ghosts: map<Key, nat>, p: real)

  /** The ghost lists hold each key of `ghosts` once between them, with their bytes. */
  ghost predicate GhostsOk(s: State)
  {
    && Distinct(s.b1) && Distinct(s.b2)
    && (forall k: Key | k in s.b1 :: k !in s.b2)
    && (forall k: Key :: k in s.ghosts <==> k in s.b1 || k in s.b2)
    && s.b1Bytes == Sum(s.ghosts, s.b1) && s.b2Bytes == Sum(s.ghosts, s.b2)
  }

  ghost predicate Inv(s: State, cap: nat, z: Sizes)
  {
    && Partition(z, s.t1, s.t2) && s.t1Bytes == Sum(z.at, s.t1)
    && GhostsOk(s) && s.b1Bytes <= cap && s.b2Bytes <= cap
    && (forall k <- s.ghosts :: k !in z.at)
    && 0.0 <= s.p <= cap as real
  }

  function OnHit(s: State, z: Sizes, key: Key): State
    requires key in z.at
  {
    if key in s.t1 then s.(t1 := Without(s.t1, key), t1Bytes := s.t1Bytes - z.at[key], t2 := Put(s.t2, key))
    else s.(t2 := Without(s.t2, key) + [key])
  }

  lemma HitKeeps(s: State, cap: nat, z: Sizes, key: Key)
    requires Inv(s, cap, z) && key in z.at
    ensures Inv(OnHit(s, z, key), cap, z)
  {
    PartitionMove(z, s.t1, s.t2, key);
    if key in s.t1 {
      assert ToEnd(s.t2, key) == s.t2 + [key];
      SumWithout(z.at, s.t1, key);
    } else {
      assert Without(s.t1, key) == s.t1;
    }
  }

  function Max(a: real, b: real): real
  {
    if a >= b then a else b
  }

  function Min(a: real, b: real): real
  {
    if a <= b then a else b
  }

  /** How far a ghost hit moves the target: `max(1, other / own) * size`. */
  function Delta(other: int, own: int, size: nat): real
  {
    Max(1.0, other as real / Max(1.0, own as real)) * size as real
  }

  lemma DeltaNotNegative(other: int, own: int, size: nat)
    ensures Delta(other, own, size) >= 0.0
  {
    var m := Max(1.0, other as real / Max(1.0, own as real));
    assert m >= 1.0;
    assert m * size as real >= 0.0;
  }

  function OnMiss(s: State, cap: nat, key: Key, size: nat): State
  {
    if key in s.b1 then s.(p := Min(cap as real, s.p + Delta(s.b2Bytes, s.b1Bytes, size)))
    else if key in s.b2 then s.(p := Max(0.0, s.p - Delta(s.b1Bytes, s.b2Bytes, size)))
    else s
  }

  lemma MissKeeps(s: State, cap: nat, z: Sizes, key: Key, size: nat)
    requires Inv(s, cap, z)
    ensures Inv(OnMiss(s, cap, key, size), cap, z)
    ensures key in s.b1 ==> OnMiss(s, cap, key, size).p >= s.p
    ensures key in s.b2 ==> OnMiss(s, cap, key, size).p <= s.p
  {
    DeltaNotNegative(s.b2Bytes, s.b1Bytes, size);
    DeltaNotNegative(s.b1Bytes, s.b2Bytes, size);
  }

  function Forget(ghosts: map<Key, nat>, key: Key): map<Key, nat>
  {
    map k | k in ghosts && k != key :: ghosts[k]
  }

  function GhostDel(s: State, key: Key): State
  {
    if key in s.b1 then
      s.(b1 := Without(s.b1, key), b1Bytes := s.b1Bytes - SizeOf(s.ghosts, key), ghosts := Forget(s.ghosts, key))
    else if key in s.b2 then
      s.(b2 := Without(s.b2, key), b2Bytes := s.b2Bytes - SizeOf(s.ghosts, key), ghosts := Forget(s.ghosts, key))
    else s
  }

  lemma GhostDelKeeps(s: State, key: Key)
    requires GhostsOk(s)
    ensures GhostsOk(GhostDel(s, key)) && key !in GhostDel(s, key).ghosts
    ensures GhostDel(s, key).b1Bytes <= s.b1Bytes && GhostDel(s, key).b2Bytes <= s.b2Bytes
    ensures forall k <- GhostDel(s, key).ghosts :: k in s.ghosts
  {
    var z := Sizes([], s.ghosts);
    assert Drop(z, key).at == Forget(s.ghosts, key);
    SegmentDrop(z, s.b1, key);
    SegmentDrop(z, s.b2, key);
    WithoutDistinct(s.b1, key);
    WithoutDistinct(s.b2, key);
  }

  function OnInsert(s: State, key: Key, size: nat): State
  {
    if key in s.b1 || key in s.b2 then var s1 := GhostDel(s, key); s1.(t2 := Put(s1.t2, key))
    else s.(t1 := Put(s.t1, key), t1Bytes := s.t1Bytes + size)
  }

  lemma InsertKeeps(s: State, cap: nat, z: Sizes, key: Key, n: nat)
    requires Inv(s, cap, z) && key !in z.at
    ensures Inv(OnInsert(s, key, n), cap, Add(z, key, n))
  {
    PartitionAdd(z, s.t1, s.t2, key, n);
    SegmentAdd(z, s.t1, key, n);
    GhostDelKeeps(s, key);
  }

  function OnRemove(s: State, z: Sizes, key: Key): State
  {
    var s1 := if key in s.t1 then s.(t1 := Without(s.t1, key), t1Bytes := s.t1Bytes - SizeOf(z.at, key)) else s;
    s1.(t2 := Without(s1.t2, key))
  }

  lemma RemoveKeeps(s: State, cap: nat, z: Sizes, key: Key)
    requires Inv(s, cap, z)
    ensures Inv(OnRemove(s, z, key), cap, Drop(z, key))
  {
    PartitionDrop(z, s.t1, s.t2, key);
    SegmentDrop(z, s.t1, key);
  }

  /** An evicted key becomes the newest ghost of its list. */
  function Remember(s: State, key: Key, size: nat, inT1: bool): State
  {
    if inT1 then s.(b1 := Put(s.b1, key), ghosts := s.ghosts[key := size], b1Bytes := s.b1Bytes + size)
    else s.(b2 := Put(s.b2, key), ghosts := s.ghosts[key := size], b2Bytes := s.b2Bytes + size)
  }

  lemma RememberKeeps(s: State, key: Key, size: nat, inT1: bool)
    requires GhostsOk(s) && key !in s.ghosts
    ensures GhostsOk(Remember(s, key, size, inT1))
  {
    var z := Sizes([], s.ghosts);
    assert Add(z, key, size).at == s.ghosts[key := size];
    SegmentAdd(z, s.b1, key, size);
    SegmentAdd(z, s.b2, key, size);
    AppendDistinct(s.b1, key);
    AppendDistinct(s.b2, key);
  }

  /** Only the oldest of `was` are gone, and the last of them had to go: it is bigger than the room there is now. */
  ghost predicate Cut(was: seq<Key>, left: seq<Key>, sizes: map<Key, nat>, room: int)
  {
    && |left| <= |was| && (forall i {:trigger left[i]} | 0 <= i < |left| :: left[i] == was[|was| - |left| + i])
    && (|left| < |was| ==> SizeOf(sizes, was[|was| - |left| - 1]) > room)
  }

  lemma CutStep(was: seq<Key>, left: seq<Key>, sizes: map<Key, nat>, room: int)
    requires Cut(was, left, sizes, room) && left != [] && room < 0
    ensures Cut(was, left[1..], sizes, room + SizeOf(sizes, left[0]))
  {
  }

  /** `kept` is `ghosts` without the keys of `was` that are not `left`. */
  ghost predicate Kept(was: seq<Key>, left: seq<Key>, ghosts: map<Key, nat>, kept: map<Key, nat>)
  {
    && (forall k: Key :: k in kept <==> k in ghosts && (k in was ==> k in left))
    && (forall k: Key | k in kept :: kept[k] == ghosts[k])
  }

  lemma KeptStep(was: seq<Key>, left: seq<Key>, ghosts: map<Key, nat>, kept: map<Key, nat>, rest: seq<Key>)
    requires Kept(was, left, ghosts, kept) && Distinct(left) && left != [] && left[0] in was && rest == left[1..]
    ensures Kept(was, rest, ghosts, Forget(kept, left[0]))
    ensures Distinct(rest) && Sum(Forget(kept, left[0]), rest) == Sum(kept, left) - SizeOf(kept, left[0])
  {
    TailDistinct(left);
    var z := Sizes([], kept);
    assert Drop(z, left[0]).at == Forget(kept, left[0]);
    SegmentDrop(z, left, left[0]);
  }

  lemma CutHead(was: seq<Key>, left: seq<Key>, sizes: map<Key, nat>, room: int)
    requires Cut(was, left, sizes, room) && left != []
    ensures left[0] in was
  {
    assert left[0] == was[|was| - |left|];
  }

  lemma KeptSize(was: seq<Key>, left: seq<Key>, ghosts: map<Key, nat>, kept: map<Key, nat>, k: Key)
    requires Kept(was, left, ghosts, kept) && k in left
    ensures SizeOf(kept, k) == SizeOf(ghosts, k)
  {
  }

  /** The oldest ghosts of one list go until its bytes fit (lines 369-372). */
  method Trim(was: seq<Key>, bytes: int, ghosts: map<Key, nat>, cap: nat)
    returns (left: seq<Key>, now: int, kept: map<Key, nat>)
    requires Distinct(was) && bytes == Sum(ghosts, was)
    ensures Cut(was, left, ghosts, cap - now) && Kept(was, left, ghosts, kept)
    ensures Distinct(left) && now == Sum(kept, left) && now <= cap
  {
    left, now, kept := was, bytes, ghosts;
    while now > cap && left != []
      invariant Cut(was, left, ghosts, cap - now) && Kept(was, left, ghosts, kept)
      invariant Distinct(left) && now == Sum(kept, left)
      decreases |left|
    {
      var k := left[0];
      CutHead(was, left, ghosts, cap - now);
      KeptSize(was, left, ghosts, kept, k);
      CutStep(was, left, ghosts, cap - now);
      KeptStep(was, left, ghosts, kept, left[1..]);
      left := left[1..];
      now := now - SizeOf(kept, k);
      kept := Forget(kept, k);
    }
  }

  /** Trimming one list leaves the bytes of the other. */
  lemma OtherKept(was: seq<Key>, left: seq<Key>, ghosts: map<Key, nat>, kept: map<Key, nat>, other: seq<Key>)
    requires Kept(was, left, ghosts, kept) && forall k: Key | k in other :: k !in was
    ensures Sum(kept, other) == Sum(ghosts, other)
  {
    forall k: Key | k in other ensures SizeOf(kept, k) == SizeOf(ghosts, k) {
    }
    SumSame(kept, ghosts, other);
  }

  lemma CutIn(was: seq<Key>, left: seq<Key>, sizes: map<Key, nat>, room: int)
    requires Cut(was, left, sizes, room)
    ensures forall k: Key | k in left :: k in was
  {
  }

  /** Both ghost lists trimmed, one after the other. */
  method TrimBoth(s: State, cap: nat) returns (r: State)
    requires GhostsOk(s)
    ensures GhostsOk(r) && r.b1Bytes <= cap && r.b2Bytes <= cap
    ensures r == s.(b1 := r.b1, b1Bytes := r.b1Bytes, b2 := r.b2, b2Bytes := r.b2Bytes, ghosts := r.ghosts)
    ensures Cut(s.b1, r.b1, s.ghosts, cap - r.b1Bytes) && Cut(s.b2, r.b2, s.ghosts, cap - r.b2Bytes)
    ensures forall k: Key | k in r.ghosts :: k in s.ghosts
  {
    var b1, n1, g1 := Trim(s.b1, s.b1Bytes, s.ghosts, cap);
    CutIn(s.b1, b1, s.ghosts, cap - n1);
    OtherKept(s.b1, b1, s.ghosts, g1, s.b2);
    var b2, n2, g2 := Trim(s.b2, s.b2Bytes, g1, cap);
    CutIn(s.b2, b2, g1, cap - n2);
    OtherKept(s.b2, b2, g1, g2, b1);
    SizesKept(s, b1, g1);
    CutSame(s.b2, b2, g1, s.ghosts, cap - n2);
    r := s.(b1 := b1, b1Bytes := n1, b2 := b2, b2Bytes := n2, ghosts := g2);
    BothTrimmed(s, b1, g1, b2, g2, r);
  }

  lemma SizesKept(s: State, b1: seq<Key>, g1: map<Key, nat>)
    requires GhostsOk(s) && Kept(s.b1, b1, s.ghosts, g1)
    ensures forall k: Key | k in s.b2 :: SizeOf(g1, k) == SizeOf(s.ghosts, k)
  {
  }

  /** What is left of two disjoint lists still shares the ghosts between them. */
  lemma BothTrimmed(s: State, b1: seq<Key>, g1: map<Key, nat>, b2: seq<Key>, g2: map<Key, nat>, r: State)
    requires GhostsOk(s) && Kept(s.b1, b1, s.ghosts, g1) && Kept(s.b2, b2, g1, g2)
    requires (forall k: Key | k in b1 :: k in s.b1) && (forall k: Key | k in b2 :: k in s.b2)
    requires r.b1 == b1 && r.b2 == b2 && r.ghosts == g2 && Distinct(b1) && Distinct(b2)
    requires r.b1Bytes == Sum(g2, b1) && r.b2Bytes == Sum(g2, b2)
    ensures GhostsOk(r) && forall k: Key | k in g2 :: k in s.ghosts
  {
  }

  lemma CutSame(was: seq<Key>, left: seq<Key>, a: map<Key, nat>, b: map<Key, nat>, room: int)
    requires Cut(was, left, a, room) && forall k: Key | k in was :: SizeOf(a, k) == SizeOf(b, k)
    ensures Cut(was, left, b, room)
  {
    if |left| < |was| {
      var k: Key := was[|was| - |left| - 1];
      assert k in was;
    }
  }

  /** `_drop`: the evicted key leaves its live list for the ghost list beside it, and both ghost lists are trimmed. */
  method OnDrop(s: State, cap: nat, z: Sizes, key: Key) returns (r: State)
    requires Inv(s, cap, z) && key in z.at
    ensures Inv(r, cap, Drop(z, key))
    ensures r.t1 == Without(s.t1, key) && r.t2 == Without(s.t2, key) && r.p == s.p
    ensures Cut(if key in s.t1 then s.b1 + [key] else s.b1, r.b1, s.ghosts[key := z.at[key]], cap - r.b1Bytes)
    ensures Cut(if key in s.t1 then s.b2 else s.b2 + [key], r.b2, s.ghosts[key := z.at[key]], cap - r.b2Bytes)
  {
    var gone := Evicted(s, z, key);
    EvictedOk(s, cap, z, key);
    r := TrimBoth(gone, cap);
  }

  /** The live list's bytes are corrected, the key leaves it after its size is popped, and becomes a ghost. */
  function Evicted(s: State, z: Sizes, key: Key): State
    requires key in z.at
  {
    var size, inT1 := z.at[key], key in s.t1;
    var s1 := if inT1 then s.(t1Bytes := s.t1Bytes - size) else s;
    Remember(OnRemove(s1, Drop(z, key), key), key, size, inT1)
  }

  lemma EvictedOk(s: State, cap: nat, z: Sizes, key: Key)
    requires Inv(s, cap, z) && key in z.at
    ensures var g := Evicted(s, z, key);
            && Partition(Drop(z, key), g.t1, g.t2) && g.t1Bytes == Sum(Drop(z, key).at, g.t1) && GhostsOk(g)
            && (forall k: Key | k in g.ghosts :: k !in Drop(z, key).at)
            && g.t1 == Without(s.t1, key) && g.t2 == Without(s.t2, key) && g.p == s.p
            && g.ghosts == s.ghosts[key := z.at[key]]
            && g.b1 == (if key in s.t1 then s.b1 + [key] else s.b1) && g.b2 == (if key in s.t1 then s.b2 else s.b2 + [key])
  {
    assert key !in s.ghosts;
    RemoveKeeps(s, cap, z, key);
    var s1 := if key in s.t1 then s.(t1Bytes := s.t1Bytes - z.at[key]) else s;
    RememberKeeps(OnRemove(s1, Drop(z, key), key), key, z.at[key], key in s.t1);
  }

  /** The list over its target gives the victim, then the other. */
  function Victim(s: State, protect: Option<Key>): (v: Option<Key>)
    ensures v.Some? ==> (v.value in s.t1 || v.value in s.t2) && Some(v.value) != protect
    ensures v.None? ==> (forall k <- s.t1 :: Some(k) == protect) && (forall k <- s.t2 :: Some(k) == protect)
  {
    var one, two := FirstOther(s.t1, protect), FirstOther(s.t2, protect);
    if s.t1Bytes as real > s.p then (if one.Some? then one else two)
    else (if two.Some? then two else one)
  }
}
