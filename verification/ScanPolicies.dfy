/**
 * The policies that scan for a victim: `SIEVE`, whose hand sweeps a queue that may hold stale and
 * repeated keys, and `RRIP`, which ages its candidates until one is distant enough.
 */
module SievePolicy {
  import opened Options
  import opened PolicyBase

  datatype State = State(q: seq<Key>, visited: map<Key, bool>, hand: nat)

  /** Every stored key but possibly one is in the queue; removed keys may still be there, and a key twice. */
  ghost predicate InvBut(s: State, z: Sizes, gone: Option<Key>)
  {
    s.visited.Keys == z.at.Keys && forall k <- z.at | Some(k) != gone :: k in s.q
  }

  ghost predicate Inv(s: State, z: Sizes)
  {
    InvBut(s, z, None)
  }

  function OnHit(s: State, key: Key): State
  {
    s.(visited := s.visited[key := true])
  }

  function OnInsert(s: State, key: Key): State
  {
    s.(q := s.q + [key], visited := s.visited[key := false])
  }

  function OnRemove(s: State, key: Key): State
  {
    s.(visited := map k | k in s.visited && k != key :: s.visited[k])
  }

  lemma InsertKeeps(s: State, z: Sizes, key: Key, n: nat)
    requires Inv(s, z) && key !in z.at
    ensures Inv(OnInsert(s, key), Add(z, key, n))
  {
  }

  lemma RemoveKeeps(s: State, z: Sizes, key: Key)
    requires InvBut(s, z, Some(key))
    ensures Inv(OnRemove(s, key), Drop(z, key))
  {
    assert OnRemove(s, key).visited.Keys == Drop(z, key).at.Keys;
  }

  /** The queue without the keys that are no longer stored. */
  function Stored(q: seq<Key>, at: map<Key, nat>): (r: seq<Key>)
    ensures forall k: Key :: k in r <==> k in q && k in at
  {
    if q == [] then []
    else
      assert q == [q[0]] + q[1..];
      if q[0] in at then [q[0]] + Stored(q[1..], at) else Stored(q[1..], at)
  }

  lemma {:induction false} StoredDistinct(q: seq<Key>, at: map<Key, nat>)
    requires Distinct(q)
    ensures Distinct(Stored(q, at))
  {
    if q != [] {
      StoredDistinct(q[1..], at);
      assert q[0] !in q[1..];
    }
  }

  /** A stored key other than the protected one. */
  predicate Candidate(z: Sizes, protect: Option<Key>, k: Key)
  {
    k in z.at && Some(k) != protect
  }

  /** Position `i` of `n` is among the `t` first that a sweep from `h` comes by. */
  predicate Swept(h: nat, n: nat, t: int, i: nat)
  {
    h <= i < h + t || i + n < h + t
  }

  /** Where the sweep stands after `t` steps, at most two rounds. */
  function Stand(h: nat, n: nat, t: nat): (p: nat)
    requires h < n && t <= 2 * n
    ensures p < n
  {
    if h + t < n then h + t else if h + t < 2 * n then h + t - n else h + t - 2 * n
  }

  /** What `t` steps of the sweep have established. */
  ghost predicate Swiped(q: seq<Key>, z: Sizes, protect: Option<Key>, visited: map<Key, bool>, h: nat, t: nat)
  {
    forall i: nat {:trigger q[i]} | i < |q| && Candidate(z, protect, q[i]) && q[i] in visited ::
      (Swept(h, |q|, t, i) ==> !visited[q[i]]) && !Swept(h, |q|, t - |q|, i)
  }

  /** In a queue without repeats, the sweep has only cleared marks where it has been. */
  ghost predicate Cleared(
    q: seq<Key>, z: Sizes, protect: Option<Key>, was: map<Key, bool>, visited: map<Key, bool>, h: nat, t: nat)
  {
    forall i: nat {:trigger q[i]} | i < |q| && Candidate(z, protect, q[i]) && q[i] in visited && q[i] in was ::
      if Swept(h, |q|, t, i) then was[q[i]] else visited[q[i]] == was[q[i]]
  }

  lemma SweepStep(
    q: seq<Key>, z: Sizes, protect: Option<Key>, visited: map<Key, bool>, visited': map<Key, bool>, h: nat, t: nat, p: nat)
    requires Swiped(q, z, protect, visited, h, t) && h < |q| && t < 2 * |q| && p == Stand(h, |q|, t)
    requires visited.Keys == z.at.Keys
    requires if Candidate(z, protect, q[p]) then visited[q[p]] && visited' == visited[q[p] := false] else visited' == visited
    ensures Swiped(q, z, protect, visited', h, t + 1)
  {
  }

  lemma ClearStep(
    q: seq<Key>, z: Sizes, protect: Option<Key>, was: map<Key, bool>, visited: map<Key, bool>, visited': map<Key, bool>,
    h: nat, t: nat, p: nat)
    requires Distinct(q) && Cleared(q, z, protect, was, visited, h, t)
    requires Swiped(q, z, protect, visited, h, t)
    requires h < |q| && t < 2 * |q| && p == Stand(h, |q|, t)
    requires visited.Keys == z.at.Keys && was.Keys == z.at.Keys
    requires if Candidate(z, protect, q[p]) then visited[q[p]] && visited' == visited[q[p] := false] else visited' == visited
    ensures Cleared(q, z, protect, was, visited', h, t + 1)
  {
    assert Candidate(z, protect, q[p]) ==> !Swept(h, |q|, t, p);
    forall i: nat | i < |q| && Candidate(z, protect, q[i]) && q[i] in visited && q[i] in was
      ensures if Swept(h, |q|, t + 1, i) then was[q[i]] else visited'[q[i]] == was[q[i]]
    {
      if i != p {
        assert Swept(h, |q|, t + 1, i) == Swept(h, |q|, t, i);
        assert q[i] != q[p];
      }
    }
  }

  /** After two rounds there is no candidate. */
  lemma SweepDone(q: seq<Key>, z: Sizes, protect: Option<Key>, visited: map<Key, bool>, h: nat)
    requires Swiped(q, z, protect, visited, h, 2 * |q|) && h < |q| && visited.Keys == z.at.Keys
    ensures forall k <- q :: !Candidate(z, protect, k)
  {
    forall k <- q ensures !Candidate(z, protect, k) {
      var i :| 0 <= i < |q| && q[i] == k;
      assert Swept(h, |q|, |q|, i);
    }
  }

  /** The compaction before the scan. */
  function Compact(s: State, z: Sizes): State
  {
    if |s.q| > 2 * |z.at| + 16 then s.(q := Stored(s.q, z.at), hand := 0) else s
  }

  /** The marks of a queue whose taken key's place is known. */
  lemma SecondChance(
    q: seq<Key>, z: Sizes, protect: Option<Key>, was: map<Key, bool>, visited: map<Key, bool>, h: nat, t: nat, p: nat)
    requires Distinct(q) && h < |q| && t < 2 * |q| && p == Stand(h, |q|, t)
    requires Cleared(q, z, protect, was, visited, h, t) && visited.Keys == z.at.Keys && was.Keys == z.at.Keys
    requires Candidate(z, protect, q[p]) && !visited[q[p]] && was[q[p]]
    ensures forall k <- q | Candidate(z, protect, k) :: was[k]
  {
    assert Swept(h, |q|, t, p);
    forall k <- q | Candidate(z, protect, k) ensures was[k] {
      var i: nat :| i < |q| && q[i] == k;
      assert Swept(h, |q|, t, i);
    }
  }

  /** `q.pop(hand)`. */
  lemma Popped(q: seq<Key>, p: nat)
    requires p < |q|
    ensures forall k <- q | k != q[p] :: k in q[..p] + q[p + 1..]
  {
    forall k <- q | k != q[p] ensures k in q[..p] + q[p + 1..] {
      var i: nat :| i < |q| && q[i] == k;
      assert i < p ==> (q[..p] + q[p + 1..])[i] == k;
      assert i > p ==> (q[..p] + q[p + 1..])[i - 1] == k;
    }
  }

  /** What the scan of a queue keeps, `t` steps in. */
  ghost predicate Sweeping(
    q: seq<Key>, z: Sizes, protect: Option<Key>, was: map<Key, bool>, visited: map<Key, bool>, h: nat, t: nat)
  {
    && visited.Keys == z.at.Keys
    && (t <= 2 * |q| ==> Swiped(q, z, protect, visited, h, t))
    && (t <= 2 * |q| && Distinct(q) ==> Cleared(q, z, protect, was, visited, h, t))
    && (t >= 2 * |q| ==> forall k <- q :: !Candidate(z, protect, k))
    && (forall k <- visited :: k in was && (visited[k] ==> was[k]))
    && (forall k <- visited | !Candidate(z, protect, k) :: k in was && visited[k] == was[k])
  }

  lemma Sweep(
    q: seq<Key>, z: Sizes, protect: Option<Key>, was: map<Key, bool>, visited: map<Key, bool>, visited': map<Key, bool>,
    h: nat, t: nat, p: nat)
    requires Sweeping(q, z, protect, was, visited, h, t) && was.Keys == z.at.Keys
    requires h < |q| && p < |q| && (t < 2 * |q| ==> p == Stand(h, |q|, t))
    requires if Candidate(z, protect, q[p]) then visited[q[p]] && visited' == visited[q[p] := false] else visited' == visited
    ensures Sweeping(q, z, protect, was, visited', h, t + 1)
  {
    if t < 2 * |q| {
      SweepStep(q, z, protect, visited, visited', h, t, p);
      if Distinct(q) {
        ClearStep(q, z, protect, was, visited, visited', h, t, p);
      }
      if t + 1 == 2 * |q| {
        SweepDone(q, z, protect, visited', h);
      }
    }
  }

  /** The first unmarked candidate the hand comes by. */
  lemma Taken(
    q: seq<Key>, z: Sizes, protect: Option<Key>, was: map<Key, bool>, visited: map<Key, bool>, h: nat, t: nat, p: nat)
    requires Sweeping(q, z, protect, was, visited, h, t) && was.Keys == z.at.Keys && h < |q| && p < |q|
    requires Candidate(z, protect, q[p]) && !visited[q[p]] && (t < 2 * |q| ==> p == Stand(h, |q|, t))
    ensures t < 2 * |q|
    ensures Distinct(q) && was[q[p]] ==> forall k <- q | Candidate(z, protect, k) :: was[k]
  {
    var k: Key := q[p];
    assert k in q;
    if Distinct(q) && was[k] {
      SecondChance(q, z, protect, was, visited, h, t, p);
    }
  }

  /**
   * The scan: at most 2n + 2 steps of the hand find a candidate whenever the queue has one. Marks are
   * cleared where the hand has been and nowhere else.
   */
  method Scan(q: seq<Key>, z: Sizes, protect: Option<Key>, was: map<Key, bool>, from: nat)
    returns (v: Option<Key>, visited: map<Key, bool>, hand: nat, ghost steps: nat)
    requires was.Keys == z.at.Keys && q != []
    ensures Sweeping(q, z, protect, was, visited, Home(from, |q|), steps)
    ensures v.None? ==> forall k <- q :: !Candidate(z, protect, k)
    ensures v.Some? ==> steps < 2 * |q| && hand == Stand(Home(from, |q|), |q|, steps) && q[hand] == v.value
    ensures v.Some? ==> Candidate(z, protect, v.value) && v.value in visited && !visited[v.value]
  {
    visited, hand := was, from;
    ghost var h := Home(from, |q|);
    for t := 0 to 2 * |q| + 2
      invariant t < 2 * |q| ==> Home(hand, |q|) == Stand(h, |q|, t)
      invariant Sweeping(q, z, protect, was, visited, h, t)
    {
      hand := Home(hand, |q|);
      var k := q[hand];
      ghost var before := visited;
      if k in z.at && Some(k) != protect {
        if !visited[k] {
          Taken(q, z, protect, was, visited, h, t, hand);
          return Some(k), visited, hand, t;
        }
        visited := visited[k := false];
      }
      Sweep(q, z, protect, was, before, visited, h, t, hand);
      hand := hand + 1;
    }
    v, steps := None, 2 * |q| + 2;
  }

  /** The hand starts over past the end. */
  function Home(hand: nat, n: nat): (h: nat)
    requires n > 0
    ensures h < n
  {
    if hand >= n then 0 else hand
  }

  /**
   * `_victim`: from any hand position, and whatever stale or repeated keys the queue holds, None
   * only when there is no candidate. With no key twice in the queue, a marked key goes only if all
   * candidates were marked.
   */
  method Victim(s: State, z: Sizes, protect: Option<Key>) returns (v: Option<Key>, r: State)
    requires Inv(s, z)
    ensures v.None? ==> Inv(r, z) && forall k <- z.at :: Some(k) == protect
    ensures v.Some? ==> v.value in z.at && Some(v.value) != protect && InvBut(r, z, v)
    ensures v.Some? && Distinct(s.q) && s.visited[v.value] ==> forall k <- z.at | Some(k) != protect :: s.visited[k]
    ensures forall k <- r.visited :: k in s.visited && (r.visited[k] ==> s.visited[k])
  {
    var c := Compact(s, z);
    if Distinct(s.q) {
      StoredDistinct(s.q, z.at);
    }
    if |c.q| == 0 {
      return None, c;
    }
    var visited, hand;
    ghost var steps;
    v, visited, hand, steps := Scan(c.q, z, protect, c.visited, c.hand);
    if v.None? {
      return None, State(c.q, visited, hand);
    }
    Taken(c.q, z, protect, c.visited, visited, Home(c.hand, |c.q|), steps, hand);
    Popped(c.q, hand);
    r := State(c.q[..hand] + c.q[hand + 1..], visited, hand);
  }
}

/** `RRIP`: 2-bit re-reference values; `S` inserts at 2, `B` mostly at 3, `D` duels the two. */
module RripPolicy {
  import opened Options
  import opened PolicyBase

  const MAX: nat := 3

  datatype Mode = S | B | D

  datatype State = State(mode: Mode, order: seq<Key>, rrpv: map<Key, nat>, psel: nat)

  ghost predicate Inv(s: State, z: Sizes)
  {
    && Distinct(s.order) && (forall k: Key :: k in s.order <==> k in z.at)
    && s.rrpv.Keys == z.at.Keys
    && (forall k <- s.rrpv :: s.rrpv[k] <= MAX)
    && s.psel <= 1023
  }

  /** `hash` is Python's `hash(key) % 64`. */
  function LeaderOf(hash: Key -> nat, key: Key): Option<Mode>
  {
    if hash(key) == 0 then Some(S) else if hash(key) == 1 then Some(B) else None
  }

  /** `coin` is the draw below 1/32. */
  function InsertRrpv(s: State, hash: Key -> nat, key: Key, coin: bool): nat
  {
    var leader := LeaderOf(hash, key);
    var m := if s.mode != D then s.mode else if leader.Some? then leader.value else if s.psel < 512 then S else B;
    if m == S || coin then MAX - 1 else MAX
  }

  function OnMiss(s: State, hash: Key -> nat, key: Key): State
  {
    var leader := LeaderOf(hash, key);
    if s.mode == D && leader == Some(S) then s.(psel := if s.psel + 1 < 1023 then s.psel + 1 else 1023)
    else if s.mode == D && leader == Some(B) then s.(psel := if s.psel == 0 then 0 else s.psel - 1)
    else s
  }

  function OnHit(s: State, key: Key): State
  {
    s.(rrpv := s.rrpv[key := 0])
  }

  function OnInsert(s: State, hash: Key -> nat, key: Key, coin: bool): State
  {
    s.(order := Put(s.order, key), rrpv := s.rrpv[key := InsertRrpv(s, hash, key, coin)])
  }

  function OnRemove(s: State, key: Key): State
  {
    s.(order := Without(s.order, key), rrpv := map k | k in s.rrpv && k != key :: s.rrpv[k])
  }

  lemma InsertKeeps(s: State, hash: Key -> nat, z: Sizes, key: Key, n: nat, coin: bool)
    requires Inv(s, z) && key !in z.at
    ensures Inv(OnInsert(s, hash, key, coin), Add(z, key, n))
  {
    AppendDistinct(s.order, key);
  }

  lemma RemoveKeeps(s: State, z: Sizes, key: Key)
    requires Inv(s, z)
    ensures Inv(OnRemove(s, key), Drop(z, key))
  {
    WithoutDistinct(s.order, key);
    assert OnRemove(s, key).rrpv.Keys == Drop(z, key).at.Keys;
  }

  /** The values of the candidates are `age` above what they were; the others are as before. */
  ghost predicate Aged(was: map<Key, nat>, now: map<Key, nat>, protect: Option<Key>, age: int)
  {
    && now.Keys == was.Keys
    && forall k <- was :: now[k] == was[k] + if Some(k) == protect then 0 else age
  }

  /** The first candidate at `MAX`, if any. */
  function FirstDistant(cands: seq<Key>, rrpv: map<Key, nat>): (v: Option<nat>)
    requires forall i | 0 <= i < |cands| :: cands[i] in rrpv
    ensures v.Some? ==> v.value < |cands| && rrpv[cands[v.value]] >= MAX
    ensures v.Some? ==> forall i | 0 <= i < v.value :: rrpv[cands[i]] < MAX
    ensures v.None? ==> forall i | 0 <= i < |cands| :: rrpv[cands[i]] < MAX
  {
    FirstDistantFrom(cands, rrpv, 0)
  }

  function FirstDistantFrom(cands: seq<Key>, rrpv: map<Key, nat>, i: nat): (v: Option<nat>)
    requires i <= |cands| && forall i | 0 <= i < |cands| :: cands[i] in rrpv
    ensures v.Some? ==> i <= v.value < |cands| && rrpv[cands[v.value]] >= MAX
    ensures v.Some? ==> forall j | i <= j < v.value :: rrpv[cands[j]] < MAX
    ensures v.None? ==> forall j | i <= j < |cands| :: rrpv[cands[j]] < MAX
    decreases |cands| - i
  {
    if i == |cands| then None
    else if rrpv[cands[i]] >= MAX then Some(i)
    else FirstDistantFrom(cands, rrpv, i + 1)
  }

  /** The candidates in order. */
  function Others(order: seq<Key>, protect: Option<Key>): seq<Key>
  {
    if protect.Some? then Without(order, protect.value) else order
  }

  /** `v` is listed, and every key listed before it has a lower value. */
  ghost predicate Oldest(cands: seq<Key>, rrpv: map<Key, nat>, v: Key)
  {
    v in rrpv && exists j: nat :: j < |cands| && cands[j] == v && forall i: nat | i < j :: cands[i] in rrpv && rrpv[cands[i]] < rrpv[v]
  }

  /** One round of aging. */
  method Age(cands: seq<Key>, rrpv: map<Key, nat>) returns (r: map<Key, nat>)
    requires Distinct(cands) && forall i | 0 <= i < |cands| :: cands[i] in rrpv
    ensures r.Keys == rrpv.Keys && forall k <- rrpv :: r[k] == if k in cands then rrpv[k] + 1 else rrpv[k]
  {
    r := rrpv;
    for i := 0 to |cands|
      invariant r.Keys == rrpv.Keys
      invariant forall k <- rrpv :: r[k] == if k in cands[..i] then rrpv[k] + 1 else rrpv[k]
    {
      assert cands[i] !in cands[..i] && cands[i] in rrpv;
      assert cands[..i + 1] == cands[..i] + [cands[i]];
      r := r[cands[i] := r[cands[i]] + 1];
    }
    assert cands[..|cands|] == cands;
  }

  /** The loop of `_victim` over the candidates. */
  method AgeUntilDistant(cands: seq<Key>, was: map<Key, nat>) returns (j: nat, rrpv: map<Key, nat>, age: nat)
    requires Distinct(cands) && cands != [] && forall i | 0 <= i < |cands| :: cands[i] in was && was[cands[i]] <= MAX
    ensures j < |cands| && rrpv.Keys == was.Keys
    ensures forall k <- was :: rrpv[k] == was[k] + if k in cands then age else 0
    ensures was[cands[j]] + age == MAX
    ensures forall i | 0 <= i < |cands| :: was[cands[i]] + age <= MAX
    ensures forall i | 0 <= i < j :: was[cands[i]] + age < MAX
  {
    rrpv, age := was, 0;
    assert forall i | 0 <= i < |cands| :: cands[i] in cands;
    var at := FirstDistant(cands, rrpv);
    while at.None?
      invariant rrpv.Keys == was.Keys
      invariant forall k <- was :: rrpv[k] == was[k] + if k in cands then age else 0
      invariant forall i | 0 <= i < |cands| :: was[cands[i]] + age <= MAX
      invariant at == FirstDistant(cands, rrpv)
      decreases MAX - age
    {
      assert forall i | 0 <= i < |cands| :: rrpv[cands[i]] == was[cands[i]] + age;
      assert was[cands[0]] + age < MAX;
      rrpv := Age(cands, rrpv);
      age := age + 1;
      at := FirstDistant(cands, rrpv);
    }
    j := at.value;
    assert forall i | 0 <= i < |cands| :: rrpv[cands[i]] == was[cands[i]] + age;
  }

  lemma OthersAre(s: State, z: Sizes, protect: Option<Key>)
    requires Inv(s, z)
    ensures Distinct(Others(s.order, protect))
    ensures forall k: Key :: k in Others(s.order, protect) <==> k in z.at && Some(k) != protect
    ensures forall i | 0 <= i < |Others(s.order, protect)| ::
              Others(s.order, protect)[i] in s.rrpv && s.rrpv[Others(s.order, protect)[i]] <= MAX
  {
    if protect.Some? {
      WithoutDistinct(s.order, protect.value);
    }
    var cands := Others(s.order, protect);
    forall i | 0 <= i < |cands| ensures cands[i] in s.rrpv {
      assert cands[i] in cands;
    }
  }

  /**
   * `_victim`: the oldest of the candidates with the highest value. All candidates age by the same
   * amount, so their relative order stays and none passes `MAX`.
   */
  method Victim(s: State, z: Sizes, protect: Option<Key>) returns (v: Option<Key>, r: State)
    requires Inv(s, z)
    ensures Inv(r, z) && r == s.(rrpv := r.rrpv)
    ensures v.None? ==> forall k <- z.at :: Some(k) == protect
    ensures v.Some? ==> v.value in z.at && Some(v.value) != protect
    ensures v.Some? ==> forall k <- z.at | Some(k) != protect :: s.rrpv[k] <= s.rrpv[v.value]
    ensures v.Some? ==> Aged(s.rrpv, r.rrpv, protect, MAX - s.rrpv[v.value])
    ensures v.Some? ==> Oldest(Others(s.order, protect), s.rrpv, v.value)
  {
    var cands := Others(s.order, protect);
    OthersAre(s, z, protect);
    if cands == [] {
      return None, s;
    }
    var j, rrpv, age := AgeUntilDistant(cands, s.rrpv);
    v, r := Some(cands[j]), s.(rrpv := rrpv);
    forall k <- z.at ensures rrpv[k] <= MAX && (k in cands ==> s.rrpv[k] + age <= MAX) {
      if k in cands {
        var i :| 0 <= i < |cands| && cands[i] == k;
      }
    }
    assert cands[j] in cands;
  }
}
