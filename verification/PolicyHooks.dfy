/**
 * The hooks of every policy behind one interface, as the base class calls them: on a hit, a miss,
 * an insert, an external removal, an eviction, and for the next victim.
 */
module PolicyHooks {
  import opened Options
  import opened PolicyBase
  import R = RecencyPolicy
  import C = CrumbPolicy
  import StaleHeap
  import Lfu = LfuPolicy
  import Slru = SlruPolicy
  import Arc = ArcPolicy
  import Sieve = SievePolicy
  import Rrip = RripPolicy
  import Gdsf = GdsfPolicy
  import Sampled = SampledPolicy
  import CostLru = CostLruPolicy

  /**
   * The hook state of one policy. `DeadFirst` keeps its own recency order beside an inner
   * policy, which mirrors the stored sizes.
   */
  datatype Hooks =
    | Recency(recency: R.State)
    | Ram(recency: R.State)
    | Crumbs(crumbs: C.State, target: real)
    | LeastFrequent(lfu: Lfu.State)
    | Segmented(slru: Slru.State)
    | Adaptive(arc: Arc.State)
    | Sweeping(sieve: Sieve.State)
    | Predicting(rrip: Rrip.State, hash: Key -> nat)
    | GreedyDual(gdsf: Gdsf.State, touched: bool)
    | SampledDual(sampled: Sampled.State)
    | CostRecency(costLru: CostLru.State, ln: real -> real)
    | DeadFirst(od: seq<Key>, ageOnDead: bool, inner: Hooks)

  /** The policies `_DeadFirst` is built around. */
  predicate CanBeInner(e: Hooks)
  {
    e.Recency? || e.GreedyDual? || e.SampledDual? || e.CostRecency?
  }

  /** The hook state agrees with the stored sizes; a key just chosen as victim may have lost its queue or heap entry. */
  ghost predicate Agrees(e: Hooks, cap: nat, z: Sizes, gone: Option<Key>)
  {
    match e
    case Recency(s) => R.Inv(s, z)
    case Ram(s) => R.Inv(s, z)
    case Crumbs(s, target) => C.Inv(s, z) && target <= 1.0
    case LeastFrequent(s) => Lfu.InvBut(s, z, gone)
    case Segmented(s) => Slru.Inv(s, z)
    case Adaptive(s) => Arc.Inv(s, cap, z)
    case Sweeping(s) => Sieve.InvBut(s, z, gone)
    case Predicting(s, _) => Rrip.Inv(s, z)
    case GreedyDual(s, _) => Gdsf.InvBut(s, z, gone)
    case SampledDual(s) => Sampled.Inv(s, z)
    case CostRecency(s, _) => CostLru.InvBut(s, z, gone)
    case DeadFirst(od, _, inner) => R.Inv(R.State(od, false), z) && CanBeInner(inner) && Agrees(inner, cap, z, gone)
  }

  lemma {:induction false} AgreesBut(e: Hooks, cap: nat, z: Sizes, gone: Key)
    requires Agrees(e, cap, z, None)
    ensures Agrees(e, cap, z, Some(gone))
  {
    if e.DeadFirst? {
      AgreesBut(e.inner, cap, z, gone);
    }
  }

  // ---- The policies as their constructors leave them ---------------------

  datatype Kind =
    | LRU | FIFO | CashRAM | CashCurrent(target: real, crumbs: bool) | LFU | SLRU | ARC | SIEVE
    | RRIP(mode: Rrip.Mode, hash: Key -> nat)
    | GDSF(useFreq: bool) | TouchedGDSF(useFreq: bool) | SampledGDSF(sample: nat)
    | CostLRU(tau: real, freqOn: bool, ln: real -> real)
    | AroundInner(inner: Kind, ageOnDead: bool)

  /** The settings the policies are made with: a target of at most the cap, and an inner policy of a kind that is used as one. */
  predicate Sensible(kind: Kind)
  {
    && (kind.CashCurrent? ==> kind.target <= 1.0)
    && (kind.AroundInner? ==> kind.inner.LRU? || kind.inner.GDSF? || kind.inner.SampledGDSF? || kind.inner.CostLRU?)
  }

  function Gdsf0(useFreq: bool): Gdsf.State
  {
    Gdsf.State(useFreq, 0.0, map[], map[], map[], multiset{})
  }

  function Start(kind: Kind, cap: nat): Hooks
  {
    match kind
    case LRU => Recency(R.State([], false))
    case FIFO => Recency(R.State([], true))
    case CashRAM => Ram(R.State([], false))
    case CashCurrent(target, crumbs) => Crumbs(C.State(C.CrumbSize(cap, crumbs), [], [], 0), target)
    case LFU => LeastFrequent(Lfu.State(map[], map[], multiset{}))
    case SLRU => Segmented(Slru.State([], [], 0))
    case ARC => Adaptive(Arc.State([], [], 0, [], [], 0, 0, map[], 0.0))
    case SIEVE => Sweeping(Sieve.State([], map[], 0))
    case RRIP(mode, hash) => Predicting(Rrip.State(mode, [], map[], 512), hash)
    case GDSF(useFreq) => GreedyDual(Gdsf0(useFreq), false)
    case TouchedGDSF(useFreq) => GreedyDual(Gdsf0(useFreq), true)
    case SampledGDSF(sample) => SampledDual(Sampled.State(Gdsf0(true), sample, [], map[]))
    case CostLRU(tau, freqOn, ln) => CostRecency(CostLru.State(tau, freqOn, map[], map[], map[], multiset{}), ln)
    case AroundInner(inner, ageOnDead) => DeadFirst([], ageOnDead, Start(inner, cap))
  }

  lemma {:induction false} StartAgrees(kind: Kind, cap: nat)
    requires Sensible(kind)
    ensures Agrees(Start(kind, cap), cap, EMPTY, None)
  {
    if kind.AroundInner? {
      StartAgrees(kind.inner, cap);
    }
  }

  // ---- What each hook makes of the state ---------------------------------

  ghost function HitHooks(e: Hooks, cap: nat, z: Sizes, key: Key, now: nat): Hooks
    requires Agrees(e, cap, z, None) && key in z.at
    decreases e
  {
    match e
    case Recency(s) => Recency(R.OnHit(s, key))
    case Ram(s) => Ram(R.OnHit(s, key))
    case Crumbs(s, target) => Crumbs(C.OnHit(s, z, key), target)
    case LeastFrequent(s) => LeastFrequent(Lfu.OnHit(s, key, now))
    case Segmented(s) => Segmented(Slru.HitState(s, z, cap, key))
    case Adaptive(s) => Adaptive(Arc.OnHit(s, z, key))
    case Sweeping(s) => Sweeping(Sieve.OnHit(s, key))
    case Predicting(s, hash) => Predicting(Rrip.OnHit(s, key), hash)
    case GreedyDual(s, touched) => GreedyDual(Gdsf.OnHit(s, z, key, now), touched)
    case SampledDual(s) => SampledDual(Sampled.OnHit(s, z, key, now))
    case CostRecency(s, ln) => CostRecency(CostLru.OnHit(s, ln, key, now), ln)
    case DeadFirst(od, age, inner) => DeadFirst(ToEnd(od, key), age, HitHooks(inner, cap, z, key, now))
  }

  ghost function MissHooks(e: Hooks, cap: nat, key: Key, size: nat): Hooks
  {
    match e
    case Adaptive(s) => Adaptive(Arc.OnMiss(s, cap, key, size))
    case Predicting(s, hash) => Predicting(Rrip.OnMiss(s, hash, key), hash)
    case _ => e
  }

  /** `coin` is the draw of `RRIP`. */
  ghost function InsertHooks(e: Hooks, z: Sizes, key: Key, size: nat, cost: real, now: nat, coin: bool): Hooks
    requires key in z.at
    decreases e
  {
    match e
    case Recency(s) => Recency(R.OnInsert(s, key))
    case Ram(s) => Ram(R.OnInsert(s, key))
    case Crumbs(s, target) => Crumbs(C.OnInsert(s, z, key, size), target)
    case LeastFrequent(s) => LeastFrequent(Lfu.OnInsert(s, key, now))
    case Segmented(s) => Segmented(Slru.OnInsert(s, key))
    case Adaptive(s) => Adaptive(Arc.OnInsert(s, key, size))
    case Sweeping(s) => Sweeping(Sieve.OnInsert(s, key))
    case Predicting(s, hash) => Predicting(Rrip.OnInsert(s, hash, key, coin), hash)
    case GreedyDual(s, touched) => GreedyDual(Gdsf.OnInsert(s, z, key, cost, now), touched)
    case SampledDual(s) => SampledDual(Sampled.OnInsert(s, z, key, cost, now))
    case CostRecency(s, ln) => CostRecency(CostLru.OnInsert(s, ln, key, size, cost, now), ln)
    case DeadFirst(od, age, inner) => DeadFirst(Put(od, key), age, InsertHooks(inner, z, key, size, cost, now, coin))
  }

  ghost predicate Inserts(e: Hooks, z: Sizes, key: Key, size: nat, cost: real, now: nat, r: Hooks)
    requires key in z.at
  {
    exists coin: bool {:trigger InsertHooks(e, z, key, size, cost, now, coin)} :: r == InsertHooks(e, z, key, size, cost, now, coin)
  }

  ghost function RemoveHooks(e: Hooks, z: Sizes, key: Key): Hooks
    requires key in z.at
    decreases e
  {
    match e
    case Recency(s) => Recency(R.OnRemove(s, key))
    case Ram(s) => Ram(R.OnRemove(s, key))
    case Crumbs(s, target) => Crumbs(C.OnRemove(s, key, z.at[key]), target)
    case LeastFrequent(s) => LeastFrequent(Lfu.OnRemove(s, key))
    case Segmented(s) => Segmented(Slru.OnRemove(s, z, key))
    case Adaptive(s) => Adaptive(Arc.OnRemove(s, z, key))
    case Sweeping(s) => Sweeping(Sieve.OnRemove(s, key))
    case Predicting(s, hash) => Predicting(Rrip.OnRemove(s, key), hash)
    case GreedyDual(s, touched) => GreedyDual(Gdsf.OnRemove(s, key), touched)
    case SampledDual(s) => SampledDual(Sampled.OnRemove(s, key))
    case CostRecency(s, ln) => CostRecency(CostLru.OnRemove(s, key), ln)
    case DeadFirst(od, age, inner) => DeadFirst(Without(od, key), age, RemoveHooks(inner, z, key))
  }

  // ---- The hooks ---------------------------------------------------------

  method OnHit(e: Hooks, cap: nat, z: Sizes, key: Key, now: nat) returns (r: Hooks)
    requires Agrees(e, cap, z, None) && key in z.at
    ensures Agrees(r, cap, z, None) && SamePolicy(e, r) && r == HitHooks(e, cap, z, key, now)
    decreases e
  {
    match e
    case Recency(s) => R.HitKeeps(s, z, key); r := Recency(R.OnHit(s, key));
    case Ram(s) => R.HitKeeps(s, z, key); r := Ram(R.OnHit(s, key));
    case Crumbs(s, target) => C.HitKeeps(s, z, key); r := Crumbs(C.OnHit(s, z, key), target);
    case LeastFrequent(s) => Lfu.HitKeeps(s, z, key, now); r := LeastFrequent(Lfu.OnHit(s, key, now));
    case Segmented(s) => var s' := Slru.OnHit(s, z, cap, key); r := Segmented(s');
    case Adaptive(s) => Arc.HitKeeps(s, cap, z, key); r := Adaptive(Arc.OnHit(s, z, key));
    case Sweeping(s) => r := Sweeping(Sieve.OnHit(s, key));
    case Predicting(s, hash) => r := Predicting(Rrip.OnHit(s, key), hash);
    case GreedyDual(s, touched) => Gdsf.HitKeeps(s, z, key, now); r := GreedyDual(Gdsf.OnHit(s, z, key, now), touched);
    case SampledDual(s) => Sampled.HitKeeps(s, z, key, now); r := SampledDual(Sampled.OnHit(s, z, key, now));
    case CostRecency(s, ln) => CostLru.HitKeeps(s, ln, z, key, now); r := CostRecency(CostLru.OnHit(s, ln, key, now), ln);
    case DeadFirst(od, age, inner) =>
      R.HitKeeps(R.State(od, false), z, key);
      var i := OnHit(inner, cap, z, key, now);
      r := DeadFirst(ToEnd(od, key), age, i);
  }

  /** Still the same policy, with the same settings. */
  ghost predicate SamePolicy(a: Hooks, b: Hooks)
  {
    match a
    case Recency(s) => b.Recency? && b.recency.fifo == s.fifo
    case Ram(s) => b.Ram? && b.recency.fifo == s.fifo
    case Crumbs(s, target) => b.Crumbs? && b.target == target && b.crumbs.crumb == s.crumb
    case LeastFrequent(s) => b.LeastFrequent?
    case Segmented(s) => b.Segmented?
    case Adaptive(s) => b.Adaptive?
    case Sweeping(s) => b.Sweeping?
    case Predicting(s, hash) => b.Predicting? && b.hash == hash && b.rrip.mode == s.mode
    case GreedyDual(s, touched) => b.GreedyDual? && b.touched == touched && b.gdsf.useFreq == s.useFreq
    case SampledDual(s) => b.SampledDual? && b.sampled.sample == s.sample
    case CostRecency(s, ln) => b.CostRecency? && b.ln == ln && b.costLru.tau == s.tau && b.costLru.freqOn == s.freqOn
    case DeadFirst(_, age, inner) => b.DeadFirst? && b.ageOnDead == age && SamePolicy(inner, b.inner)
  }

  /** `_DeadFirst` does not pass a miss on to its inner policy. */
  method OnMiss(e: Hooks, cap: nat, z: Sizes, key: Key, size: nat) returns (r: Hooks)
    requires Agrees(e, cap, z, None)
    ensures Agrees(r, cap, z, None) && SamePolicy(e, r) && r == MissHooks(e, cap, key, size)
  {
    match e
    case Adaptive(s) => Arc.MissKeeps(s, cap, z, key, size); r := Adaptive(Arc.OnMiss(s, cap, key, size));
    case Predicting(s, hash) => r := Predicting(Rrip.OnMiss(s, hash, key), hash);
    case _ => r := e; SamePolicyAs(e);
  }

  lemma {:induction false} SamePolicyAs(e: Hooks)
    ensures SamePolicy(e, e)
  {
    if e.DeadFirst? {
      SamePolicyAs(e.inner);
    }
  }

  lemma {:induction false} SamePolicyTrans(a: Hooks, b: Hooks, c: Hooks)
    requires SamePolicy(a, b) && SamePolicy(b, c)
    ensures SamePolicy(a, c)
  {
    if a.DeadFirst? {
      SamePolicyTrans(a.inner, b.inner, c.inner);
    }
  }

  method OnInsert(e: Hooks, cap: nat, z: Sizes, key: Key, size: nat, cost: real, now: nat) returns (r: Hooks)
    requires Agrees(e, cap, z, None) && key !in z.at
    ensures Agrees(r, cap, Add(z, key, size), None) && SamePolicy(e, r)
    ensures Inserts(e, Add(z, key, size), key, size, cost, now, r)
    decreases e
  {
    var z' := Add(z, key, size);
    ghost var drawn := true;
    match e {
    case Recency(s) => R.InsertKeeps(s, z, key, size); r := Recency(R.OnInsert(s, key));
    case Ram(s) => R.InsertKeeps(s, z, key, size); r := Ram(R.OnInsert(s, key));
    case Crumbs(s, target) => C.InsertKeeps(s, z, key, size); r := Crumbs(C.OnInsert(s, z', key, size), target);
    case LeastFrequent(s) => Lfu.InsertKeeps(s, z, key, size, now); r := LeastFrequent(Lfu.OnInsert(s, key, now));
    case Segmented(s) => Slru.InsertKeeps(s, z, key, size); r := Segmented(Slru.OnInsert(s, key));
    case Adaptive(s) => Arc.InsertKeeps(s, cap, z, key, size); r := Adaptive(Arc.OnInsert(s, key, size));
    case Sweeping(s) => Sieve.InsertKeeps(s, z, key, size); r := Sweeping(Sieve.OnInsert(s, key));
    case Predicting(s, hash) =>
      var coin: bool := *;
      Rrip.InsertKeeps(s, hash, z, key, size, coin);
      drawn := coin;
      r := Predicting(Rrip.OnInsert(s, hash, key, coin), hash);
    case GreedyDual(s, touched) =>
      Gdsf.InsertKeeps(s, z, key, size, cost, now);
      r := GreedyDual(Gdsf.OnInsert(s, z', key, cost, now), touched);
    case SampledDual(s) =>
      Sampled.InsertKeeps(s, z, key, size, cost, now);
      r := SampledDual(Sampled.OnInsert(s, z', key, cost, now));
    case CostRecency(s, ln) =>
      CostLru.InsertKeeps(s, ln, z, key, size, cost, now);
      r := CostRecency(CostLru.OnInsert(s, ln, key, size, cost, now), ln);
    case DeadFirst(od, age, inner) =>
      R.InsertKeeps(R.State(od, false), z, key, size);
      var i := OnInsert(inner, cap, z, key, size, cost, now);
      r := DeadFirst(Put(od, key), age, i);
      drawn :| i == InsertHooks(inner, z', key, size, cost, now, drawn);
    }
    assert r == InsertHooks(e, z', key, size, cost, now, drawn);
  }

  /** Under `remove`: the size is still stored when the hook runs. */
  method OnRemove(e: Hooks, cap: nat, z: Sizes, key: Key) returns (r: Hooks)
    requires Agrees(e, cap, z, Some(key)) && key in z.at
    ensures Agrees(r, cap, Drop(z, key), None) && SamePolicy(e, r) && r == RemoveHooks(e, z, key)
    decreases e
  {
    match e
    case Recency(s) => R.RemoveKeeps(s, z, key); r := Recency(R.OnRemove(s, key));
    case Ram(s) => R.RemoveKeeps(s, z, key); r := Ram(R.OnRemove(s, key));
    case Crumbs(s, target) => C.RemoveKeeps(s, z, key); r := Crumbs(C.OnRemove(s, key, z.at[key]), target);
    case LeastFrequent(s) => Lfu.RemoveKeeps(s, z, key); r := LeastFrequent(Lfu.OnRemove(s, key));
    case Segmented(s) => Slru.RemoveKeeps(s, z, key); r := Segmented(Slru.OnRemove(s, z, key));
    case Adaptive(s) => Arc.RemoveKeeps(s, cap, z, key); r := Adaptive(Arc.OnRemove(s, z, key));
    case Sweeping(s) => Sieve.RemoveKeeps(s, z, key); r := Sweeping(Sieve.OnRemove(s, key));
    case Predicting(s, hash) => Rrip.RemoveKeeps(s, z, key); r := Predicting(Rrip.OnRemove(s, key), hash);
    case GreedyDual(s, touched) => Gdsf.RemoveKeeps(s, z, key); r := GreedyDual(Gdsf.OnRemove(s, key), touched);
    case SampledDual(s) => Sampled.RemoveKeeps(s, z, key); r := SampledDual(Sampled.OnRemove(s, key));
    case CostRecency(s, ln) => CostLru.RemoveKeeps(s, z, key); r := CostRecency(CostLru.OnRemove(s, key), ln);
    case DeadFirst(od, age, inner) =>
      R.RemoveKeeps(R.State(od, false), z, key);
      var i := OnRemove(inner, cap, z, key);
      r := DeadFirst(Without(od, key), age, i);
  }

  /** `ARC` remembers what it evicts, and forgets its oldest ghosts. */
  ghost predicate DropsArc(s: Arc.State, cap: nat, z: Sizes, key: Key, r: Arc.State)
    requires key in z.at
  {
    && r.t1 == Without(s.t1, key) && r.t2 == Without(s.t2, key) && r.p == s.p
    && Arc.Cut(if key in s.t1 then s.b1 + [key] else s.b1, r.b1, s.ghosts[key := z.at[key]], cap - r.b1Bytes)
    && Arc.Cut(if key in s.t1 then s.b2 else s.b2 + [key], r.b2, s.ghosts[key := z.at[key]], cap - r.b2Bytes)
  }

  /** Under `_drop`: the size is popped first; `SLRU` and `ARC` correct their totals before that. */
  method OnDrop(e: Hooks, cap: nat, z: Sizes, key: Key) returns (r: Hooks)
    requires Agrees(e, cap, z, Some(key)) && key in z.at
    ensures Agrees(r, cap, Drop(z, key), None) && SamePolicy(e, r)
    ensures if e.Adaptive? then DropsArc(e.arc, cap, z, key, r.arc) else r == RemoveHooks(e, z, key)
  {
    if e.Adaptive? {
      var s := DropArc(e.arc, cap, z, key);
      r := Adaptive(s);
    } else if e.Segmented? {
      Slru.RemoveKeeps(e.slru, z, key);
      r := Segmented(Slru.OnDrop(e.slru, z, key));
    } else {
      r := OnRemove(e, cap, z, key);
    }
  }

  method DropArc(s: Arc.State, cap: nat, z: Sizes, key: Key) returns (r: Arc.State)
    requires Arc.Inv(s, cap, z) && key in z.at
    ensures Arc.Inv(r, cap, Drop(z, key)) && DropsArc(s, cap, z, key, r)
  {
    r := Arc.OnDrop(s, cap, z, key);
  }

  /** `GDSF` ages on a dead victim too: the clock rises to its priority. */
  function AgeOnDead(e: Hooks, key: Key): Hooks
  {
    match e
    case GreedyDual(s, touched) =>
      GreedyDual(s.(clock := Gdsf.Max(s.clock, if key in s.prio then s.prio[key] else 0.0)), touched)
    case SampledDual(s) =>
      SampledDual(s.(g := s.g.(clock := Gdsf.Max(s.g.clock, if key in s.g.prio then s.g.prio[key] else 0.0))))
    case _ => e
  }

  lemma AgeOnDeadKeeps(e: Hooks, cap: nat, z: Sizes, key: Key)
    requires CanBeInner(e) && Agrees(e, cap, z, None)
    ensures Agrees(AgeOnDead(e, key), cap, z, None) && SamePolicy(e, AgeOnDead(e, key))
  {
    match e
    case GreedyDual(s, touched) => Gdsf.SameRanks(s, AgeOnDead(e, key).gdsf);
    case SampledDual(s) => Gdsf.SameRanks(s.g, AgeOnDead(e, key).sampled.g);
    case _ =>
  }

  /** The oldest key judged dead, other than the protected one. */
  function FirstDead(od: seq<Key>, dead: Key -> bool, protect: Option<Key>): (v: Option<Key>)
    ensures v.Some? ==> v.value in od && Some(v.value) != protect && dead(v.value)
    ensures v.None? ==> forall k <- od | dead(k) :: Some(k) == protect
  {
    if od == [] then None
    else if Some(od[0]) != protect && dead(od[0]) then Some(od[0])
    else FirstDead(od[1..], dead, protect)
  }

  /** The policies whose victim is read off their lists. */
  predicate Listed(e: Hooks)
  {
    e.Recency? || e.Ram? || e.Segmented? || e.Adaptive?
  }

  function ListVictim(e: Hooks, protect: Option<Key>): Option<Key>
    requires Listed(e)
  {
    match e
    case Recency(s) => FirstOther(s.od, protect)
    case Ram(s) => FirstOther(s.od, protect)
    case Segmented(s) => Slru.Victim(s, protect)
    case Adaptive(s) => Arc.Victim(s, protect)
  }

  lemma ListVictimIs(e: Hooks, cap: nat, z: Sizes, protect: Option<Key>)
    requires Listed(e) && Agrees(e, cap, z, None)
    ensures ListVictim(e, protect).None? ==> forall k <- z.at :: Some(k) == protect
    ensures ListVictim(e, protect).Some? ==> ListVictim(e, protect).value in z.at && Some(ListVictim(e, protect).value) != protect
  {
    var v := ListVictim(e, protect);
    if v.Some? {
      var k: Key := v.value;
      match e
      case Recency(s) => assert k in s.od;
      case Ram(s) => assert k in s.od;
      case Segmented(s) => assert k in s.prob || k in s.prot;
      case Adaptive(s) => assert k in s.t1 || k in s.t2;
    }
  }

  /**
   * The victim each policy's rule names: first in its lists; of the lowest count, then the least recent
   * use (`LFU`); of the lowest priority or rank (`GDSF`, `CostLRU`); the oldest of the highest value (`RRIP`);
   * unmarked unless all are marked (`SIEVE`, when no key is queued twice); the oldest dead key, or the
   * inner policy's. Any other stored key may be `SampledGDSF`'s.
   */
  ghost predicate ByRule(
    e: Hooks, cap: nat, z: Sizes, used: nat, goal: real, protect: Option<Key>, dead: Key -> bool, v: Key)
    requires Agrees(e, cap, z, None) && v in z.at
    decreases e
  {
    match e
    case Crumbs(s, _) => C.Victim(s, z, used, goal, protect) == Some(v)
    case LeastFrequent(s) =>
      forall k <- z.at | Some(k) != protect :: StaleHeap.Leq(Lfu.EntryOf(s, v), Lfu.EntryOf(s, k))
    case Sweeping(s) => Distinct(s.q) && s.visited[v] ==> forall k <- z.at | Some(k) != protect :: s.visited[k]
    case Predicting(s, _) =>
      && Rrip.Oldest(Rrip.Others(s.order, protect), s.rrpv, v)
      && forall k <- z.at | Some(k) != protect :: s.rrpv[k] <= s.rrpv[v]
    case GreedyDual(s, _) => forall k <- z.at | Some(k) != protect :: s.prio[v] <= s.prio[k]
    case SampledDual(_) => true
    case CostRecency(s, _) => forall k <- z.at | Some(k) != protect :: s.rank[v] <= s.rank[k]
    case DeadFirst(od, _, inner) =>
      || FirstDead(od, dead, protect) == Some(v)
      || (FirstDead(od, dead, protect).None? && ByRule(inner, cap, z, used, goal, protect, dead, v))
    case _ => ListVictim(e, protect) == Some(v)
  }

  /** One eviction: what the policy had before it, the bytes it goes down to, the key it kept, those it judged dead, and the victim. */
  datatype Choice = Choice(
    hooks: Hooks, sizes: Sizes, used: nat, goal: real, protect: Option<Key>, dead: Key -> bool, key: Key)

  ghost predicate IsVictim(cap: nat, c: Choice)
  {
    && Agrees(c.hooks, cap, c.sizes, None) && c.key in c.sizes.at && Some(c.key) != c.protect
    && (c.hooks.Crumbs? ==> c.goal == cap as real * c.hooks.target)
    && ByRule(c.hooks, cap, c.sizes, c.used, c.goal, c.protect, c.dead, c.key)
  }

  /** `_victim` of every policy but `_DeadFirst`. */
  method PlainVictim(
    e: Hooks, cap: nat, z: Sizes, ghost used: nat, ghost goal: real, protect: Option<Key>, ghost dead: Key -> bool)
    returns (v: Option<Key>, r: Hooks)
    requires Agrees(e, cap, z, None) && !e.Crumbs? && !e.DeadFirst?
    ensures v.None? ==> Agrees(r, cap, z, None) && forall k <- z.at :: Some(k) == protect
    ensures v.Some? ==> v.value in z.at && Some(v.value) != protect && Agrees(r, cap, z, v)
    ensures SamePolicy(e, r)
    ensures v.Some? ==> ByRule(e, cap, z, used, goal, protect, dead, v.value)
    ensures e.Recency? || e.Ram? ==> r == e && v == FirstOther(e.recency.od, protect)
  {
    if Listed(e) {
      v, r := ListVictim(e, protect), e;
      ListVictimIs(e, cap, z, protect);
      return;
    }
    match e
    case LeastFrequent(s) => var s'; v, s' := Lfu.Victim(s, z, protect); r := LeastFrequent(s');
    case Sweeping(s) => var s'; v, s' := Sieve.Victim(s, z, protect); r := Sweeping(s');
    case Predicting(s, hash) => var s'; v, s' := Rrip.Victim(s, z, protect); r := Predicting(s', hash);
    case GreedyDual(s, touched) => var s'; v, s' := Gdsf.Victim(s, z, protect); r := GreedyDual(s', touched);
    case SampledDual(s) => var s'; ghost var drawn; v, s', drawn := Sampled.Victim(s, z, protect); r := SampledDual(s');
    case CostRecency(s, ln) => var s'; v, s' := CostLru.Victim(s, z, protect); r := CostRecency(s', ln);
  }

  /**
   * `_victim`: a stored key other than the protected one, None only when there is no such key.
   * Which keys `_DeadFirst` judges dead is `dead`.
   */
  method Victim(e: Hooks, cap: nat, z: Sizes, ghost used: nat, ghost goal: real, protect: Option<Key>, dead: Key -> bool)
    returns (v: Option<Key>, r: Hooks)
    requires Agrees(e, cap, z, None) && !e.Crumbs?
    ensures v.None? ==> Agrees(r, cap, z, None) && forall k <- z.at :: Some(k) == protect
    ensures v.Some? ==> v.value in z.at && Some(v.value) != protect && Agrees(r, cap, z, v)
    ensures e.DeadFirst? && v.Some? && !dead(v.value) ==> forall k <- z.at | dead(k) :: Some(k) == protect
    ensures SamePolicy(e, r)
    ensures v.Some? ==> ByRule(e, cap, z, used, goal, protect, dead, v.value)
    ensures e.Recency? || e.Ram? ==> r == e && v == FirstOther(e.recency.od, protect)
  {
    if !e.DeadFirst? {
      v, r := PlainVictim(e, cap, z, used, goal, protect, dead);
      return;
    }
    v := FirstDead(e.od, dead, protect);
    if v.Some? {
      var i := if e.ageOnDead then AgeOnDead(e.inner, v.value) else e.inner;
      AgeOnDeadKeeps(e.inner, cap, z, v.value);
      SamePolicyAs(e.inner);
      AgreesBut(i, cap, z, v.value);
      r := e.(inner := i);
    } else {
      var i;
      v, i := PlainVictim(e.inner, cap, z, used, goal, protect, dead);
      r := e.(inner := i);
    }
  }

  /** Exactly the policies that take hints re-base the keys named. */
  ghost predicate Touches(e: Hooks, r: Hooks, z: Sizes, keys: seq<Key>)
  {
    match e
    case GreedyDual(s, touched) =>
      if touched then r.GreedyDual? && Gdsf.Inv(s, z) && Rebased(s, r.gdsf, z, keys) else r == e
    case DeadFirst(od, age, GreedyDual(s, touched)) =>
      && r.DeadFirst? && r.inner.GreedyDual? && r == DeadFirst(od, age, GreedyDual(r.inner.gdsf, touched))
      && Gdsf.Inv(s, z) && Rebased(s, r.inner.gdsf, z, keys)
    case _ => r == e
  }

  /** `hint('touch')` and the touches of `hint('liveset')`: stored keys are re-based to the current clock. */
  method Touch(e: Hooks, cap: nat, z: Sizes, keys: seq<Key>, now: nat) returns (r: Hooks)
    requires Agrees(e, cap, z, None)
    ensures Agrees(r, cap, z, None) && SamePolicy(e, r)
    ensures Touches(e, r, z, keys)
  {
    SamePolicyAs(e);
    match e {
      case GreedyDual(s, touched) =>
        if !touched {
          return e;
        }
        var s' := TouchAll(s, z, keys, now);
        r := GreedyDual(s', touched);
      case DeadFirst(od, age, GreedyDual(s, touched)) =>
        var s' := TouchAll(s, z, keys, now);
        r := DeadFirst(od, age, GreedyDual(s', touched));
      case _ => r := e;
    }
  }

  /** `keys` are re-based, the other priorities are as before. */
  ghost predicate Rebased(s: Gdsf.State, r: Gdsf.State, z: Sizes, keys: seq<Key>)
    requires Gdsf.Inv(s, z)
  {
    && r == s.(prio := r.prio, heap := r.heap) && r.prio.Keys == s.prio.Keys
    && forall k <- z.at :: r.prio[k] == if k in keys then Gdsf.Prio(s, z, k) else s.prio[k]
  }

  lemma TouchOne(s: Gdsf.State, r: Gdsf.State, z: Sizes, keys: seq<Key>, key: Key, now: nat)
    requires Gdsf.Inv(s, z) && Gdsf.Inv(r, z) && Rebased(s, r, z, keys) && key in z.at
    ensures Gdsf.Inv(Gdsf.Push(r, z, key, now), z) && Rebased(s, Gdsf.Push(r, z, key, now), z, keys + [key])
  {
    Gdsf.TouchKeeps(r, z, key, now);
    assert Gdsf.Prio(r, z, key) == Gdsf.Prio(s, z, key);
    ghost var h := Gdsf.Prio(s, z, key);
    var p := Gdsf.Push(r, z, key, now);
    assert p.prio == r.prio[key := h];
    assert p == s.(prio := p.prio, heap := p.heap);
  }

  method TouchAll(s: Gdsf.State, z: Sizes, keys: seq<Key>, now: nat) returns (r: Gdsf.State)
    requires Gdsf.Inv(s, z)
    ensures Gdsf.Inv(r, z) && Rebased(s, r, z, keys)
  {
    r := s;
    for i := 0 to |keys|
      invariant Gdsf.Inv(r, z) && Rebased(s, r, z, keys[..i])
    {
      assert keys[..i + 1] == keys[..i] + [keys[i]];
      if keys[i] in z.at {
        TouchOne(s, r, z, keys[..i], keys[i], now);
        r := Gdsf.Push(r, z, keys[i], now);
      }
    }
    assert keys[..|keys|] == keys;
  }
}
