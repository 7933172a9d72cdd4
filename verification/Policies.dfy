/**
 * The base class of the eviction policies: stored sizes, the byte total, and the operations every
 * policy shares, over the hooks of any one policy.
 */
module Policies {
  import opened Options
  import opened PolicyBase
  import opened PolicyHooks
  import R = RecencyPolicy
  import C = CrumbPolicy

  /** `b` is what is left of `a` when its oldest keys go. */
  ghost predicate IsSuffix(a: seq<Key>, b: seq<Key>)
  {
    |b| <= |a| && b == a[|a| - |b|..]
  }

  /** `b` holds some of what `a` holds, each with its size. */
  ghost predicate Part(a: Sizes, b: Sizes)
  {
    forall k <- b.at :: k in a.at && b.at[k] == a.at[k]
  }

  lemma SuffixTrans(a: seq<Key>, b: seq<Key>, c: seq<Key>)
    requires IsSuffix(a, b) && IsSuffix(b, c)
    ensures IsSuffix(a, c)
  {
  }

  lemma PartDrop(was: Sizes, z: Sizes, k: Key)
    requires Part(was, z)
    ensures Part(was, Drop(z, k))
  {
  }

  /** The newest key is protected: the victim is the oldest key. */
  lemma OldestGoes(b: seq<Key>, protect: Key)
    requires Distinct(b) && b != [] && b[|b| - 1] == protect
    ensures FirstOther(b, Some(protect)) == if |b| > 1 then Some(b[0]) else None
  {
    assert |b| > 1 ==> b[0] != b[|b| - 1];
  }

  predicate ByRecency(e: Hooks)
  {
    e.Recency? || e.Ram?
  }

  /** The recency list of a policy that has one. */
  function Order(e: Hooks): seq<Key>
  {
    if ByRecency(e) then e.recency.od else []
  }

  predicate Fifo(e: Hooks)
  {
    ByRecency(e) && e.recency.fifo
  }

  /** A recency list has lost its oldest keys alone. */
  ghost predicate OldestWent(e: Hooks, e': Hooks)
  {
    ByRecency(e) ==> IsSuffix(Order(e), Order(e'))
  }

  lemma OldestWentTrans(a: Hooks, b: Hooks, c: Hooks)
    requires OldestWent(a, b) && OldestWent(b, c) && (ByRecency(a) ==> ByRecency(b))
    ensures OldestWent(a, c)
  {
    if ByRecency(a) {
      SuffixTrans(Order(a), Order(b), Order(c));
    }
  }

  /** The newest key of a recency list, if there is one. */
  ghost predicate EndsIn(e: Hooks, key: Key)
  {
    ByRecency(e) ==> Order(e) != [] && Order(e)[|Order(e)| - 1] == key
  }

  /** Of a recency list the oldest key goes when the newest is protected. */
  lemma OldestIs(e: Hooks, cap: nat, z: Sizes, protect: Key, v: Key)
    requires ByRecency(e) && Agrees(e, cap, z, None) && EndsIn(e, protect) && v in z.at
    requires FirstOther(Order(e), Some(protect)) == Some(v)
    ensures EndsIn(RemoveHooks(e, z, v), protect) && OldestWent(e, RemoveHooks(e, z, v))
  {
    OldestGoes(Order(e), protect);
    TailDistinct(Order(e));
  }

  // ---- Order of use ------------------------------------------------------

  /** When each key was last stored or hit, and when it was last stored. */
  datatype Clocks = Clocks(touched: R.Uses, stored: R.Uses)

  const NEVER := Clocks(R.NO_USES, R.NO_USES)

  function Hit(c: Clocks, key: Key): Clocks
  {
    c.(touched := R.Use(c.touched, key))
  }

  function Stored(c: Clocks, key: Key): Clocks
  {
    Clocks(R.Use(c.touched, key), R.Use(c.stored, key))
  }

  /** The uses a recency list goes by: in a `FIFO`, a hit is none. */
  function Clock(c: Clocks, fifo: bool): R.Uses
  {
    if fifo then c.stored else c.touched
  }

  /** A recency list is in the order of last use. */
  ghost predicate InOrder(e: Hooks, c: Clocks)
  {
    ByRecency(e) ==> R.InUseOrder(Order(e), Clock(c, Fifo(e)))
  }

  lemma HitInOrder(e: Hooks, cap: nat, z: Sizes, c: Clocks, key: Key, now: nat)
    requires Agrees(e, cap, z, None) && InOrder(e, c) && key in z.at
    ensures InOrder(HitHooks(e, cap, z, key, now), Hit(c, key))
  {
    if ByRecency(e) {
      R.UseKeepsOrder(e.recency, z, Clock(c, e.recency.fifo), key);
    }
  }

  /** Also when the key is not stored in the end. */
  lemma StoreInOrder(e: Hooks, cap: nat, z: Sizes, c: Clocks, key: Key)
    requires Agrees(e, cap, z, None) && InOrder(e, c) && key !in z.at
    ensures InOrder(e, Stored(c, key))
    ensures ByRecency(e) ==> R.InUseOrder(R.OnInsert(e.recency, key).od, Clock(Stored(c, key), Fifo(e)))
  {
    if ByRecency(e) {
      R.UseKeepsOrder(e.recency, z, Clock(c, e.recency.fifo), key);
    }
  }

  lemma RemoveInOrder(e: Hooks, cap: nat, z: Sizes, c: Clocks, key: Key)
    requires Agrees(e, cap, z, Some(key)) && InOrder(e, c) && key in z.at
    ensures InOrder(RemoveHooks(e, z, key), c)
  {
    if ByRecency(e) {
      R.UseKeepsOrder(e.recency, z, Clock(c, e.recency.fifo), key);
    }
  }

  lemma DropInOrder(e: Hooks, cap: nat, z: Sizes, c: Clocks, key: Key, r: Hooks)
    requires Agrees(e, cap, z, Some(key)) && InOrder(e, c) && key in z.at
    requires if e.Adaptive? then r.Adaptive? else r == RemoveHooks(e, z, key)
    ensures InOrder(r, c)
  {
    RemoveInOrder(e, cap, z, c, key);
  }

  /** What was evicted was used before all that is kept. */
  ghost predicate LeastRecentWent(was: Sizes, z: Sizes, u: R.Uses)
  {
    forall gone <- was.at, kept <- z.at | gone !in z.at :: R.When(u, gone) < R.When(u, kept)
  }

  lemma SuffixIsRecent(s: R.State, was: Sizes, s': R.State, z: Sizes, u: R.Uses)
    requires R.Inv(s, was) && R.Inv(s', z) && IsSuffix(s.od, s'.od) && R.InUseOrder(s.od, u)
    ensures LeastRecentWent(was, z, u)
  {
    var first := |s.od| - |s'.od|;
    assert s.od == s.od[..first] + s'.od;
    forall gone <- was.at, kept <- z.at | gone !in z.at ensures R.When(u, gone) < R.When(u, kept) {
      var i :| 0 <= i < |s.od[..first]| && s.od[..first][i] == gone;
      var j :| 0 <= j < |s'.od| && s'.od[j] == kept;
      assert s.od[first + j] == s'.od[j] && s.od[i] == gone;
    }
  }

  // ---- Evictions one after the other -------------------------------------

  ghost predicate Victims(cap: nat, log: seq<Choice>)
  {
    forall i: nat {:trigger VictimAt(cap, log, i)} | i < |log| :: VictimAt(cap, log, i)
  }

  ghost predicate VictimAt(cap: nat, log: seq<Choice>, i: nat)
  {
    i < |log| && IsVictim(cap, log[i])
  }

  lemma VictimsMore(cap: nat, log: seq<Choice>, c: Choice)
    requires Victims(cap, log) && IsVictim(cap, c)
    ensures Victims(cap, log + [c])
  {
    forall i: nat | i < |log + [c]| ensures VictimAt(cap, log + [c], i) {
      assert i < |log| ==> VictimAt(cap, log, i);
    }
  }

  /** One eviction more: of `v`, in this state. */
  ghost predicate LoggedOne(was: seq<Choice>, log: seq<Choice>, e: Hooks, z: Sizes, v: Key)
  {
    |log| == |was| + 1 && log[..|was|] == was && log[|was|].hooks == e && log[|was|].sizes == z && log[|was|].key == v
  }

  /** A victim is chosen, and the choice logged. */
  method Choose(e: Hooks, cap: nat, z: Sizes, ghost used: nat, protect: Key, ghost log: seq<Choice>)
    returns (v: Option<Key>, r: Hooks, ghost more: seq<Choice>)
    requires Agrees(e, cap, z, None) && !e.Crumbs? && Victims(cap, log)
    ensures v.None? ==> Agrees(r, cap, z, None) && more == log && forall k <- z.at :: k == protect
    ensures v.Some? ==> v.value in z.at && v.value != protect && Agrees(r, cap, z, v)
    ensures v.Some? ==> Victims(cap, more) && LoggedOne(log, more, e, z, v.value)
    ensures SamePolicy(e, r)
    ensures ByRecency(e) ==> r == e && v == FirstOther(Order(e), Some(protect))
  {
    var dead: Key -> bool := *;
    v, r := Victim(e, cap, z, used, cap as real, Some(protect), dead);
    more := log;
    if v.Some? {
      ghost var c := Choice(e, z, used, cap as real, Some(protect), dead, v.value);
      VictimsMore(cap, log, c);
      more := log + [c];
    }
  }

  /** The same for `CashCurrent`. */
  lemma LogCrumb(
    e: Hooks, cap: nat, z: Sizes, used: nat, goal: real, protect: Key, v: Key, log: seq<Choice>) returns (more: seq<Choice>)
    requires e.Crumbs? && Agrees(e, cap, z, None) && Victims(cap, log) && goal == cap as real * e.target
    requires C.Victim(e.crumbs, z, used, goal, Some(protect)) == Some(v)
    ensures Victims(cap, more) && LoggedOne(log, more, e, z, v)
  {
    var c := Choice(e, z, used, goal, Some(protect), (k: Key) => false, v);
    VictimsMore(cap, log, c);
    more := log + [c];
  }

  /** And for `CashRAM`. */
  lemma LogOldest(e: Hooks, cap: nat, z: Sizes, used: nat, log: seq<Choice>) returns (more: seq<Choice>)
    requires e.Ram? && Agrees(e, cap, z, None) && e.recency.od != [] && Victims(cap, log)
    ensures Victims(cap, more) && LoggedOne(log, more, e, z, e.recency.od[0])
  {
    var v: Key := e.recency.od[0];
    assert v in e.recency.od;
    var c := Choice(e, z, used, cap as real, None, (k: Key) => false, v);
    VictimsMore(cap, log, c);
    more := log + [c];
  }

  /** The evictions of `log` from `start` up to `end`, and nothing else, make `z'` of `z`. */
  ghost predicate Leads(z: Sizes, log: seq<Choice>, start: nat, end: nat, z': Sizes)
    requires start <= end <= |log|
    decreases end
  {
    if start == end then z == z'
    else z' == Drop(log[end - 1].sizes, log[end - 1].key) && Leads(z, log, start, end - 1, log[end - 1].sizes)
  }

  ghost predicate Grown(was: seq<Choice>, log: seq<Choice>)
  {
    |was| <= |log| && log[..|was|] == was
  }

  lemma GrownTrans(a: seq<Choice>, b: seq<Choice>, c: seq<Choice>)
    requires Grown(a, b) && Grown(b, c)
    ensures Grown(a, c)
  {
    assert c[..|a|] == c[..|b|][..|a|];
  }

  lemma {:induction false} LeadsKept(z: Sizes, log: seq<Choice>, more: seq<Choice>, start: nat, end: nat, z': Sizes)
    requires Grown(log, more) && start <= end <= |log| && Leads(z, log, start, end, z')
    ensures Leads(z, more, start, end, z')
    decreases end
  {
    if start != end {
      assert more[..|log|][end - 1] == more[end - 1];
      LeadsKept(z, log, more, start, end - 1, log[end - 1].sizes);
    }
  }

  /** One more eviction of what was left. */
  lemma LeadsOn(z: Sizes, was: seq<Choice>, log: seq<Choice>, more: seq<Choice>, e: Hooks, had: Sizes, v: Key)
    requires Grown(was, log) && Leads(z, log, |was|, |log|, had) && LoggedOne(log, more, e, had, v)
    ensures Grown(was, more) && Leads(z, more, |was|, |more|, Drop(had, v))
  {
    assert Grown(log, more);
    GrownTrans(was, log, more);
    LeadsKept(z, log, more, |was|, |log|, had);
  }

  // ---- The operations ----------------------------------------------------

  datatype Op =
    | Access(key: Key, size: nat)
    | Insert(key: Key, size: nat, cost: real)
    | Remove(key: Key)
    | ClearAll
    | Hint(keys: seq<Key>)

  /** What an operation counts as used, from what is stored before it. */
  function Counted(op: Op, z: Sizes, c: Clocks): Clocks
  {
    match op
    case Access(key, _) => if key in z.at then Hit(c, key) else c
    case Insert(key, _, _) => if key in z.at then c else Stored(c, key)
    case _ => c
  }

  /** An entry that is too big (but for `CashRAM`) or stored already is not inserted. */
  predicate Refused(cap: nat, e: Hooks, z: Sizes, key: Key, size: nat)
  {
    (size > cap && !e.Ram?) || key in z.at
  }

  class Policy {
    const cap: nat
    var used: int
    var sizes: Sizes
    var now: nat
    var evictions: nat
    var bytesWritten: nat
    var hooks: Hooks
    /** The bytes of everything evicted or removed. */
    ghost var bytesGone: nat
    ghost var clocks: Clocks
    /** Every eviction so far. */
    ghost var log: seq<Choice>

    /** The totals, the hook state and the counters agree; nothing is said about the cap. */
    ghost predicate Consistent()
      reads this
    {
      && SizesOk(sizes)
      && used == Sum(sizes.at, sizes.keys)
      && Agrees(hooks, cap, sizes, None)
      && bytesWritten == used + bytesGone
      && InOrder(hooks, clocks)
      && evictions == |log| && Victims(cap, log)
    }

    /** What holds between operations. */
    ghost predicate Valid()
      reads this
    {
      Consistent() && used <= cap
    }

    constructor (kind: Kind, cap: nat)
      requires Sensible(kind)
      ensures Valid() && this.cap == cap && sizes == EMPTY && used == 0 && now == 0 && evictions == 0
      ensures hooks == Start(kind, cap) && clocks == NEVER && log == []
    {
      this.cap := cap;
      used, sizes, now, evictions, bytesWritten, bytesGone := 0, EMPTY, 0, 0, 0, 0;
      hooks := Start(kind, cap);
      clocks, log := NEVER, [];
      StartAgrees(kind, cap);
    }

    method Access(key: Key, size: nat) returns (hit: bool)
      requires Valid()
      modifies this`now, this`hooks, this`clocks
      ensures Valid() && now == old(now) + 1 && SamePolicy(old(hooks), hooks)
      ensures hit <==> key in sizes.at
      ensures clocks == if hit then Hit(old(clocks), key) else old(clocks)
      ensures Agrees(old(hooks), cap, sizes, None) &&
              hooks == if hit then HitHooks(old(hooks), cap, sizes, key, now) else MissHooks(old(hooks), cap, key, size)
    {
      now := now + 1;
      hit := key in sizes.at;
      if hit {
        HitInOrder(hooks, cap, sizes, clocks, key, now);
        hooks := OnHit(hooks, cap, sizes, key, now);
        clocks := Hit(clocks, key);
      } else {
        hooks := OnMiss(hooks, cap, sizes, key, size);
      }
    }

    /** `_drop`: one eviction. */
    method DropKey(key: Key, chosen: Hooks, ghost more: seq<Choice>)
      requires SizesOk(sizes) && used == Sum(sizes.at, sizes.keys) && bytesWritten == used + bytesGone
      requires evictions == |log| && |more| == |log| + 1 && Victims(cap, more)
      requires key in sizes.at && Agrees(chosen, cap, sizes, Some(key)) && InOrder(chosen, clocks)
      modifies this`used, this`sizes, this`evictions, this`log, this`hooks, this`bytesGone
      ensures Consistent() && SamePolicy(chosen, hooks)
      ensures sizes == Drop(old(sizes), key) && used == old(used) - old(sizes).at[key]
      ensures log == more && |sizes.keys| == |old(sizes).keys| - 1
      ensures if chosen.Adaptive? then hooks.Adaptive? && DropsArc(chosen.arc, cap, old(sizes), key, hooks.arc)
              else hooks == RemoveHooks(chosen, old(sizes), key)
    {
      SumDrop(sizes, key);
      DropOk(sizes, key);
      WithoutDistinct(sizes.keys, key);
      hooks := OnDrop(chosen, cap, sizes, key);
      DropInOrder(chosen, cap, sizes, clocks, key, hooks);
      used := used - sizes.at[key];
      bytesGone := bytesGone + sizes.at[key];
      sizes := Drop(sizes, key);
      evictions := evictions + 1;
      log := more;
    }

    /** One turn of `_evict_to_fit`. */
    method EvictOne(protect: Key) returns (v: Option<Key>)
      requires Consistent() && !hooks.Crumbs?
      requires EndsIn(hooks, protect)
      modifies this`used, this`sizes, this`evictions, this`log, this`hooks, this`bytesGone
      ensures Consistent() && SamePolicy(old(hooks), hooks)
      ensures v.None? ==> sizes == old(sizes) && used == old(used) && forall k <- sizes.at :: k == protect
      ensures v.Some? ==> v.value in old(sizes).at && v.value != protect && sizes == Drop(old(sizes), v.value)
      ensures v.Some? ==> used == old(used) - old(sizes).at[v.value] && |sizes.keys| == |old(sizes).keys| - 1
      ensures v.None? ==> log == old(log)
      ensures v.Some? ==> LoggedOne(old(log), log, old(hooks), old(sizes), v.value)
      ensures v.Some? ==> EndsIn(hooks, protect) && OldestWent(old(hooks), hooks)
    {
      var chosen;
      ghost var more;
      v, chosen, more := Choose(hooks, cap, sizes, used, protect, log);
      if v.None? {
        hooks := chosen;
        return;
      }
      if ByRecency(hooks) {
        OldestIs(hooks, cap, sizes, protect, v.value);
      }
      DropKey(v.value, chosen, more);
      SamePolicyTrans(old(hooks), chosen, hooks);
    }

    /** What an eviction loop keeps of the state it started from. */
    ghost predicate Evicting(was: Sizes, logged: seq<Choice>, policy: Hooks)
      reads this
    {
      && Consistent() && SamePolicy(policy, hooks)
      && Part(was, sizes)
      && |log| + |sizes.keys| == |logged| + |was.keys|
      && Grown(logged, log) && Leads(was, log, |logged|, |log|, sizes)
      && OldestWent(policy, hooks)
    }

    /**
     * `_evict_to_fit`: victims go until the bytes fit; the protected key stays, and no victim goes
     * that need not.
     */
    method EvictToFit(protect: Key) returns (ghost last: nat)
      requires Consistent() && protect in sizes.at && sizes.at[protect] <= cap && !hooks.Crumbs?
      requires EndsIn(hooks, protect)
      modifies this`used, this`sizes, this`evictions, this`log, this`hooks, this`bytesGone
      ensures Valid() && Evicting(old(sizes), old(log), old(hooks)) && protect in sizes.at
      ensures if old(used) <= cap then sizes == old(sizes) && used == old(used) else used + last > cap
    {
      last := 0;
      SamePolicyAs(hooks);
      while used > cap
        invariant Evicting(old(sizes), old(log), old(hooks)) && protect in sizes.at && !hooks.Crumbs?
        invariant old(used) <= cap ==> sizes == old(sizes) && used == old(used)
        invariant used > cap || used + last > cap || old(used) <= cap
        invariant EndsIn(hooks, protect)
        decreases |sizes.keys|
      {
        ghost var was, had, logged := hooks, sizes, log;
        var v := EvictOne(protect);
        if v.None? {
          OnlyOne(sizes, protect);
          assert false;
        }
        LeadsOn(old(sizes), old(log), logged, log, was, had, v.value);
        last := had.at[v.value];
        SamePolicyTrans(old(hooks), was, hooks);
        PartDrop(old(sizes), had, v.value);
        OldestWentTrans(old(hooks), was, hooks);
      }
    }

    /** One turn of the loop of `CashCurrent`. */
    method EvictCrumb(protect: Key, target: real, ghost part: real) returns (v: Option<Key>)
      requires Consistent() && hooks.Crumbs? && hooks.target == part && target == cap as real * part
      modifies this`used, this`sizes, this`evictions, this`log, this`hooks, this`bytesGone
      ensures Consistent() && SamePolicy(old(hooks), hooks)
      ensures v == C.Victim(old(hooks).crumbs, old(sizes), old(used), target, Some(protect))
      ensures v.None? ==> sizes == old(sizes) && used == old(used) && forall k <- sizes.at :: k == protect
      ensures v.Some? ==> v.value in old(sizes).at && v.value != protect && sizes == Drop(old(sizes), v.value)
      ensures v.Some? ==> used == old(used) - old(sizes).at[v.value] && |sizes.keys| == |old(sizes).keys| - 1
      ensures v.None? ==> log == old(log)
      ensures v.Some? ==> LoggedOne(old(log), log, old(hooks), old(sizes), v.value)
    {
      SamePolicyAs(hooks);
      v := C.Victim(hooks.crumbs, sizes, used, target, Some(protect));
      if v.Some? {
        AgreesBut(hooks, cap, sizes, v.value);
        ghost var more := LogCrumb(hooks, cap, sizes, used, target, protect, v.value, log);
        DropKey(v.value, hooks, more);
      }
    }

    /** The loop of `CashCurrent`, down to a number of bytes. */
    method EvictDownTo(protect: Key, target: real, ghost part: real) returns (ghost last: nat)
      requires Consistent() && protect in sizes.at && sizes.at[protect] <= cap && hooks.Crumbs?
      requires hooks.target == part && target == cap as real * part && target <= cap as real < used as real
      modifies this`used, this`sizes, this`evictions, this`log, this`hooks, this`bytesGone
      ensures Valid() && Evicting(old(sizes), old(log), old(hooks)) && protect in sizes.at
      ensures (used + last) as real > target
      ensures used as real <= target || forall k <- sizes.at :: k == protect
    {
      last := 0;
      SamePolicyAs(hooks);
      while used as real > target
        invariant Evicting(old(sizes), old(log), old(hooks)) && protect in sizes.at
        invariant (used + last) as real > target
        decreases |sizes.keys|
      {
        ghost var was, had, logged := hooks, sizes, log;
        var v := EvictCrumb(protect, target, part);
        SamePolicyTrans(old(hooks), was, hooks);
        if v.None? {
          OnlyOne(sizes, protect);
          return;
        }
        LeadsOn(old(sizes), old(log), logged, log, was, had, v.value);
        last := had.at[v.value];
        PartDrop(old(sizes), had, v.value);
      }
    }

    /** `CashCurrent` goes on to its low watermark once over the cap, choosing crumbs or the rest anew each time. */
    method EvictToTarget(protect: Key) returns (ghost last: nat)
      requires Consistent() && protect in sizes.at && sizes.at[protect] <= cap && hooks.Crumbs?
      modifies this`used, this`sizes, this`evictions, this`log, this`hooks, this`bytesGone
      ensures Valid() && Evicting(old(sizes), old(log), old(hooks)) && protect in sizes.at
      ensures if old(used) <= cap then sizes == old(sizes) && used == old(used)
              else (used + last) as real > Low(old(hooks))
      ensures old(used) > cap ==> used as real <= Low(old(hooks)) || forall k <- sizes.at :: k == protect
    {
      last := 0;
      if used <= cap {
        SamePolicyAs(hooks);
        return;
      }
      last := EvictDownTo(protect, Low(hooks), hooks.target);
    }

    /** The low watermark. */
    function Low(e: Hooks): (low: real)
      requires e.Crumbs?
      ensures e.target <= 1.0 ==> low <= cap as real
    {
      LowAtMost(cap as real, e.target);
      cap as real * e.target
    }

    /** `CashRAM` goes down to 90% of the cap, oldest first, the new entry last of all. */
    method EvictOldest() returns (ghost last: nat)
      requires Consistent() && hooks.Ram? && used > cap
      modifies this`used, this`sizes, this`evictions, this`log, this`hooks, this`bytesGone
      ensures Valid() && Evicting(old(sizes), old(log), old(hooks))
      ensures used as real <= cap as real * 0.9 && (used + last) as real > cap as real * 0.9
    {
      last := 0;
      SamePolicyAs(hooks);
      var target := cap as real * 0.9;
      var od := Order(hooks);
      for i := 0 to |od|
        invariant Evicting(old(sizes), old(log), old(hooks)) && hooks.Ram? && Order(hooks) == od[i..]
        invariant (used + last) as real > target
      {
        if used as real <= target {
          break;
        }
        ghost var was, had, logged := hooks, sizes, log;
        DropOldest(od[i]);
        last := had.at[od[i]];
        assert od[i..][1..] == od[i + 1..];
        SamePolicyTrans(old(hooks), was, hooks);
        PartDrop(old(sizes), had, od[i]);
        LeadsOn(old(sizes), old(log), logged, log, was, had, od[i]);
      }
      if Order(hooks) == [] {
        NothingStored(sizes);
      }
    }

    /** The oldest entry of `CashRAM` goes. */
    method DropOldest(key: Key)
      requires Consistent() && hooks.Ram? && Order(hooks) != [] && key == Order(hooks)[0]
      modifies this`used, this`sizes, this`evictions, this`log, this`hooks, this`bytesGone
      ensures Consistent() && SamePolicy(old(hooks), hooks) && hooks.Ram? && Order(hooks) == Order(old(hooks))[1..]
      ensures key in old(sizes).at && sizes == Drop(old(sizes), key) && used == old(used) - old(sizes).at[key]
      ensures |sizes.keys| == |old(sizes).keys| - 1 && LoggedOne(old(log), log, old(hooks), old(sizes), key)
    {
      assert key in Order(hooks);
      TailDistinct(Order(hooks));
      ghost var more := LogOldest(hooks, cap, sizes, used, log);
      DropKey(key, hooks, more);
    }

    /**
     * A refused entry changes nothing. Otherwise it is written, and then evictions make room: what
     * fits evicts nothing, no other size changes, and the new entry stays (except in `CashRAM`).
     * By recency, what goes was used before all that stays.
     */
    method Insert(key: Key, size: nat, cost: real)
      requires Valid()
      modifies this`used, this`sizes, this`evictions, this`log, this`hooks, this`bytesWritten, this`bytesGone, this`clocks
      ensures Valid() && SamePolicy(old(hooks), hooks)
      ensures if Refused(cap, old(hooks), old(sizes), key, size) then
                sizes == old(sizes) && bytesWritten == old(bytesWritten) && log == old(log) && hooks == old(hooks)
              else
                && bytesWritten == old(bytesWritten) + size
                && Part(Add(old(sizes), key, size), sizes)
                && evictions + |sizes.keys| == old(evictions) + |old(sizes).keys| + 1
                && Grown(old(log), log) && Leads(Add(old(sizes), key, size), log, |old(log)|, |log|, sizes)
                && (old(used) + size <= cap ==> sizes == Add(old(sizes), key, size))
                && (key in sizes.at || hooks.Ram?)
      ensures !Refused(cap, old(hooks), old(sizes), key, size) && ByRecency(hooks) ==>
                && IsSuffix(Order(old(hooks)) + [key], Order(hooks))
                && LeastRecentWent(Add(old(sizes), key, size), sizes, Clock(clocks, Fifo(hooks)))
      ensures clocks == if key in old(sizes).at then old(clocks) else Stored(old(clocks), key)
    {
      if Refused(cap, hooks, sizes, key, size) {
        SamePolicyAs(hooks);
        if key !in sizes.at {
          StoreInOrder(hooks, cap, sizes, clocks, key);
          clocks := Stored(clocks, key);
        }
        return;
      }
      Store(key, size, cost);
    }

    /** The entry is written, and room made for it. */
    method Store(key: Key, size: nat, cost: real)
      requires Valid() && !Refused(cap, hooks, sizes, key, size)
      modifies this`used, this`sizes, this`evictions, this`log, this`hooks, this`bytesWritten, this`bytesGone, this`clocks
      ensures Valid() && SamePolicy(old(hooks), hooks) && bytesWritten == old(bytesWritten) + size
      ensures Part(Add(old(sizes), key, size), sizes)
      ensures evictions + |sizes.keys| == old(evictions) + |old(sizes).keys| + 1
      ensures Grown(old(log), log) && Leads(Add(old(sizes), key, size), log, |old(log)|, |log|, sizes)
      ensures old(used) + size <= cap ==> sizes == Add(old(sizes), key, size)
      ensures key in sizes.at || hooks.Ram?
      ensures ByRecency(hooks) ==> IsSuffix(Order(old(hooks)) + [key], Order(hooks))
      ensures ByRecency(hooks) ==> LeastRecentWent(Add(old(sizes), key, size), sizes, Clock(clocks, Fifo(hooks)))
      ensures clocks == Stored(old(clocks), key)
    {
      Write(key, size, cost);
      ghost var inserted, written := hooks, sizes;
      MakeRoom(key);
      SamePolicyTrans(old(hooks), inserted, hooks);
      if ByRecency(hooks) {
        SuffixIsRecent(inserted.recency, written, hooks.recency, sizes, Clock(clocks, Fifo(hooks)));
      }
    }

    /** The entry is stored and counted, whatever room there is. */
    method Write(key: Key, size: nat, cost: real)
      requires Consistent() && key !in sizes.at
      modifies this`used, this`sizes, this`hooks, this`bytesWritten, this`clocks
      ensures Consistent() && SamePolicy(old(hooks), hooks)
      ensures sizes == Add(old(sizes), key, size) && used == old(used) + size && bytesWritten == old(bytesWritten) + size
      ensures Inserts(old(hooks), sizes, key, size, cost, now, hooks)
      ensures ByRecency(hooks) ==> Order(hooks) == Order(old(hooks)) + [key]
      ensures clocks == Stored(old(clocks), key)
    {
      SumAdd(sizes, key, size);
      AddOk(sizes, key, size);
      StoreInOrder(hooks, cap, sizes, clocks, key);
      clocks := Stored(clocks, key);
      hooks := OnInsert(hooks, cap, sizes, key, size, cost, now);
      sizes := Add(sizes, key, size);
      used := used + size;
      bytesWritten := bytesWritten + size;
    }

    /** The evictions an insert makes, by the policy's own rule. */
    method MakeRoom(key: Key)
      requires Consistent() && key in sizes.at && (!hooks.Ram? ==> sizes.at[key] <= cap)
      requires EndsIn(hooks, key)
      modifies this`used, this`sizes, this`evictions, this`log, this`hooks, this`bytesGone
      ensures Valid() && Evicting(old(sizes), old(log), old(hooks))
      ensures old(used) <= cap ==> sizes == old(sizes)
      ensures key in sizes.at || hooks.Ram?
    {
      ghost var last;
      if hooks.Crumbs? {
        last := EvictToTarget(key);
      } else if !hooks.Ram? {
        last := EvictToFit(key);
      } else if used > cap {
        last := EvictOldest();
      } else {
        SamePolicyAs(hooks);
      }
    }

    /** An external removal is not an eviction. */
    method Remove(key: Key)
      requires Valid()
      modifies this`used, this`sizes, this`hooks, this`bytesGone
      ensures Valid() && SamePolicy(old(hooks), hooks)
      ensures if key in old(sizes).at then sizes == Drop(old(sizes), key) && hooks == RemoveHooks(old(hooks), old(sizes), key)
              else sizes == old(sizes) && hooks == old(hooks)
    {
      SamePolicyAs(hooks);
      if key in sizes.at {
        SumDrop(sizes, key);
        DropOk(sizes, key);
        AgreesBut(hooks, cap, sizes, key);
        RemoveInOrder(hooks, cap, sizes, clocks, key);
        hooks := OnRemove(hooks, cap, sizes, key);
        used := used - sizes.at[key];
        bytesGone := bytesGone + sizes.at[key];
        sizes := Drop(sizes, key);
      }
    }

    method ClearAll()
      requires Valid()
      modifies this`used, this`sizes, this`hooks, this`bytesGone
      ensures Valid() && SamePolicy(old(hooks), hooks) && used == 0 && forall k: Key :: k !in sizes.at
    {
      var keys := sizes.keys;
      SamePolicyAs(hooks);
      for i := 0 to |keys|
        invariant Valid() && SamePolicy(old(hooks), hooks) && sizes.keys == keys[i..]
      {
        ghost var was := hooks;
        assert keys[i] in keys[i..] && keys[i..][1..] == keys[i + 1..];
        TailDistinct(keys[i..]);
        Remove(keys[i]);
        SamePolicyTrans(old(hooks), was, hooks);
      }
      NothingStored(sizes);
    }

    method Hint(keys: seq<Key>)
      requires Valid()
      modifies this`hooks
      ensures Valid() && SamePolicy(old(hooks), hooks) && Touches(old(hooks), hooks, sizes, keys)
    {
      hooks := Touch(hooks, cap, sizes, keys, now);
    }

    method Do(op: Op)
      requires Valid()
      modifies this
      ensures Valid() && SamePolicy(old(hooks), hooks)
      ensures Grown(old(log), log)
      ensures op.Insert? && !Refused(cap, old(hooks), old(sizes), op.key, op.size) ==>
                Leads(Add(old(sizes), op.key, op.size), log, |old(log)|, |log|, sizes)
      ensures bytesWritten >= old(bytesWritten) && clocks == Counted(op, old(sizes), old(clocks))
      ensures op.Insert? && ByRecency(hooks) ==> LeastRecentWent(old(sizes), sizes, Clock(clocks, Fifo(hooks)))
    {
      match op
      case Access(key, size) => var hit := Access(key, size);
      case Insert(key, size, cost) => Insert(key, size, cost);
      case Remove(key) => Remove(key);
      case ClearAll => ClearAll();
      case Hint(keys) => Hint(keys);
    }
  }

  lemma LowAtMost(cap: real, target: real)
    requires cap >= 0.0
    ensures target <= 1.0 ==> cap * target <= cap
  {
    if target <= 1.0 {
      assert cap * (1.0 - target) >= 0.0;
    }
  }

  lemma SomeKey(s: seq<Key>)
    ensures s == [] || exists k: Key :: k in s
  {
    if s != [] {
      var k := s[0];
      assert k in s;
    }
  }

  lemma NothingStored(z: Sizes)
    requires SizesOk(z) && forall k: Key :: k !in z.at
    ensures z.keys == [] && Sum(z.at, z.keys) == 0
  {
    SomeKey(z.keys);
  }

  /** What the policy shows after an operation. */
  datatype Shown = Shown(used: int, sizes: Sizes, written: nat, evictions: nat)

  /** What is stored before an operation of a run. */
  function StoredBefore(shown: seq<Shown>, i: nat): Sizes
    requires i <= |shown|
  {
    if i == 0 then EMPTY else shown[i - 1].sizes
  }

  /** When each key was last used, as the first `n` operations of a run tell. */
  function ClocksAfter(ops: seq<Op>, shown: seq<Shown>, n: nat): Clocks
    requires n <= |ops| && n <= |shown| + 1
  {
    if n == 0 then NEVER else Counted(ops[n - 1], StoredBefore(shown, n - 1), ClocksAfter(ops, shown, n - 1))
  }

  lemma {:induction false} ClocksMore(ops: seq<Op>, shown: seq<Shown>, more: Shown, n: nat)
    requires n <= |ops| && n <= |shown| + 1
    ensures ClocksAfter(ops, shown + [more], n) == ClocksAfter(ops, shown, n)
  {
    if n > 0 {
      ClocksMore(ops, shown, more, n - 1);
    }
  }

  ghost predicate InBounds(s: Shown, cap: nat)
  {
    0 <= s.used <= cap && s.used == Sum(s.sizes.at, s.sizes.keys) && s.used <= s.written
  }

  /** An insert of a run evicts the keys used longest ago. */
  ghost predicate EvictsByUse(ops: seq<Op>, shown: seq<Shown>, fifo: bool, i: nat)
    requires i < |shown| <= |ops|
  {
    ops[i].Insert? ==>
      LeastRecentWent(StoredBefore(shown, i), shown[i].sizes, Clock(ClocksAfter(ops, shown, i + 1), fifo))
  }

  lemma EvictsMore(ops: seq<Op>, shown: seq<Shown>, more: Shown, fifo: bool, i: nat)
    requires i < |shown| < |ops| && EvictsByUse(ops, shown, fifo, i)
    ensures EvictsByUse(ops, shown + [more], fifo, i)
  {
    ClocksMore(ops, shown, more, i + 1);
    assert StoredBefore(shown + [more], i) == StoredBefore(shown, i);
  }

  /** How many evictions there were before an operation of a run. */
  function EvictedBefore(shown: seq<Shown>, i: nat): nat
    requires i <= |shown|
  {
    if i == 0 then 0 else shown[i - 1].evictions
  }

  predicate Taken(e: Hooks, cap: nat, z: Sizes, op: Op)
  {
    op.Insert? && !Refused(cap, e, z, op.key, op.size)
  }

  /** What an insert of a run leaves is what was stored and the new entry, but for its evictions, all in the log. */
  ghost predicate EvictsAsLogged(ops: seq<Op>, shown: seq<Shown>, e: Hooks, cap: nat, log: seq<Choice>, i: nat)
    requires i < |shown| <= |ops|
  {
    && EvictedBefore(shown, i) <= shown[i].evictions <= |log|
    && (Taken(e, cap, StoredBefore(shown, i), ops[i]) ==>
          Leads(Add(StoredBefore(shown, i), ops[i].key, ops[i].size), log, EvictedBefore(shown, i), shown[i].evictions, shown[i].sizes))
  }

  lemma LoggedMore(
    ops: seq<Op>, shown: seq<Shown>, more: Shown, e: Hooks, cap: nat, log: seq<Choice>, log': seq<Choice>, i: nat)
    requires i < |shown| < |ops| && EvictsAsLogged(ops, shown, e, cap, log, i) && Grown(log, log')
    ensures EvictsAsLogged(ops, shown + [more], e, cap, log', i)
  {
    var before := StoredBefore(shown, i);
    assert StoredBefore(shown + [more], i) == before && EvictedBefore(shown + [more], i) == EvictedBefore(shown, i);
    if Taken(e, cap, before, ops[i]) {
      LeadsKept(Add(before, ops[i].key, ops[i].size), log, log', EvictedBefore(shown, i), shown[i].evictions, shown[i].sizes);
    }
  }

  /**
   * Every run of any policy: the bytes in use are the sum of the stored sizes and within the cap after
   * each operation; an insert leaves all that was stored but what the log says it evicted, and every
   * key evicted is the one the policy's rule names in the state it was evicted from; and under `LRU`,
   * `CashRAM` and `FIFO` every insert evicts the keys used (in a `FIFO`: stored) longest ago.
   */
  method Run(kind: Kind, cap: nat, ops: seq<Op>) returns (p: Policy, shown: seq<Shown>)
    requires Sensible(kind)
    ensures fresh(p) && p.Valid() && p.cap == cap && SamePolicy(Start(kind, cap), p.hooks)
    ensures |shown| == |ops|
    ensures forall i | 0 <= i < |ops| :: InBounds(shown[i], cap)
    ensures Victims(cap, p.log)
    ensures forall i | 0 <= i < |ops| :: EvictsAsLogged(ops, shown, p.hooks, cap, p.log, i)
    ensures kind.LRU? || kind.CashRAM? || kind.FIFO? ==> forall i | 0 <= i < |ops| :: EvictsByUse(ops, shown, kind.FIFO?, i)
  {
    p := new Policy(kind, cap);
    shown := [];
    SamePolicyAs(p.hooks);
    for i := 0 to |ops|
      invariant fresh(p) && p.Valid() && p.cap == cap && SamePolicy(Start(kind, cap), p.hooks)
      invariant Showing(kind, cap, ops, shown, p.hooks, p.log, p.sizes, p.clocks, p.evictions, i)
    {
      ghost var was, logged := p.hooks, p.log;
      p.Do(ops[i]);
      SamePolicyTrans(Start(kind, cap), was, p.hooks);
      var now := Shown(p.used, p.sizes, p.bytesWritten, p.evictions);
      ShowingNext(kind, cap, ops, shown, was, logged, p.hooks, p.log, p.clocks, now, i);
      shown := shown + [now];
    }
  }

  /** What the first `n` operations have shown. */
  ghost predicate Showing(
    kind: Kind, cap: nat, ops: seq<Op>, shown: seq<Shown>, e: Hooks, log: seq<Choice>, z: Sizes, c: Clocks, evictions: nat, n: nat)
  {
    && n == |shown| <= |ops|
    && z == StoredBefore(shown, n) && evictions == EvictedBefore(shown, n) == |log| && c == ClocksAfter(ops, shown, n)
    && (forall j | 0 <= j < n :: InBounds(shown[j], cap))
    && (forall j | 0 <= j < n :: EvictsAsLogged(ops, shown, e, cap, log, j))
    && (kind.LRU? || kind.CashRAM? || kind.FIFO? ==> forall j | 0 <= j < n :: EvictsByUse(ops, shown, kind.FIFO?, j))
  }

  lemma LoggedNext(
    ops: seq<Op>, shown: seq<Shown>, e: Hooks, e': Hooks, cap: nat, log: seq<Choice>, log': seq<Choice>, now: Shown, n: nat, j: nat)
    requires j <= n == |shown| < |ops| && now.evictions == |log'| && Grown(log, log') && (e.Ram? <==> e'.Ram?)
    requires EvictedBefore(shown, n) == |log| && forall i | 0 <= i < n :: EvictsAsLogged(ops, shown, e, cap, log, i)
    requires Taken(e, cap, StoredBefore(shown, n), ops[n]) ==>
               Leads(Add(StoredBefore(shown, n), ops[n].key, ops[n].size), log', |log|, |log'|, now.sizes)
    ensures EvictsAsLogged(ops, shown + [now], e', cap, log', j)
  {
    if j < n {
      LoggedMore(ops, shown, now, e, cap, log, log', j);
    } else {
      assert StoredBefore(shown + [now], n) == StoredBefore(shown, n) && EvictedBefore(shown + [now], n) == |log|;
    }
  }

  lemma ByUseNext(ops: seq<Op>, shown: seq<Shown>, fifo: bool, c: Clocks, now: Shown, n: nat, j: nat)
    requires j <= n == |shown| < |ops| && c == ClocksAfter(ops, shown, n + 1)
    requires forall i | 0 <= i < n :: EvictsByUse(ops, shown, fifo, i)
    requires ops[n].Insert? ==> LeastRecentWent(StoredBefore(shown, n), now.sizes, Clock(c, fifo))
    ensures EvictsByUse(ops, shown + [now], fifo, j)
  {
    if j < n {
      EvictsMore(ops, shown, now, fifo, j);
    } else {
      ClocksMore(ops, shown, now, n + 1);
      assert StoredBefore(shown + [now], n) == StoredBefore(shown, n);
    }
  }

  /** One operation more. */
  lemma ShowingNext(
    kind: Kind, cap: nat, ops: seq<Op>, shown: seq<Shown>, e: Hooks, log: seq<Choice>, e': Hooks, log': seq<Choice>, c: Clocks,
    now: Shown, n: nat)
    requires n == |shown| < |ops| && c == ClocksAfter(ops, shown, n + 1)
    requires Showing(kind, cap, ops, shown, e, log, StoredBefore(shown, n), ClocksAfter(ops, shown, n), |log|, n)
    requires InBounds(now, cap) && now.evictions == |log'| && Grown(log, log') && (e.Ram? <==> e'.Ram?)
    requires Taken(e, cap, StoredBefore(shown, n), ops[n]) ==>
               Leads(Add(StoredBefore(shown, n), ops[n].key, ops[n].size), log', |log|, |log'|, now.sizes)
    requires (kind.LRU? || kind.CashRAM? || kind.FIFO?) && ops[n].Insert? ==>
               LeastRecentWent(StoredBefore(shown, n), now.sizes, Clock(c, kind.FIFO?))
    ensures Showing(kind, cap, ops, shown + [now], e', log', now.sizes, c, now.evictions, n + 1)
  {
    var more := shown + [now];
    ClocksMore(ops, shown, now, n + 1);
    forall j | 0 <= j <= n ensures EvictsAsLogged(ops, more, e', cap, log', j) {
      LoggedNext(ops, shown, e, e', cap, log, log', now, n, j);
    }
    if kind.LRU? || kind.CashRAM? || kind.FIFO? {
      forall j | 0 <= j <= n ensures EvictsByUse(ops, more, kind.FIFO?, j) {
        ByUseNext(ops, shown, kind.FIFO?, c, now, n, j);
      }
    }
  }
}
