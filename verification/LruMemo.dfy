/**
 * `LruMemo` of `src/cash/_memo.py` (lines 51-109): an ordered dict shared between threads without a
 * lock. Each dict operation is one atomic step; between two steps of a call any other thread may
 * run.
 */
module LruMemos {
  import opened Options

  type Key = int
  type Value = int

  datatype Entry = Entry(key: Key, value: Value)

  // ---- The ordered dict --------------------------------------------------

  /** An `OrderedDict`, oldest entry first. */
  type Data = seq<Entry>

  /** Where a key is, from position `i` on. */
  function Find(d: Data, key: Key, i: nat): (r: Option<nat>)
    requires i <= |d|
    ensures r.Some? ==> i <= r.value < |d| && d[r.value].key == key
    decreases |d| - i
  {
    if i == |d| then None else if d[i].key == key then Some(i) else Find(d, key, i + 1)
  }

  /** Nothing before the place found has the key. */
  lemma {:induction false} FoundFirst(d: Data, key: Key, i: nat)
    requires i <= |d|
    ensures var r := Find(d, key, i); forall j | i <= j < (if r.Some? then r.value else |d|) :: d[j].key != key
    decreases |d| - i
  {
    if i < |d| && d[i].key != key {
      FoundFirst(d, key, i + 1);
    }
  }

  function Delete(d: Data, i: nat): Data
    requires i < |d|
  {
    d[..i] + d[i + 1..]
  }

  /** `data[key] = value`: a key already there keeps its place. */
  function Put(d: Data, key: Key, value: Value): Data
  {
    var at := Find(d, key, 0);
    if at.Some? then d[at.value := Entry(key, value)] else d + [Entry(key, value)]
  }

  lemma PutAdds(d: Data, key: Key, value: Value)
    ensures |Put(d, key, value)| <= |d| + 1
    ensures forall e <- Put(d, key, value) :: e in d || e == Entry(key, value)
  {
  }

  /** `move_to_end(key)`, None for a KeyError. */
  function MoveToEnd(d: Data, key: Key): Option<Data>
  {
    var at := Find(d, key, 0);
    if at.None? then None else Some(Delete(d, at.value) + [d[at.value]])
  }

  lemma MoveKeeps(d: Data, key: Key)
    ensures MoveToEnd(d, key).Some? ==>
              |MoveToEnd(d, key).value| == |d| && forall e <- MoveToEnd(d, key).value :: e in d
  {
  }

  // ---- The dict's operations, each one step ------------------------------

  datatype Op =
    | Lookup(key: Key)
    | Store(key: Key, value: Value)
    | MoveEnd(key: Key)
    | Len
    | PopFirst
    | PopOr(key: Key)
    | GetOr(key: Key)
    | Empty

  /** What a dict operation does: the dict it leaves and the value it finds, or a KeyError that leaves it as it was. */
  datatype Outcome = Ok(data: Data, found: Option<Value>) | KeyError

  /** What the memo holds for a key. */
  function ValueOf(d: Data, key: Key): Option<Value>
  {
    var at := Find(d, key, 0);
    if at.None? then None else Some(d[at.value].value)
  }

  function Do(d: Data, op: Op): Outcome
  {
    match op
    case Lookup(key) => if ValueOf(d, key).None? then KeyError else Ok(d, ValueOf(d, key))
    case Store(key, value) => Ok(Put(d, key, value), None)
    case MoveEnd(key) =>
      var moved := MoveToEnd(d, key);
      if moved.None? then KeyError else Ok(moved.value, None)
    case Len => Ok(d, None)
    case PopFirst => if d == [] then KeyError else Ok(d[1..], None)
    case PopOr(key) =>
      var at := Find(d, key, 0);
      if at.None? then Ok(d, None) else Ok(Delete(d, at.value), Some(d[at.value].value))
    case GetOr(key) => Ok(d, ValueOf(d, key))
    case Empty => Ok([], None)
  }

  // ---- The calls as programs over them -----------------------------------

  /** Where a thread is in a call: the operation it does next, and what it has in hand. */
  datatype Point =
    | GetLookup(key: Key)
    | GetMove(key: Key, value: Value)
    | SetStore(key: Key, value: Value)
    | SetMove(key: Key)
    | TrimTest
    | TrimPop
    | PopCall(key: Key)
    | PeekCall(key: Key)
    | ClearCall

  /** `Raised`: a KeyError left the call. */
  datatype Thread = Idle | At(point: Point) | Returned(key: Key, result: Option<Value>) | Raised

  datatype Call = Get(key: Key) | Set(key: Key, value: Value) | Pop(key: Key) | Peek(key: Key) | Clear

  function FirstPoint(call: Call): Point
  {
    match call
    case Get(key) => GetLookup(key)
    case Set(key, value) => SetStore(key, value)
    case Pop(key) => PopCall(key)
    case Peek(key) => PeekCall(key)
    case Clear => ClearCall
  }

  function OpOf(p: Point): Op
  {
    match p
    case GetLookup(key) => Lookup(key)
    case GetMove(key, _) => MoveEnd(key)
    case SetStore(key, value) => Store(key, value)
    case SetMove(key) => MoveEnd(key)
    case TrimTest => Len
    case TrimPop => PopFirst
    case PopCall(key) => PopOr(key)
    case PeekCall(key) => GetOr(key)
    case ClearCall => Empty
  }

  /** Where a call goes on after its operation. */
  function Next(p: Point, data: Data, found: Option<Value>, maxsize: nat): Thread
  {
    match p
    case GetLookup(key) => if found.Some? then At(GetMove(key, found.value)) else Returned(key, None)
    case GetMove(key, value) => Returned(key, Some(value))
    case SetStore(key, _) => At(SetMove(key))
    case SetMove(_) => At(TrimTest)
    case TrimTest => if |data| > maxsize then At(TrimPop) else Idle
    case TrimPop => At(TrimTest)
    case PopCall(key) => Returned(key, found)
    case PeekCall(key) => Returned(key, found)
    case ClearCall => Idle
  }

  /** Which of the four `try` blocks are there. */
  datatype Guards = Guards(lookup: bool, getMove: bool, setMove: bool, popFirst: bool)

  const SOURCE := Guards(true, true, true, true)

  /** Where the `except KeyError` around an operation goes on; None where no `try` is around it. */
  function Handler(g: Guards, p: Point): Option<Thread>
  {
    match p
    case GetLookup(key) => if g.lookup then Some(Returned(key, None)) else None
    case GetMove(key, value) => if g.getMove then Some(Returned(key, Some(value))) else None
    case SetMove(_) => if g.setMove then Some(At(TrimTest)) else None
    case TrimPop => if g.popFirst then Some(Idle) else None
    case _ => None
  }

  // ---- Threads, one step at a time ---------------------------------------

  /** `ever` is history: every entry that was once set. */
  datatype State = State(data: Data, threads: seq<Thread>, ever: set<Entry>)

  /** A thread does its next operation; a KeyError that nothing catches leaves its call. */
  function Execute(g: Guards, s: State, maxsize: nat, t: nat): State
    requires t < |s.threads| && s.threads[t].At?
  {
    var p := s.threads[t].point;
    match Do(s.data, OpOf(p))
    case Ok(data, found) =>
      State(data, s.threads[t := Next(p, data, found, maxsize)],
            if p.SetStore? then s.ever + {Entry(p.key, p.value)} else s.ever)
    case KeyError =>
      var h := Handler(g, p);
      s.(threads := s.threads[t := if h.Some? then h.value else Raised])
  }

  datatype Step = Begins(thread: nat, call: Call) | Continues(thread: nat)

  /** Any thread goes one step on; an idle one, or one whose call has returned, may begin a call. */
  function Apply(g: Guards, s: State, maxsize: nat, step: Step): State
  {
    if step.thread >= |s.threads| then s
    else
      var th := s.threads[step.thread];
      match step
      case Begins(t, call) =>
        if th.Idle? || th.Returned? then s.(threads := s.threads[t := At(FirstPoint(call))]) else s
      case Continues(t) => if th.At? then Execute(g, s, maxsize, t) else s
  }

  function Play(g: Guards, s: State, maxsize: nat, steps: seq<Step>): State
    decreases |steps|
  {
    if steps == [] then s else Play(g, Apply(g, s, maxsize, steps[0]), maxsize, steps[1..])
  }

  function Start(n: nat): State
  {
    State([], seq(n, i => Idle), {})
  }

  // ---- What every interleaving keeps -------------------------------------

  /** In `__setitem__` with its entry stored, so in or before its trim loop. */
  predicate InTrim(t: Thread)
  {
    t.At? && (t.point.SetMove? || t.point.TrimTest? || t.point.TrimPop?)
  }

  /** How many of the first `n` threads are in their trim loop. */
  function Trimmers(threads: seq<Thread>, n: nat): nat
    requires n <= |threads|
  {
    if n == 0 then 0 else Trimmers(threads, n - 1) + if InTrim(threads[n - 1]) then 1 else 0
  }

  lemma {:induction false} TrimmersChange(threads: seq<Thread>, t: nat, th: Thread, n: nat)
    requires t < |threads| && n <= |threads|
    ensures Trimmers(threads[t := th], n) ==
            Trimmers(threads, n) + if t >= n then 0 else (if InTrim(th) then 1 else 0) - (if InTrim(threads[t]) then 1 else 0)
  {
    if n > 0 {
      TrimmersChange(threads, t, th, n - 1);
    }
  }

  lemma {:induction false} TrimmersHas(threads: seq<Thread>, t: nat, n: nat)
    requires t < n <= |threads| && InTrim(threads[t])
    ensures Trimmers(threads, n) >= 1
  {
    if t < n - 1 {
      TrimmersHas(threads, t, n - 1);
    }
  }

  /** No KeyError has left a call, and a value a thread has in hand was once set for its key. */
  ghost predicate ThreadOk(ever: set<Entry>, t: Thread)
  {
    && !t.Raised?
    && (t.At? && t.point.GetMove? ==> Entry(t.point.key, t.point.value) in ever)
    && (t.Returned? && t.result.Some? ==> Entry(t.key, t.result.value) in ever)
  }

  ghost predicate Inv(s: State, maxsize: nat)
  {
    && |s.data| <= maxsize + Trimmers(s.threads, |s.threads|)
    && (forall e <- s.data :: e in s.ever)
    && (forall t <- s.threads :: ThreadOk(s.ever, t))
  }

  /** An operation that a `try` is not around raises no KeyError, whatever the other threads did. */
  lemma UnguardedIsSafe(d: Data, p: Point)
    ensures Handler(SOURCE, p).None? ==> Do(d, OpOf(p)).Ok?
  {
  }

  /** What an operation leaves and finds was there, or is what it stores. */
  lemma DoKeeps(d: Data, p: Point)
    requires Do(d, OpOf(p)).Ok?
    ensures forall e <- Do(d, OpOf(p)).data :: e in d || (p.SetStore? && e == Entry(p.key, p.value))
    ensures |Do(d, OpOf(p)).data| <= |d| + if p.SetStore? then 1 else 0
    ensures Do(d, OpOf(p)).found.Some? && !p.GetMove? && !p.SetMove? ==>
              (p.GetLookup? || p.PopCall? || p.PeekCall?) && Entry(p.key, Do(d, OpOf(p)).found.value) in d
  {
    if p.SetStore? {
      PutAdds(d, p.key, p.value);
    } else if p.GetMove? || p.SetMove? {
      MoveKeeps(d, p.key);
    } else if p.GetLookup? || p.PopCall? || p.PeekCall? {
      var at := Find(d, p.key, 0);
      if at.Some? {
        assert d[at.value] == Entry(p.key, d[at.value].value) && d[at.value] in d;
      }
    }
  }

  /** One thread's step, in a state where its operation and its counts are known. */
  lemma ThreadChange(s: State, maxsize: nat, t: nat, th: Thread, data: Data, ever: set<Entry>)
    requires Inv(s, maxsize) && t < |s.threads| && s.ever <= ever && ThreadOk(ever, th)
    requires forall e <- data :: e in ever
    requires |data| + (if InTrim(s.threads[t]) then 1 else 0) <= maxsize + Trimmers(s.threads, |s.threads|) + (if InTrim(th) then 1 else 0)
    ensures Inv(State(data, s.threads[t := th], ever), maxsize)
  {
    var threads := s.threads[t := th];
    TrimmersChange(s.threads, t, th, |s.threads|);
    forall x <- threads ensures ThreadOk(ever, x) {
      var i :| 0 <= i < |threads| && threads[i] == x;
      if i != t {
        assert s.threads[i] in s.threads;
      }
    }
  }

  lemma ExecuteKeeps(s: State, maxsize: nat, t: nat)
    requires Inv(s, maxsize) && t < |s.threads| && s.threads[t].At?
    ensures Inv(Execute(SOURCE, s, maxsize, t), maxsize)
  {
    var p := s.threads[t].point;
    assert s.threads[t] in s.threads;
    if InTrim(s.threads[t]) {
      TrimmersHas(s.threads, t, |s.threads|);
    }
    match Do(s.data, OpOf(p))
    case KeyError =>
      UnguardedIsSafe(s.data, p);
      ThreadChange(s, maxsize, t, Handler(SOURCE, p).value, s.data, s.ever);
    case Ok(data, found) =>
      DoKeeps(s.data, p);
      ThreadChange(s, maxsize, t, Next(p, data, found, maxsize), data,
                   if p.SetStore? then s.ever + {Entry(p.key, p.value)} else s.ever);
  }

  lemma {:induction false} PlayKeeps(s: State, maxsize: nat, steps: seq<Step>)
    requires Inv(s, maxsize)
    ensures Inv(Play(SOURCE, s, maxsize, steps), maxsize)
    decreases |steps|
  {
    if steps != [] {
      var step := steps[0];
      if step.thread < |s.threads| {
        var th := s.threads[step.thread];
        match step
        case Begins(t, call) =>
          if th.Idle? || th.Returned? {
            ThreadChange(s, maxsize, t, At(FirstPoint(call)), s.data, s.ever);
          }
        case Continues(t) =>
          if th.At? {
            ExecuteKeeps(s, maxsize, t);
          }
      }
      PlayKeeps(Apply(SOURCE, s, maxsize, step), maxsize, steps[1..]);
    }
  }

  lemma {:induction false} NoTrimmers(threads: seq<Thread>, n: nat)
    requires n <= |threads| && forall t <- threads :: !InTrim(t)
    ensures Trimmers(threads, n) == 0
  {
    if n > 0 {
      assert threads[n - 1] in threads;
      NoTrimmers(threads, n - 1);
    }
  }

  /**
   * Under every interleaving of `n` threads: no KeyError leaves a call, a call returns its default
   * or a value once set for its key, the memo is over its size by no more than the threads in their
   * trim loop, and within it when there are none.
   */
  lemma SharedMemo(n: nat, maxsize: nat, steps: seq<Step>, s: State)
    requires s == Play(SOURCE, Start(n), maxsize, steps)
    ensures forall t <- s.threads :: ThreadOk(s.ever, t)
    ensures |s.data| <= maxsize + Trimmers(s.threads, |s.threads|)
    ensures (forall t <- s.threads :: !InTrim(t)) ==> |s.data| <= maxsize
  {
    NoTrimmers(Start(n).threads, n);
    PlayKeeps(Start(n), maxsize, steps);
    if forall t <- s.threads :: !InTrim(t) {
      NoTrimmers(s.threads, |s.threads|);
    }
  }

  // ---- Each `try` is needed ----------------------------------------------

  ghost predicate Reachable(g: Guards, n: nat, maxsize: nat, s: State)
  {
    exists steps: seq<Step> :: Play(g, Start(n), maxsize, steps) == s
  }

  ghost predicate SomeRaised(s: State)
  {
    exists t <- s.threads :: t.Raised?
  }

  /** With these `try` blocks no run of any number of threads, on a memo of any size, lets a KeyError out. */
  ghost predicate NeverRaises(g: Guards)
  {
    forall n: nat, maxsize: nat, s: State | maxsize >= 1 && Reachable(g, n, maxsize, s) :: !SomeRaised(s)
  }

  lemma {:induction false} PlaySnoc(g: Guards, s: State, maxsize: nat, steps: seq<Step>, step: Step)
    ensures Play(g, s, maxsize, steps + [step]) == Apply(g, Play(g, s, maxsize, steps), maxsize, step)
    decreases |steps|
  {
    if steps == [] {
      assert [step][1..] == [];
    } else {
      assert (steps + [step])[1..] == steps[1..] + [step];
      PlaySnoc(g, Apply(g, s, maxsize, steps[0]), maxsize, steps[1..], step);
    }
  }

  lemma ReachNext(g: Guards, n: nat, maxsize: nat, s: State, step: Step) returns (s': State)
    requires Reachable(g, n, maxsize, s)
    ensures s' == Apply(g, s, maxsize, step) && Reachable(g, n, maxsize, s')
  {
    var steps: seq<Step> :| Play(g, Start(n), maxsize, steps) == s;
    PlaySnoc(g, Start(n), maxsize, steps, step);
    s' := Apply(g, s, maxsize, step);
  }

  /** Two threads, the first of them at a point of its call. */
  ghost predicate AtPoint(g: Guards, s: State, data: Data, th: Thread)
  {
    Reachable(g, 2, 1, s) && s.data == data && |s.threads| == 2 && s.threads[0] == th && s.threads[1].Idle?
  }

  lemma Rest(g: Guards) returns (s: State)
    ensures AtPoint(g, s, [], Idle)
  {
    s := Start(2);
    assert Play(g, Start(2), 1, []) == s;
  }

  lemma First(g: Guards, s: State, data: Data, th: Thread, step: Step) returns (s': State)
    requires AtPoint(g, s, data, th) && step.thread == 0
    ensures s' == Apply(g, s, 1, step) && AtPoint(g, s', s'.data, s'.threads[0])
  {
    s' := ReachNext(g, 2, 1, s, step);
  }

  /** The second thread empties the memo. */
  lemma Emptied(g: Guards, s: State, data: Data, th: Thread) returns (s': State)
    requires AtPoint(g, s, data, th)
    ensures AtPoint(g, s', [], th)
  {
    var s1 := ReachNext(g, 2, 1, s, Begins(1, Clear));
    s' := ReachNext(g, 2, 1, s1, Continues(1));
  }

  lemma PutFirst(d: Data, key: Key, value: Value)
    requires |d| == 0
    ensures Put(d, key, value) == [Entry(key, value)] && MoveToEnd([Entry(key, value)], key) == Some([Entry(key, value)])
    ensures ValueOf([Entry(key, value)], key) == Some(value)
  {
    var e := [Entry(key, value)];
    assert Find(d, key, 0).None?;
    assert Find(e, key, 0) == Some(0);
    assert Delete(e, 0) == [];
  }

  /** The first thread stores key 0 and comes to its `move_to_end`. */
  lemma Stores(g: Guards) returns (s: State)
    ensures AtPoint(g, s, [Entry(0, 0)], At(SetMove(0)))
  {
    s := Rest(g);
    s := First(g, s, [], Idle, Begins(0, Set(0, 0)));
    PutFirst(s.data, 0, 0);
    s := First(g, s, [], At(SetStore(0, 0)), Continues(0));
  }

  /** It ends that call; the memo is full. */
  lemma Stored0(g: Guards) returns (s: State)
    ensures AtPoint(g, s, [Entry(0, 0)], Idle)
  {
    s := Stores(g);
    PutFirst([], 0, 0);
    s := First(g, s, [Entry(0, 0)], At(SetMove(0)), Continues(0));
    s := First(g, s, [Entry(0, 0)], At(TrimTest), Continues(0));
  }

  /** It is about to move key 0, which it has read. */
  lemma Reads(g: Guards) returns (s: State)
    ensures AtPoint(g, s, [Entry(0, 0)], At(GetMove(0, 0)))
  {
    s := Stored0(g);
    PutFirst([], 0, 0);
    s := First(g, s, [Entry(0, 0)], Idle, Begins(0, Get(0)));
    s := First(g, s, [Entry(0, 0)], At(GetLookup(0)), Continues(0));
  }

  /** It is about to pop, having found the memo one too big. */
  lemma Trims(g: Guards) returns (s: State)
    ensures s.data != [] && AtPoint(g, s, s.data, At(TrimPop))
  {
    s := Stored0(g);
    var d := [Entry(0, 0), Entry(1, 1)];
    PutSecond(s.data);
    s := First(g, s, [Entry(0, 0)], Idle, Begins(0, Set(1, 1)));
    s := First(g, s, [Entry(0, 0)], At(SetStore(1, 1)), Continues(0));
    s := First(g, s, d, At(SetMove(1)), Continues(0));
    s := First(g, s, d, At(TrimTest), Continues(0));
  }

  lemma PutSecond(d: Data)
    requires d == [Entry(0, 0)]
    ensures Put(d, 1, 1) == [Entry(0, 0), Entry(1, 1)]
    ensures MoveToEnd([Entry(0, 0), Entry(1, 1)], 1) == Some([Entry(0, 0), Entry(1, 1)])
  {
    var e := [Entry(0, 0), Entry(1, 1)];
    FoundFirst(d, 1, 0);
    assert Find(d, 1, 1).None? && Find(d, 1, 0).None?;
    assert Find(e, 1, 1) == Some(1) && Find(e, 1, 0) == Some(1);
    assert Delete(e, 1) == [Entry(0, 0)];
  }

  /** On an empty dict, each of the four operations raises; where nothing catches it, it leaves the call. */
  lemma RaisesOnEmpty(g: Guards, s: State, p: Point) returns (s': State)
    requires AtPoint(g, s, [], At(p)) && Handler(g, p).None? && (p.GetLookup? || p.GetMove? || p.SetMove? || p.TrimPop?)
    ensures Reachable(g, 2, 1, s') && SomeRaised(s')
  {
    s' := ReachNext(g, 2, 1, s, Continues(0));
    assert Find(s.data, if p.TrimPop? then 0 else p.key, 0).None?;
    assert s'.threads[0] in s'.threads && s'.threads[0].Raised?;
  }

  /** Without one of the `try` blocks, some run lets a KeyError out: what it guards can be dropped by another thread. */
  lemma EachGuardIsNeeded(g: Guards) returns (s: State)
    requires g != SOURCE
    ensures Reachable(g, 2, 1, s) && SomeRaised(s)
  {
    if !g.lookup {
      s := Rest(g);
      s := First(g, s, [], Idle, Begins(0, Get(0)));
      s := RaisesOnEmpty(g, s, GetLookup(0));
    } else if !g.getMove {
      s := Reads(g);
      s := Emptied(g, s, [Entry(0, 0)], At(GetMove(0, 0)));
      s := RaisesOnEmpty(g, s, GetMove(0, 0));
    } else if !g.setMove {
      s := Stores(g);
      s := Emptied(g, s, [Entry(0, 0)], At(SetMove(0)));
      s := RaisesOnEmpty(g, s, SetMove(0));
    } else {
      s := Trims(g);
      s := Emptied(g, s, s.data, At(TrimPop));
      s := RaisesOnEmpty(g, s, TrimPop);
    }
  }

  /** No KeyError ever leaves a call exactly because all four `try` blocks are there. */
  lemma GuardsAreExact(g: Guards)
    ensures NeverRaises(g) <==> g == SOURCE
  {
    if g == SOURCE {
      forall n: nat, maxsize: nat, s: State | maxsize >= 1 && Reachable(g, n, maxsize, s) ensures !SomeRaised(s) {
        var steps: seq<Step> :| Play(g, Start(n), maxsize, steps) == s;
        SharedMemo(n, maxsize, steps, s);
      }
    } else {
      var s := EachGuardIsNeeded(g);
    }
  }

  // ---- One thread alone --------------------------------------------------

  /** The entries are in the order of their last use, and no key is there twice. */
  ghost predicate InUseOrder(d: Data, used: map<Key, nat>, now: nat)
  {
    && (forall e <- d :: e.key in used && used[e.key] <= now)
    && (forall i, j | 0 <= i < j < |d| :: d[i].key in used && d[j].key in used && used[d[i].key] < used[d[j].key])
  }

  /** Using the entry at `i` puts it last, with the others as they were. */
  lemma MovedInOrder(d: Data, used: map<Key, nat>, now: nat, i: nat, value: Value)
    requires InUseOrder(d, used, now) && i < |d|
    ensures InUseOrder(Delete(d, i) + [Entry(d[i].key, value)], used[d[i].key := now + 1], now + 1)
  {
    var key := d[i].key;
    var d', used' := Delete(d, i) + [Entry(key, value)], used[key := now + 1];
    assert forall j | 0 <= j < |d| :: d[j] in d;
    forall j | 0 <= j < |d'| - 1 ensures d'[j] == d[if j < i then j else j + 1] && d'[j].key != key {
    }
  }

  lemma AddedInOrder(d: Data, used: map<Key, nat>, now: nat, e: Entry)
    requires InUseOrder(d, used, now) && Find(d, e.key, 0).None?
    ensures InUseOrder(d + [e], used[e.key := now + 1], now + 1)
  {
    FoundFirst(d, e.key, 0);
    assert forall j | 0 <= j < |d| :: d[j] in d;
  }

  /** The first entry is the one used longest ago. */
  lemma FirstIsOldest(d: Data, used: map<Key, nat>, now: nat)
    requires InUseOrder(d, used, now) && d != []
    ensures InUseOrder(d[1..], used, now) && Oldest(d, used)
  {
    assert d[0] in d;
    forall e <- d[1..] ensures used[d[0].key] < used[e.key] {
      var j :| 0 <= j < |d[1..]| && d[1..][j] == e;
      assert d[j + 1] == e;
    }
  }

  class LruMemo {
    const maxsize: nat
    var data: Data
    ghost var used: map<Key, nat>
    ghost var now: nat

    ghost predicate Valid()
      reads this
    {
      maxsize >= 1 && |data| <= maxsize && InUseOrder(data, used, now)
    }

    constructor (maxsize: nat)
      requires maxsize >= 1
      ensures Valid() && this.maxsize == maxsize && data == []
    {
      this.maxsize, data, used, now := maxsize, [], map[], 0;
    }

    /** `get` marks its entry used and changes nothing else. */
    method Get(key: Key) returns (value: Option<Value>)
      requires Valid()
      modifies this`data, this`used, this`now
      ensures Valid() && value == ValueOf(old(data), key)
      ensures value.None? ==> data == old(data) && used == old(used)
      ensures value.Some? ==> MoveToEnd(old(data), key) == Some(data) && used == old(used)[key := now] && now == old(now) + 1
    {
      var at := Find(data, key, 0);
      if at.None? {
        return None;
      }
      value := Some(data[at.value].value);
      MovedInOrder(data, used, now, at.value, data[at.value].value);
      assert Entry(key, data[at.value].value) == data[at.value];
      used, now := used[key := now + 1], now + 1;
      data := Delete(data, at.value) + [data[at.value]];
    }

    /** The two steps before the trim loop. */
    method Store(key: Key, value: Value)
      requires Valid()
      modifies this`data, this`used, this`now
      ensures InUseOrder(data, used, now) && data == Stored(old(data), key, value)
      ensures used == old(used)[key := now] && now == old(now) + 1
    {
      PutMovedInOrder(data, used, now, key, value);
      PutThenMove(data, key, value);
      data := PutMoved(data, key, value);
      now := now + 1;
      used := used[key := now];
    }

    /** The trim loop. */
    method Trim()
      requires InUseOrder(data, used, now) && 1 <= maxsize && |data| <= maxsize + 1
      modifies this`data
      ensures Valid() && data == if |old(data)| > maxsize then old(data)[1..] else old(data)
    {
      while |data| > maxsize
        invariant InUseOrder(data, used, now) && |data| <= |old(data)|
        invariant data == old(data) || (|old(data)| == maxsize + 1 && data == old(data)[1..])
        decreases |data|
      {
        FirstIsOldest(data, used, now);
        data := data[1..];
      }
    }

    /** `memo[key] = value`: the entry is the newest; one that is new to a full memo drops the entry used longest ago. */
    method SetItem(key: Key, value: Value)
      requires Valid()
      modifies this`data, this`used, this`now
      ensures Valid() && data != [] && data[|data| - 1] == Entry(key, value)
      ensures used == old(used)[key := now] && now == old(now) + 1
      ensures data == if DropsOne(old(data), maxsize, key) then Stored(old(data), key, value)[1..] else Stored(old(data), key, value)
      ensures DropsOne(old(data), maxsize, key) ==> Oldest(old(data), old(used))
    {
      if data != [] {
        FirstIsOldest(data, used, now);
      }
      Store(key, value);
      Trim();
    }
  }

  /** The entries with one stored or replaced, which is then the newest. */
  function Stored(d: Data, key: Key, value: Value): (r: Data)
    ensures r != [] && r[|r| - 1] == Entry(key, value)
    ensures |r| == if Find(d, key, 0).Some? then |d| else |d| + 1
  {
    var at := Find(d, key, 0);
    (if at.Some? then Delete(d, at.value) else d) + [Entry(key, value)]
  }

  lemma StoredInOrder(d: Data, used: map<Key, nat>, now: nat, key: Key, value: Value)
    requires InUseOrder(d, used, now)
    ensures InUseOrder(Stored(d, key, value), used[key := now + 1], now + 1)
  {
    var at := Find(d, key, 0);
    if at.Some? {
      MovedInOrder(d, used, now, at.value, value);
    } else {
      AddedInOrder(d, used, now, Entry(key, value));
    }
  }

  lemma PutMovedInOrder(d: Data, used: map<Key, nat>, now: nat, key: Key, value: Value)
    requires InUseOrder(d, used, now)
    ensures InUseOrder(PutMoved(d, key, value), used[key := now + 1], now + 1)
  {
    PutThenMove(d, key, value);
    StoredInOrder(d, used, now, key, value);
  }

  predicate DropsOne(d: Data, maxsize: nat, key: Key)
  {
    Find(d, key, 0).None? && |d| == maxsize
  }

  /** The first entry was used longer ago than any other. */
  ghost predicate Oldest(d: Data, used: map<Key, nat>)
  {
    d != [] && d[0].key in used && forall e <- d[1..] :: e.key in used && used[d[0].key] < used[e.key]
  }

  /** `data[key] = value`, then `move_to_end(key)` with its KeyError caught. */
  function PutMoved(d: Data, key: Key, value: Value): Data
  {
    var moved := MoveToEnd(Put(d, key, value), key);
    if moved.Some? then moved.value else Put(d, key, value)
  }

  lemma PutThenMove(d: Data, key: Key, value: Value)
    ensures PutMoved(d, key, value) == Stored(d, key, value)
  {
    var at, p := Find(d, key, 0), Put(d, key, value);
    FoundFirst(d, key, 0);
    FindFirst(p, key, 0, if at.Some? then at.value else |d|);
    if at.Some? {
      assert Delete(p, at.value) == Delete(d, at.value);
    } else {
      assert Delete(p, |d|) == d;
    }
  }

  lemma {:induction false} FindFirst(d: Data, key: Key, i: nat, at: nat)
    requires i <= at < |d| && d[at].key == key && forall j | i <= j < at :: d[j].key != key
    ensures Find(d, key, i) == Some(at)
    decreases at - i
  {
    if i < at {
      FindFirst(d, key, i + 1, at);
    }
  }

  /** `LruMemo(maxsize)`, which refuses a size below 1. */
  method Make(maxsize: int) returns (m: Option<LruMemo>)
    ensures m.Some? <==> maxsize >= 1
    ensures m.Some? ==> fresh(m.value) && m.value.Valid() && m.value.maxsize == maxsize && m.value.data == []
  {
    if maxsize < 1 {
      return None;
    }
    var memo := new LruMemo(maxsize);
    m := Some(memo);
  }
}
