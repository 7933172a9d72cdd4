/**
 * The push of live cell sources from the notebook page to the kernel
 * (`labextension/src/index.ts`, `src/cash/notebook/live_cells.py`): the page, one first-in-first-out
 * shell channel, and the kernel's store, under every interleaving of edits, debounced pushes, runs,
 * failed sends, refused opens, late closes, kernel restarts and page reloads.
 *
 * A snapshot of the cells stands for the moment it was taken: `moment` counts the changes of the
 * document.
 */
module LiveCells {
  import opened Options

  /** A comm is known by the page load that made it and its number there. */
  datatype Comm = Comm(epoch: nat, number: nat)

  /** Made no later than the other. */
  predicate UpTo(a: Comm, b: Comm)
  {
    a.epoch < b.epoch || (a.epoch == b.epoch && a.number <= b.number)
  }

  /** One scheduled execution, with the moment at which it was scheduled. */
  datatype Run = Run(id: nat, moment: nat)

  /** A push that was sent. */
  datatype Pushed = Pushed(comm: Comm, seqNo: nat, moment: nat)

  /**
   * What goes down the shell channel; a flush says which run it precedes. `last` is history: what the
   * pages had sent last when the request left, a push since the last open and the last request
   * that is not silent, or none.
   */
  datatype Msg =
    | Open(comm: Comm)
    | Push(comm: Comm, seqNo: nat, moment: nat, flush: Option<Run>)
    | Exec(run: Run, silent: bool, last: Option<Pushed>)

  /** The closure state of the extension for one panel. `epoch` counts page loads and `runs` the runs scheduled so far. */
  datatype Page = Page(
    epoch: nat, seqNo: nat, comm: Option<Comm>, created: nat, armed: bool, pending: set<Run>, runs: nat)

  /**
   * The kernel's history: the runs whose flush came in on an accepted comm, the latest moment stored,
   * the page load that last opened or pushed, the comms whose open it has come to, the comm
   * of the last push accepted, the push it came to since the last open and non-silent request, and
   * the pushes that served an execution that is not silent.
   */
  datatype Past = Past(
    landed: set<Run>, high: nat, epoch: nat, met: set<Comm>, mark: Option<Comm>, last: Option<Pushed>, served: set<Pushed>)

  datatype Kernel = Kernel(registered: bool, accepted: set<Comm>, store: Option<nat>, lastSeq: int, past: Past)

  /** `last` is history: what a request sent now would carry. */
  datatype State = State(
    page: Page, channel: seq<Msg>, kernel: Kernel, closing: set<Comm>, moment: nat, last: Option<Pushed>)

  const NEW_KERNEL := Kernel(false, {}, None, -1, Past({}, 0, 0, {}, None, None, {}))
  const START := State(Page(0, 0, None, 0, false, {}, 0), [], NEW_KERNEL, {}, 0, None)

  /** Where a send may throw: at `open`, or at `send`; or there is no kernel. */
  datatype Fault = NoFault | NoKernel | AtOpen | AtSend

  datatype Event =
    | Edit
    | TimerFires(fault: Fault)
    | Schedule(fault: Fault)
    | SendRequest(run: Run, silent: bool)
    | KernelStep(registers: bool)
    | CloseArrives(comm: Comm)
    | KernelChanged
    | Restart(lost: nat)
    | Reload

  // ---- The page ----------------------------------------------------------

  datatype Sent = Sent(page: Page, messages: seq<Msg>)

  /** `send`: opens a missing comm only when allowed, drops the comm when anything throws. */
  function Send(p: Page, moment: nat, allowOpen: bool, fault: Fault, flush: Option<Run>): Sent
  {
    if fault == NoKernel || (p.comm.None? && !allowOpen) then Sent(p, [])
    else if p.comm.None? && fault == AtOpen then Sent(p.(created := p.created + 1), [])
    else
      var opens := p.comm.None?;
      var comm := if opens then Comm(p.epoch, p.created) else p.comm.value;
      var p1 := p.(seqNo := p.seqNo + 1, created := if opens then p.created + 1 else p.created);
      var opening := if opens then [Open(comm)] else [];
      if fault == AtSend then Sent(p1.(comm := None), opening)
      else Sent(p1.(comm := Some(comm)), opening + [Push(comm, p1.seqNo, moment, flush)])
  }

  // ---- The kernel --------------------------------------------------------

  /** `handle_message`: never backwards. */
  function HandlePush(k: Kernel, seqNo: nat, moment: nat): Kernel
  {
    if seqNo <= k.lastSeq then k else k.(store := Some(moment), lastSeq := seqNo)
  }

  /** What a message leaves of the push sent last: an open and a request that is not silent leave none. */
  function After(last: Option<Pushed>, m: Msg): Option<Pushed>
  {
    match m
    case Open(_) => None
    case Push(comm, seqNo, moment, _) => Some(Pushed(comm, seqNo, moment))
    case Exec(_, silent, _) => if silent then last else None
  }

  /** What the first `n` messages leave of it. */
  function AfterAll(last: Option<Pushed>, ch: seq<Msg>, n: nat): Option<Pushed>
    requires n <= |ch|
  {
    if n == 0 then last else After(AfterAll(last, ch, n - 1), ch[n - 1])
  }

  /** The history of the kernel past one message. */
  function Passed(k: Kernel, m: Msg): Past
  {
    var p := k.past.(last := After(k.past.last, m));
    match m
    case Open(comm) => p.(met := p.met + {comm}, epoch := if k.registered then comm.epoch else p.epoch)
    case Push(comm, _, moment, flush) =>
      if comm !in k.accepted then p
      else
        p.(high := moment, epoch := comm.epoch, mark := Some(comm),
           landed := if flush.Some? then p.landed + {flush.value} else p.landed)
    case Exec(_, silent, _) =>
      if !silent && k.store.Some? && k.past.last.Some? then p.(served := p.served + {k.past.last.value}) else p
  }

  /** What the kernel does with one message; a run may import cash, which registers the target. */
  function Receive(k: Kernel, m: Msg, registers: bool): Kernel
  {
    var past := Passed(k, m);
    match m
    case Open(comm) =>
      if !k.registered then k.(past := past)
      else k.(accepted := k.accepted + {comm}, store := None, lastSeq := -1, past := past)
    case Push(comm, seqNo, moment, _) =>
      if comm !in k.accepted then k.(past := past) else HandlePush(k, seqNo, moment).(past := past)
    case Exec(_, silent, _) =>
      k.(registered := k.registered || registers, store := if silent then k.store else None, past := past)
  }

  function Refuses(k: Kernel, m: Msg): bool
  {
    m.Open? && !k.registered
  }

  /** The comms whose opens are among the first `n` messages. */
  function Opened(ch: seq<Msg>, n: nat): set<Comm>
    requires n <= |ch|
  {
    if n == 0 then {} else Opened(ch, n - 1) + if ch[n - 1].Open? then {ch[n - 1].comm} else {}
  }

  /** A kernel started anew, after the first `n` messages were lost. */
  function Restarted(k: Kernel, ch: seq<Msg>, n: nat): Kernel
    requires n <= |ch|
  {
    NEW_KERNEL.(past := NEW_KERNEL.past.(
      met := k.past.met + Opened(ch, n), last := AfterAll(k.past.last, ch, n), served := k.past.served))
  }

  // ---- One step ----------------------------------------------------------

  /** Messages go down the channel. */
  function Put(s: State, p: Page, messages: seq<Msg>): State
  {
    s.(page := p, channel := s.channel + messages, last := AfterAll(s.last, messages, |messages|))
  }

  function Apply(s: State, e: Event): State
  {
    match e
    case Edit => s.(moment := s.moment + 1, page := s.page.(armed := true))
    case TimerFires(fault) =>
      if !s.page.armed then s
      else
        var sent := Send(s.page.(armed := false), s.moment, false, fault, None);
        Put(s, sent.page, sent.messages)
    case Schedule(fault) =>
      var run := Run(s.page.runs, s.moment);
      var p := s.page.(runs := s.page.runs + 1, pending := s.page.pending + {run});
      var sent := Send(p, s.moment, true, fault, Some(run));
      Put(s, sent.page, sent.messages)
    case SendRequest(run, silent) =>
      if run !in s.page.pending then s
      else Put(s, s.page.(pending := s.page.pending - {run}), [Exec(run, silent, s.last)])
    case KernelStep(registers) =>
      if s.channel == [] then s
      else
        s.(kernel := Receive(s.kernel, s.channel[0], registers), channel := s.channel[1..],
           closing := if Refuses(s.kernel, s.channel[0]) then s.closing + {s.channel[0].comm} else s.closing)
    case CloseArrives(comm) =>
      if comm !in s.closing then s
      else
        s.(closing := s.closing - {comm}, page := if s.page.comm == Some(comm) then s.page.(comm := None) else s.page)
    case KernelChanged => s.(page := s.page.(comm := None))
    case Restart(lost) =>
      var n := if lost <= |s.channel| then lost else |s.channel|;
      s.(kernel := Restarted(s.kernel, s.channel, n), channel := s.channel[n..])
    case Reload =>
      s.(moment := s.moment + 1, page := Page(s.page.epoch + 1, 0, None, 0, false, {}, s.page.runs))
  }

  function Play(s: State, events: seq<Event>): State
    decreases |events|
  {
    if events == [] then s else Play(Apply(s, events[0]), events[1..])
  }

  // ---- What every step keeps ---------------------------------------------

  predicate Older(a: Msg, b: Msg)
  {
    && (!a.Exec? && !b.Exec? ==> UpTo(a.comm, b.comm) && (b.Open? ==> a.comm != b.comm))
    && (a.Push? && b.Push? ==> a.moment <= b.moment)
    && (a.Push? && b.Push? && a.comm.epoch == b.comm.epoch ==> a.seqNo < b.seqNo)
    && (a.Exec? && b.Exec? ==> a.run != b.run)
    && (a.Exec? && b.Push? ==> b.flush != Some(a.run))
  }

  /** The channel's messages are in the order the pages made them. */
  ghost predicate InOrder(ch: seq<Msg>)
  {
    forall i, j | 0 <= i < j < |ch| :: Older(ch[i], ch[j])
  }

  predicate Made(p: Page, c: Comm)
  {
    c.epoch < p.epoch || (c.epoch == p.epoch && c.number < p.created)
  }

  /** A message the page, as it is, may have sent. */
  predicate SentBy(p: Page, now: nat, m: Msg)
  {
    && (!m.Exec? ==> Made(p, m.comm))
    && (m.Push? ==> m.moment <= now && (m.comm.epoch == p.epoch ==> m.seqNo <= p.seqNo))
    && (m.Push? && m.flush.Some? ==> m.flush.value.moment == m.moment && m.flush.value.id < p.runs)
    && (m.Exec? ==> m.run.id < p.runs && m.run !in p.pending)
  }

  /** The pushes that have served an execution, or may serve the next. */
  function Counted(past: Past): set<Pushed>
  {
    past.served + if past.last.Some? then {past.last.value} else {}
  }

  /** The push was sent before the message. */
  predicate Before(p: Pushed, m: Msg)
    requires m.Push?
  {
    p.comm.epoch < m.comm.epoch || (p.comm.epoch == m.comm.epoch && p.seqNo < m.seqNo)
  }

  /** A message the kernel has yet to come to. */
  ghost predicate AheadOf(k: Kernel, closing: set<Comm>, m: Msg)
  {
    && (!m.Exec? ==> k.past.epoch <= m.comm.epoch)
    && (m.Push? ==> k.past.high <= m.moment && (m.comm.epoch == k.past.epoch ==> k.lastSeq < m.seqNo))
    && (m.Push? && k.past.mark.Some? ==> UpTo(k.past.mark.value, m.comm))
    && (m.Push? ==> forall p <- Counted(k.past) :: Before(p, m))
    && (m.Open? ==> m.comm !in k.accepted && m.comm !in closing)
    && (m.Open? ==> forall c <- k.past.met :: UpTo(c, m.comm) && c != m.comm)
  }

  /** The comm a page holds is the last it made. */
  ghost predicate PageOk(p: Page)
  {
    && (p.comm.Some? ==> p.created > 0 && p.comm.value == Comm(p.epoch, p.created - 1))
    && (forall r <- p.pending :: r.id < p.runs)
  }

  /** The store holds the push the kernel came to last, if its comm is accepted. */
  ghost predicate StoreIs(k: Kernel)
  {
    k.store == if k.past.last.Some? && k.past.last.value.comm in k.accepted then Some(k.past.last.value.moment) else None
  }

  /** Once a comm is accepted, so is every later one whose open the kernel has come to. */
  ghost predicate AcceptedOk(k: Kernel)
  {
    && (!k.registered ==> k.accepted == {})
    && (forall c <- k.accepted :: c.epoch <= k.past.epoch)
    && (forall c <- k.accepted, d <- k.past.met | UpTo(c, d) :: d in k.accepted)
  }

  ghost predicate PastOk(k: Kernel)
  {
    && (k.past.last.Some? ==> k.past.last.value.comm in k.past.met && k.past.last.value !in k.past.served)
    && (k.past.last.Some? && k.past.last.value.comm in k.accepted ==> k.past.last.value.moment == k.past.high)
    && (k.past.mark.Some? ==> k.past.mark.value in k.accepted)
    && (k.past.mark.Some? && k.past.last.Some? ==> UpTo(k.past.mark.value, k.past.last.value.comm))
    && (k.past.landed != {} ==> k.past.mark.Some?)
    && (forall r <- k.past.landed :: r.moment <= k.past.high)
  }

  /** What the kernel knows was made by the pages up to now. */
  ghost predicate KnownTo(k: Kernel, closing: set<Comm>, p: Page, now: nat)
  {
    && k.past.high <= now && k.past.epoch <= p.epoch && (k.past.epoch == p.epoch ==> k.lastSeq <= p.seqNo)
    && (forall c <- k.accepted :: Made(p, c)) && (forall c <- k.past.met :: Made(p, c))
    && (forall c <- closing :: c !in k.accepted && Made(p, c))
    && (forall r <- k.past.landed :: r.id < p.runs)
    && (forall q <- Counted(k.past) :: q.comm.epoch < p.epoch || (q.comm.epoch == p.epoch && q.seqNo <= p.seqNo))
  }

  ghost predicate ChannelOk(s: State)
  {
    && InOrder(s.channel)
    && forall i {:trigger s.channel[i]} | 0 <= i < |s.channel| ::
         SentBy(s.page, s.moment, s.channel[i]) && AheadOf(s.kernel, s.closing, s.channel[i])
  }

  /** The open of a comm is among the first `n` messages. */
  ghost predicate Opens(ch: seq<Msg>, n: int, c: Comm)
  {
    exists i :: 0 <= i < n && i < |ch| && ch[i] == Open(c)
  }

  /** A message fits what was sent before it: a request carries it, a push without an open between is on the same comm. */
  ghost predicate FollowsAt(met: set<Comm>, last: Option<Pushed>, ch: seq<Msg>, j: nat)
  {
    j < |ch| &&
    match ch[j]
    case Open(_) => true
    case Push(comm, _, _, _) =>
      && (AfterAll(last, ch, j).Some? ==> AfterAll(last, ch, j).value.comm == comm)
      && (comm in met || Opens(ch, j, comm))
    case Exec(_, _, carried) => carried == AfterAll(last, ch, j)
  }

  ghost predicate Follows(s: State)
  {
    && (forall j: nat {:trigger FollowsAt(s.kernel.past.met, s.kernel.past.last, s.channel, j)} | j < |s.channel| ::
          FollowsAt(s.kernel.past.met, s.kernel.past.last, s.channel, j))
    && s.last == AfterAll(s.kernel.past.last, s.channel, |s.channel|)
    && (s.page.comm.Some? ==> s.page.comm.value in s.kernel.past.met || Opens(s.channel, |s.channel|, s.page.comm.value))
    && (s.page.comm.Some? && s.last.Some? ==> s.last.value.comm == s.page.comm.value)
  }

  ghost predicate Inv(s: State)
  {
    && PageOk(s.page) && StoreIs(s.kernel) && AcceptedOk(s.kernel) && PastOk(s.kernel)
    && KnownTo(s.kernel, s.closing, s.page, s.moment)
    && ChannelOk(s) && Follows(s)
  }

  // ---- The page's steps --------------------------------------------------

  /** The page has counted on: nothing it sent before is contradicted. */
  predicate Later(p: Page, q: Page)
  {
    && q.epoch == p.epoch && q.created >= p.created && q.seqNo >= p.seqNo && q.runs >= p.runs
    && (forall r <- q.pending :: r in p.pending || r.id >= p.runs) && (q.comm.None? || q.comm == p.comm)
  }

  lemma LaterKeeps(s: State, q: Page)
    requires Inv(s) && Later(s.page, q) && PageOk(q)
    ensures Inv(s.(page := q))
  {
    var s' := s.(page := q);
    forall i | 0 <= i < |s'.channel| ensures SentBy(s'.page, s'.moment, s'.channel[i]) {
      assert SentBy(s.page, s.moment, s.channel[i]);
    }
    forall j: nat | j < |s'.channel| ensures FollowsAt(s'.kernel.past.met, s'.kernel.past.last, s'.channel, j) {
      assert FollowsAt(s.kernel.past.met, s.kernel.past.last, s.channel, j);
    }
  }

  lemma ChannelMore(s: State, m: Msg)
    requires ChannelOk(s) && SentBy(s.page, s.moment, m) && AheadOf(s.kernel, s.closing, m)
    requires forall i {:trigger s.channel[i]} | 0 <= i < |s.channel| :: Older(s.channel[i], m)
    ensures ChannelOk(Put(s, s.page, [m]))
  {
    var ch := s.channel + [m];
    forall i, j | 0 <= i < j < |ch| ensures Older(ch[i], ch[j]) {
      assert ch[i] == s.channel[i];
      assert j < |s.channel| ==> ch[j] == s.channel[j];
    }
  }

  lemma {:induction false} AfterAllMore(last: Option<Pushed>, ch: seq<Msg>, more: seq<Msg>, n: nat)
    requires n <= |ch| <= |more| && forall i | 0 <= i < |ch| :: more[i] == ch[i]
    ensures AfterAll(last, more, n) == AfterAll(last, ch, n)
  {
    if n > 0 {
      AfterAllMore(last, ch, more, n - 1);
    }
  }

  lemma OpensMore(ch: seq<Msg>, more: seq<Msg>, n: int, c: Comm)
    requires Opens(ch, n, c) && |ch| <= |more| && forall i | 0 <= i < |ch| :: more[i] == ch[i]
    ensures Opens(more, n, c)
  {
    var i :| 0 <= i < n && i < |ch| && ch[i] == Open(c);
    assert more[i] == Open(c);
  }

  lemma FollowsMore(met: set<Comm>, last: Option<Pushed>, ch: seq<Msg>, more: seq<Msg>, j: nat)
    requires FollowsAt(met, last, ch, j) && |ch| <= |more| && forall i | 0 <= i < |ch| :: more[i] == ch[i]
    ensures FollowsAt(met, last, more, j)
  {
    AfterAllMore(last, ch, more, j);
    if ch[j].Push? && ch[j].comm !in met {
      OpensMore(ch, more, j, ch[j].comm);
    }
  }

  /** One message more, which fits what was sent before it. */
  lemma AddOne(s: State, m: Msg)
    requires Inv(s) && SentBy(s.page, s.moment, m) && AheadOf(s.kernel, s.closing, m)
    requires forall i {:trigger s.channel[i]} | 0 <= i < |s.channel| :: Older(s.channel[i], m)
    requires FollowsAt(s.kernel.past.met, s.kernel.past.last, s.channel + [m], |s.channel|)
    requires s.page.comm.Some? && After(s.last, m).Some? ==> After(s.last, m).value.comm == s.page.comm.value
    ensures Inv(Put(s, s.page, [m]))
  {
    var s' := Put(s, s.page, [m]);
    ChannelMore(s, m);
    var ch := s'.channel;
    forall j: nat | j < |ch| ensures FollowsAt(s.kernel.past.met, s.kernel.past.last, ch, j) {
      if j < |s.channel| {
        FollowsMore(s.kernel.past.met, s.kernel.past.last, s.channel, ch, j);
      }
    }
    AfterAllMore(s.kernel.past.last, s.channel, ch, |s.channel|);
    assert AfterAll(s.last, [m], 1) == After(AfterAll(s.last, [m], 0), m);
    if s.page.comm.Some? && s.page.comm.value !in s.kernel.past.met {
      OpensMore(s.channel, ch, |s.channel|, s.page.comm.value);
      OpensFurther(ch, |s.channel|, |ch|, s.page.comm.value);
    }
  }

  lemma OpensFurther(ch: seq<Msg>, n: int, n': int, c: Comm)
    requires Opens(ch, n, c) && n <= n'
    ensures Opens(ch, n', c)
  {
    var i :| 0 <= i < n && i < |ch| && ch[i] == Open(c);
  }

  /** The page opens a comm newer than any. */
  lemma AddOpen(s: State, c: Comm)
    requires Inv(s) && s.page.comm.None? && s.page.created > 0 && c == Comm(s.page.epoch, s.page.created - 1)
    requires forall i {:trigger s.channel[i]} | 0 <= i < |s.channel| && !s.channel[i].Exec? :: s.channel[i].comm != c
    requires c !in s.kernel.accepted && c !in s.closing && c !in s.kernel.past.met
    ensures Inv(Put(s, s.page, [Open(c)])) && Inv(Put(s, s.page.(comm := Some(c)), [Open(c)]))
  {
    forall i | 0 <= i < |s.channel| ensures Older(s.channel[i], Open(c)) {
      assert SentBy(s.page, s.moment, s.channel[i]);
    }
    AddOne(s, Open(c));
    var s1 := Put(s, s.page, [Open(c)]);
    var s2 := s1.(page := s.page.(comm := Some(c)));
    assert s1.channel[|s.channel|] == Open(c);
    assert AfterAll(s.last, [Open(c)], 1) == None;
    forall i | 0 <= i < |s2.channel| ensures SentBy(s2.page, s2.moment, s2.channel[i]) {
      assert SentBy(s1.page, s1.moment, s1.channel[i]);
    }
    forall j: nat | j < |s2.channel| ensures FollowsAt(s2.kernel.past.met, s2.kernel.past.last, s2.channel, j) {
      assert FollowsAt(s1.kernel.past.met, s1.kernel.past.last, s1.channel, j);
    }
  }

  /** A push on the comm the page holds. */
  lemma AddPush(s: State, m: Msg)
    requires Inv(s) && m.Push? && s.page.comm == Some(m.comm) && m.moment == s.moment && m.seqNo == s.page.seqNo
    requires m.flush.Some? ==> m.flush.value in s.page.pending && m.flush.value.moment == s.moment
    requires forall i {:trigger s.channel[i]} | 0 <= i < |s.channel| && s.channel[i].Push? && s.channel[i].comm.epoch == s.page.epoch ::
      s.channel[i].seqNo < m.seqNo
    requires s.kernel.past.epoch == s.page.epoch ==> s.kernel.lastSeq < m.seqNo
    requires forall p <- Counted(s.kernel.past) :: Before(p, m)
    ensures Inv(Put(s, s.page, [m]))
  {
    forall i | 0 <= i < |s.channel| ensures Older(s.channel[i], m) {
      assert SentBy(s.page, s.moment, s.channel[i]);
    }
    assert forall c: Comm | Made(s.page, c) :: UpTo(c, m.comm);
    var ch := s.channel + [m];
    AfterAllMore(s.kernel.past.last, s.channel, ch, |s.channel|);
    if m.comm !in s.kernel.past.met {
      OpensMore(s.channel, ch, |s.channel|, m.comm);
    }
    AddOne(s, m);
  }

  lemma LastOfOne(last: Option<Pushed>, m: Msg)
    ensures AfterAll(last, [m], 1) == After(last, m)
  {
    assert AfterAll(last, [m], 1) == After(AfterAll(last, [m], 0), m);
  }

  lemma LastOfTwo(last: Option<Pushed>, a: Msg, b: Msg)
    ensures AfterAll(last, [a, b], 2) == After(After(last, a), b)
  {
    AfterAllMore(last, [a], [a, b], 1);
    LastOfOne(last, a);
    assert AfterAll(last, [a, b], 2) == After(AfterAll(last, [a, b], 1), b);
  }

  lemma PutTwo(s: State, p: Page, q: Page, a: Msg, b: Msg)
    ensures Put(Put(s, p, [a]), q, [b]) == Put(s, q, [a, b])
  {
    LastOfTwo(s.last, a, b);
    LastOfOne(s.last, a);
    LastOfOne(After(s.last, a), b);
    assert s.channel + [a] + [b] == s.channel + [a, b];
  }

  lemma PutNone(s: State, p: Page)
    ensures Put(s, p, []) == s.(page := p)
  {
    assert s.channel + [] == s.channel;
  }

  /** A page that holds a comm sends its next push on it. */
  lemma NextPush(s: State, q: Page, m: Msg)
    requires Inv(s) && s.page.comm.Some? && q == s.page.(seqNo := s.page.seqNo + 1)
    requires m.Push? && m.comm == s.page.comm.value && m.seqNo == q.seqNo && m.moment == s.moment
    requires m.flush.Some? ==> m.flush.value in s.page.pending && m.flush.value.moment == s.moment
    ensures Inv(Put(s, q, [m]))
  {
    LaterKeeps(s, q);
    var s1 := s.(page := q);
    forall i | 0 <= i < |s1.channel| && s1.channel[i].Push? && s1.channel[i].comm.epoch == q.epoch
      ensures s1.channel[i].seqNo < m.seqNo
    {
      assert SentBy(s.page, s.moment, s.channel[i]);
    }
    AddPush(s1, m);
  }

  /** A page without a comm opens one. */
  lemma NextOpen(s: State, q: Page, c: Comm)
    requires Inv(s) && s.page.comm.None? && c == Comm(s.page.epoch, s.page.created)
    requires q == s.page.(created := s.page.created + 1, seqNo := q.seqNo) && q.seqNo >= s.page.seqNo
    ensures Inv(Put(s, q, [Open(c)])) && Inv(Put(s, q.(comm := Some(c)), [Open(c)]))
  {
    LaterKeeps(s, q);
    assert !Made(s.page, c);
    forall i | 0 <= i < |s.channel| && !s.channel[i].Exec? ensures s.channel[i].comm != c {
      assert SentBy(s.page, s.moment, s.channel[i]);
    }
    AddOpen(s.(page := q), c);
  }

  /** `send`, in a state where the run it flushes for, if any, is pending. */
  lemma SendKeeps(s: State, allowOpen: bool, fault: Fault, flush: Option<Run>, p: Page, messages: seq<Msg>)
    requires Inv(s) && Sent(p, messages) == Send(s.page, s.moment, allowOpen, fault, flush)
    requires flush.Some? ==> flush.value in s.page.pending && flush.value.moment == s.moment
    ensures Inv(Put(s, p, messages))
  {
    if messages == [] {
      LaterKeeps(s, p);
      PutNone(s, p);
    } else if s.page.comm.Some? {
      NextPush(s, p, messages[0]);
      assert messages == [messages[0]];
    } else {
      var c := Comm(s.page.epoch, s.page.created);
      var opening := s.page.(created := s.page.created + 1);
      if fault == AtSend {
        NextOpen(s, p, c);
      } else {
        NextOpen(s, opening, c);
        var q := opening.(comm := Some(c));
        NextPush(Put(s, q, [Open(c)]), p, messages[1]);
        PutTwo(s, q, p, Open(c), messages[1]);
        assert messages == [Open(c), messages[1]];
      }
    }
  }

  lemma ScheduleKeeps(s: State, fault: Fault)
    requires Inv(s)
    ensures Inv(Apply(s, Schedule(fault)))
  {
    var run := Run(s.page.runs, s.moment);
    var p := s.page.(runs := s.page.runs + 1, pending := s.page.pending + {run});
    LaterKeeps(s, p);
    var sent := Send(p, s.moment, true, fault, Some(run));
    SendKeeps(s.(page := p), true, fault, Some(run), sent.page, sent.messages);
  }

  lemma TimerKeeps(s: State, fault: Fault)
    requires Inv(s)
    ensures Inv(Apply(s, TimerFires(fault)))
  {
    if s.page.armed {
      var p := s.page.(armed := false);
      LaterKeeps(s, p);
      var sent := Send(p, s.moment, false, fault, None);
      SendKeeps(s.(page := p), false, fault, None, sent.page, sent.messages);
    }
  }

  lemma RequestKeeps(s: State, run: Run, silent: bool)
    requires Inv(s) && run in s.page.pending
    ensures Inv(Apply(s, SendRequest(run, silent)))
  {
    var m := Exec(run, silent, s.last);
    var q := s.page.(pending := s.page.pending - {run});
    LaterKeeps(s, q);
    forall i | 0 <= i < |s.channel| ensures Older(s.channel[i], m) {
      assert SentBy(s.page, s.moment, s.channel[i]);
    }
    AfterAllMore(s.kernel.past.last, s.channel, s.channel + [m], |s.channel|);
    AddOne(s.(page := q), m);
  }

  lemma MomentKeeps(s: State)
    requires Inv(s)
    ensures Inv(s.(moment := s.moment + 1))
  {
    var s' := s.(moment := s.moment + 1);
    forall i | 0 <= i < |s'.channel| ensures SentBy(s'.page, s'.moment, s'.channel[i]) {
      assert SentBy(s.page, s.moment, s.channel[i]);
    }
    SameFollows(s, s');
  }

  lemma SameFollows(s: State, s': State)
    requires Follows(s) && s'.channel == s.channel && s'.kernel == s.kernel && s'.last == s.last
    requires s'.page.comm.None? || s'.page.comm == s.page.comm
    ensures Follows(s')
  {
    forall j: nat | j < |s'.channel| ensures FollowsAt(s'.kernel.past.met, s'.kernel.past.last, s'.channel, j) {
      assert FollowsAt(s.kernel.past.met, s.kernel.past.last, s.channel, j);
    }
  }

  lemma ReloadKeeps(s: State)
    requires Inv(s)
    ensures Inv(Apply(s, Reload))
  {
    var s' := Apply(s, Reload);
    forall i | 0 <= i < |s'.channel| ensures SentBy(s'.page, s'.moment, s'.channel[i]) {
      assert SentBy(s.page, s.moment, s.channel[i]);
    }
    SameFollows(s, s');
  }

  /** A refused comm was never accepted, so its close leaves any accepted comm in place. */
  lemma CloseKeeps(s: State, comm: Comm)
    requires Inv(s)
    ensures Inv(Apply(s, CloseArrives(comm)))
    ensures s.page.comm.Some? && s.page.comm.value in s.kernel.accepted ==> Apply(s, CloseArrives(comm)).page.comm == s.page.comm
    ensures s.page.comm != Some(comm) ==> Apply(s, CloseArrives(comm)).page.comm == s.page.comm
  {
    var s' := Apply(s, CloseArrives(comm));
    forall i | 0 <= i < |s'.channel| ensures SentBy(s'.page, s'.moment, s'.channel[i]) && AheadOf(s'.kernel, s'.closing, s'.channel[i]) {
      assert SentBy(s.page, s.moment, s.channel[i]);
    }
    SameFollows(s, s');
  }

  // ---- The kernel's steps ------------------------------------------------

  lemma {:induction false} AfterAllShift(last: Option<Pushed>, ch: seq<Msg>, rest: seq<Msg>, n: nat, j: nat)
    requires n <= |ch| && rest == ch[n..] && j <= |rest|
    ensures AfterAll(AfterAll(last, ch, n), rest, j) == AfterAll(last, ch, n + j)
  {
    if j > 0 {
      AfterAllShift(last, ch, rest, n, j - 1);
    }
  }

  /** Without its first message the rest of the channel still follows what was sent before. */
  lemma FollowsNext(s: State, s': State)
    requires Follows(s) && s.channel != [] && s'.channel == s.channel[1..] && s'.page == s.page && s'.last == s.last
    requires s'.kernel.past.last == After(s.kernel.past.last, s.channel[0]) && s.kernel.past.met <= s'.kernel.past.met
    requires s.channel[0].Open? ==> s.channel[0].comm in s'.kernel.past.met
    ensures Follows(s')
  {
    var last, last' := s.kernel.past.last, s'.kernel.past.last;
    var met, met' := s.kernel.past.met, s'.kernel.past.met;
    assert AfterAll(last, s.channel, 1) == After(AfterAll(last, s.channel, 0), s.channel[0]);
    forall n: nat, c | Opens(s.channel, n + 1, c) ensures c in met' || Opens(s'.channel, n, c) {
      OpensNext(s.channel, s'.channel, n, c);
    }
    forall j: nat | j < |s'.channel| ensures FollowsAt(met', last', s'.channel, j) {
      assert FollowsAt(met, last, s.channel, j + 1);
      AfterAllShift(last, s.channel, s'.channel, 1, j);
    }
    AfterAllShift(last, s.channel, s'.channel, 1, |s'.channel|);
  }

  lemma OpensNext(ch: seq<Msg>, rest: seq<Msg>, n: nat, c: Comm)
    requires Opens(ch, n + 1, c) && ch != [] && rest == ch[1..]
    ensures ch[0] == Open(c) || Opens(rest, n, c)
  {
    var i :| 0 <= i < n + 1 && i < |ch| && ch[i] == Open(c);
    if i > 0 {
      assert rest[i - 1] == Open(c);
    }
  }

  /** After its first message the rest of the channel is as it was, one place on. */
  lemma ChannelNext(s: State, s': State)
    requires ChannelOk(s) && s.channel != [] && s'.channel == s.channel[1..] && s'.page == s.page && s'.moment == s.moment
    requires forall m | Older(s.channel[0], m) && AheadOf(s.kernel, s.closing, m) :: AheadOf(s'.kernel, s'.closing, m)
    ensures ChannelOk(s')
  {
    forall i | 0 <= i < |s'.channel| ensures SentBy(s'.page, s'.moment, s'.channel[i]) && AheadOf(s'.kernel, s'.closing, s'.channel[i]) {
      assert s'.channel[i] == s.channel[i + 1];
      assert Older(s.channel[0], s.channel[i + 1]);
    }
    forall i, j | 0 <= i < j < |s'.channel| ensures Older(s'.channel[i], s'.channel[j]) {
      assert Older(s.channel[i + 1], s.channel[j + 1]);
    }
  }

  /** A push on an accepted comm is never dropped as old. */
  lemma PushIsNew(s: State)
    requires Inv(s) && s.channel != [] && s.channel[0].Push? && s.channel[0].comm in s.kernel.accepted
    ensures s.kernel.lastSeq < s.channel[0].seqNo && s.kernel.past.epoch == s.channel[0].comm.epoch
  {
    assert AheadOf(s.kernel, s.closing, s.channel[0]);
  }

  lemma KernelFacts(s: State, registers: bool, k: Kernel)
    requires Inv(s) && s.channel != [] && k == Receive(s.kernel, s.channel[0], registers)
    ensures StoreIs(k) && AcceptedOk(k) && PastOk(k)
  {
    var m := s.channel[0];
    assert SentBy(s.page, s.moment, m) && AheadOf(s.kernel, s.closing, m);
    assert FollowsAt(s.kernel.past.met, s.kernel.past.last, s.channel, 0);
    if m.Push? {
      forall p <- s.kernel.past.served ensures Before(p, m) {
        assert p in Counted(s.kernel.past);
      }
    }
    if m.Push? && m.comm in s.kernel.accepted {
      PushIsNew(s);
    }
  }

  lemma KernelAhead(s: State, registers: bool, s': State, m: Msg)
    requires Inv(s) && s.channel != [] && s' == Apply(s, KernelStep(registers))
    requires Older(s.channel[0], m) && AheadOf(s.kernel, s.closing, m)
    ensures AheadOf(s'.kernel, s'.closing, m)
  {
    var first := s.channel[0];
    if first.Push? && first.comm in s.kernel.accepted {
      PushIsNew(s);
    }
  }

  lemma KernelKnown(s: State, registers: bool, s': State)
    requires Inv(s) && s.channel != [] && s' == Apply(s, KernelStep(registers))
    ensures KnownTo(s'.kernel, s'.closing, s'.page, s'.moment)
  {
    var m := s.channel[0];
    assert SentBy(s.page, s.moment, m) && AheadOf(s.kernel, s.closing, m);
    if m.Push? && m.comm in s.kernel.accepted {
      PushIsNew(s);
    }
  }

  lemma KernelKeeps(s: State, registers: bool)
    requires Inv(s) && s.channel != []
    ensures Inv(Apply(s, KernelStep(registers)))
    ensures s.channel[0].Push? && s.channel[0].comm in s.kernel.accepted ==>
              Apply(s, KernelStep(registers)).kernel.store == Some(s.channel[0].moment)
  {
    var s' := Apply(s, KernelStep(registers));
    var m := s.channel[0];
    KernelFacts(s, registers, s'.kernel);
    forall x | Older(m, x) && AheadOf(s.kernel, s.closing, x) ensures AheadOf(s'.kernel, s'.closing, x) {
      KernelAhead(s, registers, s', x);
    }
    ChannelNext(s, s');
    KernelKnown(s, registers, s');
    if m.Push? && m.comm in s.kernel.accepted {
      PushIsNew(s);
    }
    FollowsNext(s, s');
  }

  /** To a new kernel, a message lost is a message not acted on. */
  lemma RestartedNext(k: Kernel, ch: seq<Msg>, n: nat)
    requires n < |ch|
    ensures Restarted(k, ch, n + 1) == Receive(Restarted(k, ch, n), ch[n], false)
  {
    assert Opened(ch, n + 1) == Opened(ch, n) + if ch[n].Open? then {ch[n].comm} else {};
    assert k.past.met + Opened(ch, n + 1) == k.past.met + Opened(ch, n) + if ch[n].Open? then {ch[n].comm} else {};
  }

  lemma FewerClosing(s: State, closing: set<Comm>)
    requires Inv(s) && closing <= s.closing
    ensures Inv(s.(closing := closing))
  {
    var s' := s.(closing := closing);
    forall i | 0 <= i < |s'.channel| ensures SentBy(s'.page, s'.moment, s'.channel[i]) && AheadOf(s'.kernel, s'.closing, s'.channel[i]) {
      assert SentBy(s.page, s.moment, s.channel[i]);
    }
    SameFollows(s, s');
  }

  /** The kernel is started anew before any message is lost. */
  lemma RestartedAtOnce(s: State)
    requires Inv(s)
    ensures Inv(s.(kernel := Restarted(s.kernel, s.channel, 0)))
  {
    var s' := s.(kernel := Restarted(s.kernel, s.channel, 0));
    assert s'.kernel.past.met == s.kernel.past.met;
    forall i | 0 <= i < |s'.channel| ensures SentBy(s'.page, s'.moment, s'.channel[i]) && AheadOf(s'.kernel, s'.closing, s'.channel[i]) {
      assert SentBy(s.page, s.moment, s.channel[i]);
    }
    forall j: nat | j < |s'.channel| ensures FollowsAt(s'.kernel.past.met, s'.kernel.past.last, s'.channel, j) {
      assert FollowsAt(s.kernel.past.met, s.kernel.past.last, s.channel, j);
    }
  }

  /** One message more is lost. */
  lemma LoseOne(s: State, n: nat, s1: State)
    requires n < |s.channel| && Inv(s1)
    requires s1 == s.(kernel := Restarted(s.kernel, s.channel, n), channel := s.channel[n..])
    ensures Inv(s.(kernel := Restarted(s.kernel, s.channel, n + 1), channel := s.channel[n + 1..]))
  {
    KernelKeeps(s1, false);
    RestartedNext(s.kernel, s.channel, n);
    FewerClosing(Apply(s1, KernelStep(false)), s.closing);
    assert s1.channel[1..] == s.channel[n + 1..] && s1.channel[0] == s.channel[n];
  }

  lemma {:induction false} RestartKeeps(s: State, n: nat)
    requires Inv(s) && n <= |s.channel|
    ensures Inv(s.(kernel := Restarted(s.kernel, s.channel, n), channel := s.channel[n..]))
  {
    if n == 0 {
      RestartedAtOnce(s);
      assert s.channel[0..] == s.channel;
    } else {
      RestartKeeps(s, n - 1);
      LoseOne(s, n - 1, s.(kernel := Restarted(s.kernel, s.channel, n - 1), channel := s.channel[n - 1..]));
    }
  }

  lemma ApplyKeeps(s: State, e: Event)
    requires Inv(s)
    ensures Inv(Apply(s, e))
  {
    match e
    case Edit =>
      LaterKeeps(s, s.page.(armed := true));
      MomentKeeps(s.(page := s.page.(armed := true)));
    case TimerFires(fault) => TimerKeeps(s, fault);
    case Schedule(fault) => ScheduleKeeps(s, fault);
    case SendRequest(run, silent) =>
      if run in s.page.pending {
        RequestKeeps(s, run, silent);
      }
    case KernelStep(registers) =>
      if s.channel != [] {
        KernelKeeps(s, registers);
      }
    case CloseArrives(comm) => CloseKeeps(s, comm);
    case KernelChanged => LaterKeeps(s, s.page.(comm := None));
    case Restart(lost) => RestartKeeps(s, if lost <= |s.channel| then lost else |s.channel|);
    case Reload => ReloadKeeps(s);
  }

  lemma {:induction false} PlayKeeps(s: State, events: seq<Event>)
    requires Inv(s)
    ensures Inv(Play(s, events))
    decreases |events|
  {
    if events != [] {
      ApplyKeeps(s, events[0]);
      PlayKeeps(Apply(s, events[0]), events[1..]);
    }
  }

  // ---- What a run finds when the kernel starts it ------------------------

  lemma HeadCarries(s: State)
    requires Inv(s) && s.channel != [] && s.channel[0].Exec?
    ensures s.channel[0].last == s.kernel.past.last
  {
    assert FollowsAt(s.kernel.past.met, s.kernel.past.last, s.channel, 0);
  }

  /** What the request the kernel starts next finds. */
  lemma HeadFinds(s: State)
    requires Inv(s) && s.channel != [] && s.channel[0].Exec?
    ensures var last := s.channel[0].last;
            && s.kernel.store == (if last.Some? && last.value.comm in s.kernel.accepted then Some(last.value.moment) else None)
            && (s.channel[0].run in s.kernel.past.landed && last.Some? ==>
                  last.value.comm in s.kernel.accepted && last.value.moment >= s.channel[0].run.moment)
  {
    HeadCarries(s);
  }

  /**
   * In every run of the system, what any execution is served: the push sent last before its request,
   * no open and no request that is not silent being sent between, provided its comm is one the
   * kernel has accepted; and nothing otherwise. So it is served older text than the cells held when
   * it was scheduled exactly when that push was sent earlier on an accepted comm.
   */
  lemma RunFinds(events: seq<Event>, s: State, run: Run, silent: bool, last: Option<Pushed>)
    requires s == Play(START, events) && s.channel != [] && s.channel[0] == Exec(run, silent, last)
    ensures s.kernel.store ==
              if last.Some? && last.value.comm in s.kernel.accepted then Some(last.value.moment) else None
    ensures s.kernel.store.Some? && s.kernel.store.value < run.moment <==>
              last.Some? && last.value.comm in s.kernel.accepted && last.value.moment < run.moment
  {
    PlayKeeps(START, events);
    HeadFinds(s);
  }

  /**
   * When the run's flush came in on an accepted comm, what it finds is known to the page that sends
   * the request: nothing exactly when an open or another request that is not silent was sent
   * since the last push, and otherwise that push, never older than the run.
   */
  lemma RunIsNotStale(events: seq<Event>, s: State, run: Run, silent: bool, last: Option<Pushed>)
    requires s == Play(START, events) && s.channel != [] && s.channel[0] == Exec(run, silent, last)
    requires run in s.kernel.past.landed
    ensures s.kernel.store == if last.Some? then Some(last.value.moment) else None
    ensures s.kernel.store.Some? ==> s.kernel.store.value >= run.moment
  {
    PlayKeeps(START, events);
    HeadFinds(s);
  }

  /** A close that arrives, however late, never drops a comm the kernel accepted, nor any comm but its own. */
  lemma LateCloseIsHarmless(events: seq<Event>, s: State, comm: Comm)
    requires s == Play(START, events)
    ensures s.page.comm.Some? && s.page.comm.value in s.kernel.accepted ==> Apply(s, CloseArrives(comm)).page.comm == s.page.comm
    ensures s.page.comm != Some(comm) ==> Apply(s, CloseArrives(comm)).page.comm == s.page.comm
  {
    PlayKeeps(START, events);
    CloseKeeps(s, comm);
  }

  /** An execution that is served is served what its request carries, which has served no other. */
  lemma Serving(s: State, registers: bool)
    requires Inv(s) && s.channel != [] && s.channel[0].Exec? && s.kernel.store.Some?
    ensures s.channel[0].last.Some? && s.kernel.store.value == s.channel[0].last.value.moment
    ensures s.channel[0].last.value !in s.kernel.past.served
    ensures !s.channel[0].silent ==> s.channel[0].last.value in Apply(s, KernelStep(registers)).kernel.past.served
  {
    HeadCarries(s);
  }

  lemma ServedStays(s: State, e: Event)
    ensures s.kernel.past.served <= Apply(s, e).kernel.past.served
  {
  }

  lemma {:induction false} ServedStaysAll(s: State, events: seq<Event>)
    ensures s.kernel.past.served <= Play(s, events).kernel.past.served
    decreases |events|
  {
    if events != [] {
      ServedStays(s, events[0]);
      ServedStaysAll(Apply(s, events[0]), events[1..]);
    }
  }

  /**
   * A snapshot serves one execution that is not silent: whatever follows, kernel restarts included,
   * no execution, silent or not, is served the same push again.
   */
  lemma ServedOnce(before: seq<Event>, after: seq<Event>, registers: bool, s: State, t: State)
    requires s == Play(START, before) && s.channel != [] && s.channel[0].Exec? && !s.channel[0].silent
    requires t == Play(Apply(s, KernelStep(registers)), after) && t.channel != [] && t.channel[0].Exec?
    requires s.kernel.store.Some? && t.kernel.store.Some?
    ensures s.channel[0].last.Some? && t.channel[0].last.Some? && s.channel[0].last != t.channel[0].last
    ensures s.kernel.store.value == s.channel[0].last.value.moment && t.kernel.store.value == t.channel[0].last.value.moment
  {
    var s' := Apply(s, KernelStep(registers));
    PlayKeeps(START, before);
    Serving(s, registers);
    KernelKeeps(s, registers);
    PlayKeeps(s', after);
    Serving(t, registers);
    ServedStaysAll(s', after);
  }

  // ---- When a flush lands ------------------------------------------------

  ghost predicate Comes(s: State, run: Run, n: int)
  {
    && 0 <= n < |s.channel| && s.channel[n].Push? && s.channel[n].flush == Some(run)
    && (s.channel[n].comm in s.kernel.accepted || Opens(s.channel, n, s.channel[n].comm))
  }

  /** The run's flush has landed, or is on its way on a comm that is accepted or will be. */
  ghost predicate WillLand(s: State, run: Run)
  {
    s.kernel.registered && (run in s.kernel.past.landed || exists n :: Comes(s, run, n))
  }

  lemma ComesNext(s: State, run: Run, n: int, registers: bool)
    requires s.kernel.registered && Comes(s, run, n)
    ensures WillLand(Apply(s, KernelStep(registers)), run)
  {
    var s' := Apply(s, KernelStep(registers));
    if n > 0 {
      var c := s.channel[n].comm;
      assert s'.channel[n - 1] == s.channel[n];
      if c !in s'.kernel.accepted {
        var i :| 0 <= i < n && i < |s.channel| && s.channel[i] == Open(c);
        assert i > 0;
        assert s'.channel[i - 1] == Open(c);
      }
      assert Comes(s', run, n - 1);
    }
  }

  lemma ComesMore(s: State, s': State, run: Run, n: int)
    requires Comes(s, run, n) && s.kernel.accepted <= s'.kernel.accepted
    requires |s.channel| <= |s'.channel| && s'.channel[..|s.channel|] == s.channel
    ensures Comes(s', run, n)
  {
    forall i | 0 <= i < |s.channel| ensures s'.channel[i] == s.channel[i] {
      assert s'.channel[..|s.channel|][i] == s'.channel[i];
    }
    var c := s.channel[n].comm;
    if c !in s.kernel.accepted {
      var i :| 0 <= i < n && i < |s.channel| && s.channel[i] == Open(c);
      assert s'.channel[i] == Open(c);
    }
  }

  lemma WillLandKeeps(s: State, e: Event, run: Run)
    requires WillLand(s, run) && !e.Restart?
    ensures WillLand(Apply(s, e), run)
  {
    var s' := Apply(s, e);
    if run !in s.kernel.past.landed {
      var n :| Comes(s, run, n);
      if e.KernelStep? {
        ComesNext(s, run, n, e.registers);
      } else {
        assert s'.channel[..|s.channel|] == s.channel;
        ComesMore(s, s', run, n);
      }
    }
  }

  lemma {:induction false} WillLandPlays(s: State, events: seq<Event>, run: Run)
    requires WillLand(s, run) && forall e <- events :: !e.Restart?
    ensures WillLand(Play(s, events), run)
    decreases |events|
  {
    if events != [] {
      assert events[0] in events;
      WillLandKeeps(s, events[0], run);
      WillLandPlays(Apply(s, events[0]), events[1..], run);
    }
  }

  /** A comm the page holds that the kernel has accepted, or will: cash is imported and no open of it is lost. */
  ghost predicate Sound(s: State)
  {
    s.kernel.registered &&
    (s.page.comm.Some? ==> s.page.comm.value in s.kernel.accepted || Opens(s.channel, |s.channel|, s.page.comm.value))
  }

  lemma ScheduledWillLand(s: State)
    requires Sound(s)
    ensures WillLand(Apply(s, Schedule(NoFault)), Run(s.page.runs, s.moment))
  {
    var s' := Apply(s, Schedule(NoFault));
    var run := Run(s.page.runs, s.moment);
    var n := |s'.channel| - 1;
    if s.page.comm.Some? {
      var c := s.page.comm.value;
      if c !in s.kernel.accepted {
        var i :| 0 <= i < |s.channel| && s.channel[i] == Open(c);
        assert s'.channel[i] == Open(c);
      }
    } else {
      assert s'.channel[n - 1] == Open(s'.channel[n].comm);
    }
    assert Comes(s', run, n);
  }

  lemma FlushIsBefore(t: State, run: Run)
    requires Inv(t) && t.channel != [] && t.channel[0].Exec? && t.channel[0].run == run
    ensures forall n: int :: !Comes(t, run, n)
  {
    forall n | 0 <= n < |t.channel| && t.channel[n].Push? ensures t.channel[n].flush != Some(run) {
      assert Older(t.channel[0], t.channel[n]);
    }
  }

  /**
   * Edit, then run at once: once cash is imported, a run scheduled over a comm that is missing or
   * not refused finds the push sent last before its request, never older than its own snapshot;
   * or nothing, when an open or another request went out since. So it is whatever happens meanwhile
   * short of a kernel restart.
   */
  lemma EditThenRun(before: seq<Event>, after: seq<Event>, s: State, t: State, run: Run, silent: bool, last: Option<Pushed>)
    requires s == Play(START, before) && Sound(s) && run == Run(s.page.runs, s.moment)
    requires t == Play(Apply(s, Schedule(NoFault)), after) && forall e <- after :: !e.Restart?
    requires t.channel != [] && t.channel[0] == Exec(run, silent, last)
    ensures t.kernel.store == if last.Some? then Some(last.value.moment) else None
    ensures t.kernel.store.Some? ==> t.kernel.store.value >= run.moment
  {
    PlayKeeps(START, before);
    ApplyKeeps(s, Schedule(NoFault));
    ScheduledWillLand(s);
    PlayKeeps(Apply(s, Schedule(NoFault)), after);
    WillLandPlays(Apply(s, Schedule(NoFault)), after, run);
    FlushIsBefore(t, run);
    HeadFinds(t);
  }

  // ---- What the two conditions are for -----------------------------------

  lemma {:induction false} PlaySnoc(s: State, events: seq<Event>, e: Event)
    ensures Play(s, events + [e]) == Apply(Play(s, events), e)
    decreases |events|
  {
    if events == [] {
      assert Play(Apply(s, e), []) == Apply(s, e);
      assert [e][1..] == [];
    } else {
      assert (events + [e])[1..] == events[1..] + [e];
      PlaySnoc(Apply(s, events[0]), events[1..], e);
    }
  }

  ghost predicate Reachable(s: State)
  {
    exists events: seq<Event> :: Play(START, events) == s
  }

  lemma ReachNext(s: State, e: Event)
    requires Reachable(s)
    ensures Reachable(Apply(s, e))
  {
    var events: seq<Event> :| Play(START, events) == s;
    PlaySnoc(START, events, e);
  }

  /** A state in which cash is imported and the page has no comm: the first open was refused and its close has come. */
  lemma Imported() returns (s: State)
    ensures Reachable(s)
    ensures s == State(Page(0, 1, None, 1, false, {}, 1), [],
                       Kernel(true, {}, None, -1, Past({}, 0, 0, {Comm(0, 0)}, None, None, {})), {}, 0, None)
  {
    assert Play(START, []) == START;
    ReachNext(START, Schedule(NoFault));
    var s1 := Apply(START, Schedule(NoFault));
    var r0 := Run(0, 0);
    assert s1.channel == [Open(Comm(0, 0)), Push(Comm(0, 0), 1, 0, Some(r0))];
    var was := Some(Pushed(Comm(0, 0), 1, 0));
    LastOfTwo(None, Open(Comm(0, 0)), Push(Comm(0, 0), 1, 0, Some(r0)));
    assert s1.last == was;
    var e0 := Exec(r0, false, was);
    ReachNext(s1, SendRequest(r0, false));
    var s2 := Apply(s1, SendRequest(r0, false));
    LastOfOne(was, e0);
    assert s2.channel == [Open(Comm(0, 0)), Push(Comm(0, 0), 1, 0, Some(r0)), e0];
    assert s2.page.pending == {} && s2.last == None;
    var step := KernelStep(true);
    ReachNext(s2, step);
    var s3 := Apply(s2, step);
    assert s3.channel == [Push(Comm(0, 0), 1, 0, Some(r0)), e0];
    ReachNext(s3, step);
    var s4 := Apply(s3, step);
    assert s4.channel == [e0];
    ReachNext(s4, step);
    var s5 := Apply(s4, step);
    assert s5.channel == [];
    ReachNext(s5, CloseArrives(Comm(0, 0)));
    s := Apply(s5, CloseArrives(Comm(0, 0)));
    assert s.closing == {};
  }

  /** The first run after the import is flushed on a comm of its own. */
  lemma OneFlushed(c: Comm, r1: Run) returns (s: State)
    requires c == Comm(0, 1) && r1 == Run(1, 0)
    ensures Reachable(s) && s.kernel.registered && s.kernel.accepted == {} && s.kernel.past.landed == {} && s.kernel.lastSeq == -1
    ensures s.channel == [Open(c), Push(c, 2, 0, Some(r1))] && s.last == Some(Pushed(c, 2, 0))
    ensures s.page == Page(0, 2, Some(c), 2, false, {r1}, 2) && s.moment == 0
  {
    var s0 := Imported();
    ReachNext(s0, Schedule(NoFault));
    s := Apply(s0, Schedule(NoFault));
    LastOfTwo(None, Open(c), Push(c, 2, 0, Some(r1)));
    assert s.channel == [Open(c), Push(c, 2, 0, Some(r1))] && s.page.pending == {r1};
  }

  /** Two runs are flushed before the first request leaves: the second request carries no push. */
  lemma TwoFlushed(c: Comm, r1: Run, r2: Run, was: Pushed) returns (s: State)
    requires c == Comm(0, 1) && r1 == Run(1, 0) && r2 == Run(2, 0) && was == Pushed(c, 3, 0)
    ensures Reachable(s) && s.kernel.registered && s.kernel.accepted == {} && s.kernel.lastSeq == -1
    ensures s.channel ==
              [Open(c), Push(c, 2, 0, Some(r1)), Push(c, 3, 0, Some(r2)), Exec(r1, false, Some(was)), Exec(r2, false, None)]
  {
    var s1 := OneFlushed(c, r1);
    ReachNext(s1, Schedule(NoFault));
    var s2 := Apply(s1, Schedule(NoFault));
    LastOfOne(s1.last, Push(c, 3, 0, Some(r2)));
    assert s2.channel == [Open(c), Push(c, 2, 0, Some(r1)), Push(c, 3, 0, Some(r2))] && s2.page.pending == {r1, r2};
    ReachNext(s2, SendRequest(r1, false));
    var s3 := Apply(s2, SendRequest(r1, false));
    LastOfOne(Some(was), Exec(r1, false, Some(was)));
    assert s3.page.pending == {r2} && s3.last == None;
    ReachNext(s3, SendRequest(r2, false));
    s := Apply(s3, SendRequest(r2, false));
  }

  /** The kernel takes a message, and the rest of the channel is left. */
  lemma Take(s: State, m: Msg, rest: seq<Msg>) returns (s': State)
    requires Reachable(s) && s.channel == [m] + rest
    ensures Reachable(s') && s'.channel == rest && s'.page == s.page
    ensures s'.kernel == Receive(s.kernel, m, false)
  {
    ReachNext(s, KernelStep(false));
    s' := Apply(s, KernelStep(false));
  }

  /** The first execution uses up both snapshots: the second run finds none, though its flush has landed. */
  lemma SecondRunFallsBack() returns (s: State, run: Run)
    ensures Reachable(s) && s.channel != [] && s.channel[0] == Exec(run, false, None) && run in s.kernel.past.landed
    ensures s.kernel.store.None?
  {
    var c := Comm(0, 1);
    var r1, r2 := Run(1, 0), Run(2, 0);
    var was := Pushed(c, 3, 0);
    run := r2;
    var e1, e2 := Exec(r1, false, Some(was)), Exec(r2, false, None);
    s := TwoFlushed(c, r1, r2, was);
    s := Take(s, Open(c), [Push(c, 2, 0, Some(r1)), Push(c, 3, 0, Some(r2)), e1, e2]);
    s := Take(s, Push(c, 2, 0, Some(r1)), [Push(c, 3, 0, Some(r2)), e1, e2]);
    s := Take(s, Push(c, 3, 0, Some(r2)), [e1, e2]);
    s := Take(s, e1, [e2]);
  }

  /** A flush that throws leaves an earlier push in the store: the run is served older text. */
  lemma FailedFlushIsStale() returns (s: State, run: Run)
    ensures Reachable(s) && s.channel != [] && s.channel[0].Exec? && s.channel[0].run == run && run !in s.kernel.past.landed
    ensures s.kernel.store.Some? && s.kernel.store.value < run.moment
  {
    var c := Comm(0, 1);
    var r1, r2 := Run(1, 0), Run(2, 1);
    run := r2;
    var s1 := OneFlushed(c, r1);
    ReachNext(s1, Edit);
    var s2 := Apply(s1, Edit);
    ReachNext(s2, Schedule(AtSend));
    var s3 := Apply(s2, Schedule(AtSend));
    assert s3.channel == [Open(c), Push(c, 2, 0, Some(r1))] && s3.page.pending == {r1, r2};
    ReachNext(s3, SendRequest(r2, false));
    var s4 := Apply(s3, SendRequest(r2, false));
    var e2 := Exec(r2, false, s3.last);
    assert s4.channel == [Open(c), Push(c, 2, 0, Some(r1)), e2];
    s := Take(s4, Open(c), [Push(c, 2, 0, Some(r1)), e2]);
    s := Take(s, Push(c, 2, 0, Some(r1)), [e2]);
  }

  // ---- The handlers, as they change the session --------------------------

  /** The page's and the kernel's state, changed in place by one event at a time. */
  class Session {
    var page: Page
    var channel: seq<Msg>
    var kernel: Kernel
    var closing: set<Comm>
    var moment: nat
    var last: Option<Pushed>

    ghost function Now(): State
      reads this
    {
      State(page, channel, kernel, closing, moment, last)
    }

    ghost predicate Valid()
      reads this
    {
      Inv(Now())
    }

    constructor ()
      ensures Now() == START && Valid()
    {
      page, channel, kernel, closing, moment, last := START.page, [], NEW_KERNEL, {}, 0, None;
    }

    method ContentChanged()
      requires Valid()
      modifies this`moment, this`page
      ensures Valid() && Now() == Apply(old(Now()), Edit)
    {
      ApplyKeeps(Now(), Edit);
      moment := moment + 1;
      page := page.(armed := true);
    }

    /** A message goes down the shell channel. */
    method Post(m: Msg)
      modifies this`channel, this`last
      ensures Now() == Put(old(Now()), page, [m])
    {
      channel := channel + [m];
      LastOfOne(last, m);
      last := After(last, m);
    }

    /** `send(panel, allowOpen)`. */
    method SendSnapshot(allowOpen: bool, fault: Fault, flush: Option<Run>)
      modifies this`page, this`channel, this`last
      ensures var sent := Send(old(page), moment, allowOpen, fault, flush);
              Now() == Put(old(Now()), sent.page, sent.messages)
    {
      ghost var s := Now();
      PutNone(s, page);
      if fault == NoKernel {
        return;
      }
      var comm := page.comm;
      if comm.None? {
        if !allowOpen {
          return;
        }
        comm := Some(Comm(page.epoch, page.created));
        page := page.(created := page.created + 1);
        PutNone(s, page);
        if fault == AtOpen {
          return;
        }
        Post(Open(comm.value));
        page := page.(comm := comm);
      }
      page := page.(seqNo := page.seqNo + 1);
      if fault == AtSend {
        page := page.(comm := None);
        PutNone(s, page);
        return;
      }
      var m := Push(comm.value, page.seqNo, moment, flush);
      PutTwo(s, page, page, Open(comm.value), m);
      Post(m);
      assert [Open(comm.value)] + [m] == [Open(comm.value), m];
    }

    method TimerFired(fault: Fault)
      requires Valid()
      modifies this`page, this`channel, this`last
      ensures Valid() && Now() == Apply(old(Now()), TimerFires(fault))
    {
      ApplyKeeps(Now(), TimerFires(fault));
      if page.armed {
        page := page.(armed := false);
        SendSnapshot(false, fault, None);
      }
    }

    method ExecutionScheduled(fault: Fault) returns (run: Run)
      requires Valid()
      modifies this`page, this`channel, this`last
      ensures Valid() && Now() == Apply(old(Now()), Schedule(fault)) && run in page.pending && run.moment == moment
    {
      ghost var next := Apply(Now(), Schedule(fault));
      ApplyKeeps(Now(), Schedule(fault));
      run := Run(page.runs, moment);
      page := page.(runs := page.runs + 1, pending := page.pending + {run});
      SendSnapshot(true, fault, Some(run));
      assert Now() == next;
    }

    /** The kernel takes the next message; for a request, `found` is what `latest_cells` gives it. */
    method Receives(registers: bool) returns (found: Option<nat>)
      requires Valid() && channel != []
      modifies this`channel, this`kernel, this`closing
      ensures Valid() && Now() == Apply(old(Now()), KernelStep(registers))
      ensures old(channel)[0].Exec? ==>
                var last := old(channel)[0].last;
                && found == (if last.Some? && last.value.comm in old(kernel).accepted then Some(last.value.moment) else None)
                && (old(channel)[0].run in old(kernel).past.landed ==>
                      found.Some? == last.Some? && (found.Some? ==> found.value >= old(channel)[0].run.moment))
    {
      ghost var next := Apply(Now(), KernelStep(registers));
      KernelKeeps(Now(), registers);
      if channel[0].Exec? {
        HeadFinds(Now());
      }
      found := kernel.store;
      var m := channel[0];
      channel := channel[1..];
      if Refuses(kernel, m) {
        closing := closing + {m.comm};
      }
      kernel := Receive(kernel, m, registers);
      assert Now() == next;
    }

    /** `onClose`, with its identity check. */
    method Closed(comm: Comm)
      requires Valid() && comm in closing
      modifies this`page, this`closing
      ensures Valid() && Now() == Apply(old(Now()), CloseArrives(comm))
      ensures old(page).comm.Some? && old(page).comm.value in kernel.accepted ==> page.comm == old(page).comm
    {
      CloseKeeps(Now(), comm);
      closing := closing - {comm};
      if page.comm == Some(comm) {
        page := page.(comm := None);
      }
    }

    method RequestLeaves(run: Run, silent: bool)
      requires Valid() && run in page.pending
      modifies this`page, this`channel, this`last
      ensures Valid() && Now() == Apply(old(Now()), SendRequest(run, silent))
    {
      ApplyKeeps(Now(), SendRequest(run, silent));
      page := page.(pending := page.pending - {run});
      Post(Exec(run, silent, last));
    }

    method KernelWasChanged()
      requires Valid()
      modifies this`page
      ensures Valid() && Now() == Apply(old(Now()), KernelChanged)
    {
      ApplyKeeps(Now(), KernelChanged);
      page := page.(comm := None);
    }

    method PageReloaded()
      requires Valid()
      modifies this`page, this`moment
      ensures Valid() && Now() == Apply(old(Now()), Reload)
    {
      ApplyKeeps(Now(), Reload);
      moment := moment + 1;
      page := Page(page.epoch + 1, 0, None, 0, false, {}, page.runs);
    }
  }
}
