/**
 * Lineage keys (`benchmarks/eviction_sim/workload.py`, lines 133-142 and 296-302): a statement's key
 * is the hash of its id, its version and the keys of its inputs, kept in a memo that every edit
 * clears.
 */
module Lineage {
  /** For each statement the earlier statements it reads. */
  type Graph = seq<seq<nat>>

  ghost predicate GraphOk(g: Graph)
  {
    forall sid, i | 0 <= sid < |g| && 0 <= i < |g[sid]| :: g[sid][i] < sid
  }

  /** The hash of `(sid, version, input keys)`. */
  type Hash = (nat, nat, seq<int>) -> int

  ghost predicate Injective(hash: Hash)
  {
    forall a: nat, v: nat, k: seq<int>, b: nat, w: nat, l: seq<int> {:trigger hash(a, v, k), hash(b, w, l)} |
      hash(a, v, k) == hash(b, w, l) :: a == b && v == w && k == l
  }

  /** The key of a statement, without the memo. */
  function Key(hash: Hash, g: Graph, vers: seq<nat>, sid: nat): int
    requires GraphOk(g) && |vers| == |g| && sid < |g|
    decreases sid, |g[sid]| + 1
  {
    hash(sid, vers[sid], InputKeys(hash, g, vers, sid, |g[sid]|))
  }

  /** The keys of the first `n` inputs. */
  function InputKeys(hash: Hash, g: Graph, vers: seq<nat>, sid: nat, n: nat): (r: seq<int>)
    requires GraphOk(g) && |vers| == |g| && sid < |g| && n <= |g[sid]|
    ensures |r| == n && forall i | 0 <= i < n :: r[i] == Key(hash, g, vers, g[sid][i])
    decreases sid, n
  {
    if n == 0 then [] else InputKeys(hash, g, vers, sid, n - 1) + [Key(hash, g, vers, g[sid][n - 1])]
  }

  /** `a` is `sid` or one of its transitive inputs. */
  ghost predicate Upstream(g: Graph, a: nat, sid: nat)
    requires GraphOk(g) && sid < |g|
  {
    a == sid || exists i :: 0 <= i < |g[sid]| && Upstream(g, a, g[sid][i])
  }

  ghost predicate AgreeUpstream(g: Graph, v: seq<nat>, w: seq<nat>, sid: nat)
    requires GraphOk(g) && |v| == |w| == |g| && sid < |g|
  {
    forall a: nat | a < |g| && Upstream(g, a, sid) :: v[a] == w[a]
  }

  lemma AgreeBelow(g: Graph, v: seq<nat>, w: seq<nat>, sid: nat, i: nat)
    requires GraphOk(g) && |v| == |w| == |g| && sid < |g| && i < |g[sid]| && AgreeUpstream(g, v, w, sid)
    ensures AgreeUpstream(g, v, w, g[sid][i])
  {
    forall a: nat | a < |g| && Upstream(g, a, g[sid][i]) ensures v[a] == w[a] {
      assert Upstream(g, a, sid);
    }
  }

  lemma {:induction false} AgreeSameKey(hash: Hash, g: Graph, v: seq<nat>, w: seq<nat>, sid: nat)
    requires GraphOk(g) && |v| == |w| == |g| && sid < |g| && AgreeUpstream(g, v, w, sid)
    ensures Key(hash, g, v, sid) == Key(hash, g, w, sid)
    decreases sid
  {
    assert Upstream(g, sid, sid);
    var n := |g[sid]|;
    forall i | 0 <= i < n ensures Key(hash, g, v, g[sid][i]) == Key(hash, g, w, g[sid][i]) {
      AgreeBelow(g, v, w, sid, i);
      AgreeSameKey(hash, g, v, w, g[sid][i]);
    }
    assert InputKeys(hash, g, v, sid, n) == InputKeys(hash, g, w, sid, n);
  }

  lemma {:induction false} SameKeyAgrees(hash: Hash, g: Graph, v: seq<nat>, w: seq<nat>, sid: nat, a: nat)
    requires Injective(hash) && GraphOk(g) && |v| == |w| == |g| && sid < |g| && a < |g|
    requires Key(hash, g, v, sid) == Key(hash, g, w, sid) && Upstream(g, a, sid)
    ensures v[a] == w[a]
    decreases sid
  {
    if a != sid {
      var i :| 0 <= i < |g[sid]| && Upstream(g, a, g[sid][i]);
      var n := |g[sid]|;
      assert InputKeys(hash, g, v, sid, n)[i] == InputKeys(hash, g, w, sid, n)[i];
      SameKeyAgrees(hash, g, v, w, g[sid][i], a);
    }
  }

  /**
   * Keys are equal exactly for the same statement with the same versions of it and of all its
   * transitive inputs.
   */
  lemma KeysAreLineage(hash: Hash, g: Graph, v: seq<nat>, w: seq<nat>, sid: nat, tid: nat)
    requires Injective(hash) && GraphOk(g) && |v| == |w| == |g| && sid < |g| && tid < |g|
    ensures Key(hash, g, v, sid) == Key(hash, g, w, tid) <==> sid == tid && AgreeUpstream(g, v, w, sid)
  {
    if Key(hash, g, v, sid) == Key(hash, g, w, tid) {
      assert sid == tid;
      forall a: nat | a < |g| && Upstream(g, a, sid) ensures v[a] == w[a] {
        SameKeyAgrees(hash, g, v, w, sid, a);
      }
    }
    if sid == tid && AgreeUpstream(g, v, w, sid) {
      AgreeSameKey(hash, g, v, w, sid);
    }
  }

  /** An edit changes exactly the keys of the edited statement and its transitive dependents. */
  lemma EditChangesDependents(hash: Hash, g: Graph, v: seq<nat>, e: nat, version: nat, sid: nat)
    requires Injective(hash) && GraphOk(g) && |v| == |g| && e < |g| && sid < |g| && version != v[e]
    ensures Key(hash, g, v[e := version], sid) != Key(hash, g, v, sid) <==> Upstream(g, e, sid)
  {
    KeysAreLineage(hash, g, v[e := version], v, sid, sid);
    assert AgreeUpstream(g, v[e := version], v, sid) <==> !Upstream(g, e, sid) by {
      assert v[e := version][e] != v[e];
    }
  }

  /**
   * Undoing the edit of a statement, whatever else was edited meanwhile, brings a key back exactly when
   * no other transitive input of its statement differs.
   */
  lemma UndoRestores(hash: Hash, g: Graph, v: seq<nat>, w: seq<nat>, e: nat, sid: nat)
    requires Injective(hash) && GraphOk(g) && |v| == |w| == |g| && e < |g| && sid < |g|
    ensures Key(hash, g, w[e := v[e]], sid) == Key(hash, g, v, sid) <==>
              forall a: nat | a < |g| && a != e && Upstream(g, a, sid) :: w[a] == v[a]
  {
    var undone := w[e := v[e]];
    KeysAreLineage(hash, g, undone, v, sid, sid);
    forall a: nat | a < |g| ensures undone[a] == if a == e then v[a] else w[a] {
    }
  }

  // ---- What a key stands for ---------------------------------------------

  /** What a statement computes, from its version and what its inputs computed. */
  ghost function Computed<T>(run: (nat, nat, seq<T>) -> T, g: Graph, vers: seq<nat>, sid: nat): T
    requires GraphOk(g) && |vers| == |g| && sid < |g|
    decreases sid
  {
    run(sid, vers[sid], seq(|g[sid]|, i requires 0 <= i < |g[sid]| => Computed(run, g, vers, g[sid][i])))
  }

  lemma {:induction false} AgreeSameResult<T>(run: (nat, nat, seq<T>) -> T, g: Graph, v: seq<nat>, w: seq<nat>, sid: nat)
    requires GraphOk(g) && |v| == |w| == |g| && sid < |g| && AgreeUpstream(g, v, w, sid)
    ensures Computed(run, g, v, sid) == Computed(run, g, w, sid)
    decreases sid
  {
    assert Upstream(g, sid, sid);
    var n := |g[sid]|;
    forall i | 0 <= i < n ensures Computed(run, g, v, g[sid][i]) == Computed(run, g, w, g[sid][i]) {
      AgreeBelow(g, v, w, sid, i);
      AgreeSameResult(run, g, v, w, g[sid][i]);
    }
    assert seq(n, i requires 0 <= i < n => Computed(run, g, v, g[sid][i]))
        == seq(n, i requires 0 <= i < n => Computed(run, g, w, g[sid][i]));
  }

  /** Caching by key is sound: under one key a statement always computes the same, whatever it computes. */
  lemma SameKeySameResult<T>(
    hash: Hash, run: (nat, nat, seq<T>) -> T, g: Graph, v: seq<nat>, w: seq<nat>, sid: nat, tid: nat)
    requires Injective(hash) && GraphOk(g) && |v| == |w| == |g| && sid < |g| && tid < |g|
    requires Key(hash, g, v, sid) == Key(hash, g, w, tid)
    ensures sid == tid && Computed(run, g, v, sid) == Computed(run, g, w, tid)
  {
    KeysAreLineage(hash, g, v, w, sid, tid);
    AgreeSameResult(run, g, v, w, sid);
  }

  // ---- The project -------------------------------------------------------

  function Max(s: seq<nat>): (m: nat)
    requires s != []
    ensures m in s && forall x <- s :: x <= m
  {
    if |s| == 1 then s[0]
    else
      assert s == [s[0]] + s[1..];
      var rest := Max(s[1..]);
      if s[0] >= rest then s[0] else rest
  }

  /** The versions a statement had, the current one last. */
  ghost predicate HistoriesOk(histories: seq<seq<nat>>, vers: seq<nat>)
  {
    && |histories| == |vers|
    && forall sid | 0 <= sid < |vers| :: histories[sid] != [] && histories[sid][|histories[sid]| - 1] == vers[sid]
  }

  /** `past` is a choice of versions the statements had at some time. */
  ghost predicate WasOnce(histories: seq<seq<nat>>, past: seq<nat>)
  {
    |past| == |histories| && forall sid | 0 <= sid < |past| :: past[sid] in histories[sid]
  }

  /** The versions of all statements, and the versions they had. */
  datatype Versions = Versions(vers: seq<nat>, histories: seq<seq<nat>>)

  /** Every statement has its first version. */
  function Fresh(n: nat): (v: Versions)
    ensures |v.vers| == n && HistoriesOk(v.histories, v.vers) && forall i | 0 <= i < n :: v.vers[i] == 0
  {
    Versions(seq(n, i => 0), seq(n, i => [0]))
  }

  class Project {
    const hash: Hash
    const graph: Graph
    var vers: seq<nat>
    var histories: seq<seq<nat>>
    var keyCache: map<nat, int>

    ghost predicate Sound()
      reads this
    {
      GraphOk(graph) && |vers| == |graph| && HistoriesOk(histories, vers)
    }

    /** Every key in the memo is the recursive one. */
    ghost predicate Valid()
      reads this
    {
      Sound() && forall sid <- keyCache :: sid < |graph| && keyCache[sid] == Key(hash, graph, vers, sid)
    }

    constructor (hash: Hash, graph: Graph)
      requires GraphOk(graph)
      ensures Valid() && this.hash == hash && this.graph == graph && Versions(vers, histories) == Fresh(|graph|)
      ensures keyCache == map[]
    {
      this.hash, this.graph := hash, graph;
      vers := Fresh(|graph|).vers;
      histories := Fresh(|graph|).histories;
      keyCache := map[];
    }

    /** `key`: memoised, and still the recursive key. */
    method KeyOf(sid: nat) returns (k: int)
      requires Valid() && sid < |graph|
      modifies this`keyCache
      ensures Valid() && k == Key(hash, graph, vers, sid)
      decreases sid
    {
      if sid in keyCache {
        return keyCache[sid];
      }
      var keys := [];
      var inputs := graph[sid];
      for i := 0 to |inputs|
        invariant Valid() && keys == InputKeys(hash, graph, vers, sid, i)
      {
        var key := KeyOf(inputs[i]);
        keys := keys + [key];
      }
      k := hash(sid, vers[sid], keys);
      keyCache := keyCache[sid := k];
    }

    method InvalidateKeys()
      requires Sound()
      modifies this`keyCache
      ensures Valid()
    {
      keyCache := map[];
    }

    /** A new version, above every one the statement had; the memo is cleared after it. */
    method Edit(sid: nat)
      requires Valid() && sid < |graph|
      modifies this`vers, this`histories, this`keyCache
      ensures Valid() && vers == old(vers)[sid := Max(old(histories)[sid]) + 1] && vers[sid] !in old(histories)[sid]
      ensures histories == old(histories)[sid := old(histories)[sid] + [vers[sid]]]
      ensures Injective(hash) ==> forall t: nat | t < |graph| ::
                Key(hash, graph, vers, t) != Key(hash, graph, old(vers), t) <==> Upstream(graph, sid, t)
    {
      var version := Max(histories[sid]) + 1;
      ghost var was := vers;
      assert was[sid] in histories[sid];
      vers := vers[sid := version];
      histories := histories[sid := histories[sid] + [version]];
      InvalidateKeys();
      if Injective(hash) {
        forall t: nat | t < |graph| ensures Key(hash, graph, vers, t) != Key(hash, graph, was, t) <==> Upstream(graph, sid, t) {
          EditChangesDependents(hash, graph, was, sid, version, t);
        }
      }
    }

    /** Back to the version before the current one, when there is one. */
    method Undo(sid: nat)
      requires Valid() && sid < |graph| && |histories[sid]| > 1
      modifies this`vers, this`histories, this`keyCache
      ensures Valid() && vers == old(vers)[sid := old(histories)[sid][|old(histories)[sid]| - 2]]
      ensures histories == old(histories)[sid := old(histories)[sid] + [vers[sid]]]
    {
      var version := histories[sid][|histories[sid]| - 2];
      vers := vers[sid := version];
      histories := histories[sid := histories[sid] + [version]];
      InvalidateKeys();
    }
  }

  /** An edit followed by its undo brings back the key of every statement. */
  method EditThenUndo(p: Project, sid: nat)
    requires p.Valid() && sid < |p.graph|
    modifies p
    ensures p.Valid() && p.vers == old(p.vers)
    ensures forall t: nat | t < |p.graph| :: Key(p.hash, p.graph, p.vers, t) == Key(p.hash, p.graph, old(p.vers), t)
  {
    p.Edit(sid);
    p.Undo(sid);
    assert p.vers == old(p.vers);
  }

  // ---- Every run ---------------------------------------------------------

  datatype Step = Edits(sid: nat) | Undoes(sid: nat) | Asks(sid: nat)

  ghost predicate Within(steps: seq<Step>, n: nat)
  {
    forall i | 0 <= i < |steps| :: steps[i].sid < n
  }

  /** What a step makes of them, without any memo; with nothing to undo, it is an edit. */
  function Next(v: Versions, step: Step): Versions
    requires HistoriesOk(v.histories, v.vers) && step.sid < |v.vers|
  {
    var history := v.histories[step.sid];
    if step.Asks? then v
    else if step.Undoes? && |history| > 1 then WithVersion(v, step.sid, history[|history| - 2])
    else WithVersion(v, step.sid, Max(history) + 1)
  }

  function WithVersion(v: Versions, sid: nat, version: nat): Versions
    requires sid < |v.vers| == |v.histories|
  {
    Versions(v.vers[sid := version], v.histories[sid := v.histories[sid] + [version]])
  }

  ghost function After(n: nat, steps: seq<Step>, k: nat): (v: Versions)
    requires k <= |steps| && Within(steps, n)
    ensures |v.vers| == n && HistoriesOk(v.histories, v.vers)
  {
    if k == 0 then Fresh(n) else Next(After(n, steps, k - 1), steps[k - 1])
  }

  /** A key that was asked for is the recursive key of the versions at that moment. */
  ghost predicate Answered(hash: Hash, g: Graph, steps: seq<Step>, answers: seq<int>, k: nat)
    requires GraphOk(g) && k < |answers| <= |steps| && Within(steps, |g|)
  {
    steps[k].Asks? ==> answers[k] == Key(hash, g, After(|g|, steps, k).vers, steps[k].sid)
  }

  /** Every run of edits, undos and questions: each key answered from the memo is the recursive one. */
  method Run(hash: Hash, g: Graph, steps: seq<Step>) returns (p: Project, answers: seq<int>)
    requires GraphOk(g) && Within(steps, |g|)
    ensures fresh(p) && p.Valid() && p.vers == After(|g|, steps, |steps|).vers
    ensures |answers| == |steps| && AllAnswered(hash, g, steps, answers)
  {
    p := new Project(hash, g);
    answers := [];
    for k := 0 to |steps|
      invariant fresh(p) && p.Valid() && p.hash == hash && p.graph == g && |answers| == k
      invariant Versions(p.vers, p.histories) == After(|g|, steps, k)
      invariant AllAnswered(hash, g, steps, answers)
    {
      ghost var now := After(|g|, steps, k);
      var key := Take(p, steps[k]);
      assert steps[k].Asks? ==> key == Key(hash, g, now.vers, steps[k].sid);
      AnsweredMore(hash, g, steps, answers, key);
      assert After(|g|, steps, k + 1) == Next(now, steps[k]);
      answers := answers + [key];
    }
  }

  ghost predicate AllAnswered(hash: Hash, g: Graph, steps: seq<Step>, answers: seq<int>)
    requires GraphOk(g) && |answers| <= |steps| && Within(steps, |g|)
  {
    forall k: nat | k < |answers| :: Answered(hash, g, steps, answers, k)
  }

  lemma AnsweredMore(hash: Hash, g: Graph, steps: seq<Step>, answers: seq<int>, key: int)
    requires GraphOk(g) && |answers| < |steps| && Within(steps, |g|) && AllAnswered(hash, g, steps, answers)
    requires steps[|answers|].Asks? ==> key == Key(hash, g, After(|g|, steps, |answers|).vers, steps[|answers|].sid)
    ensures AllAnswered(hash, g, steps, answers + [key])
  {
    forall j: nat | j <= |answers| ensures Answered(hash, g, steps, answers + [key], j) {
      if j < |answers| {
        assert Answered(hash, g, steps, answers, j);
      }
    }
  }

  method Take(p: Project, step: Step) returns (key: int)
    requires p.Valid() && step.sid < |p.graph|
    modifies p
    ensures p.Valid() && Versions(p.vers, p.histories) == Next(Versions(old(p.vers), old(p.histories)), step)
    ensures step.Asks? ==> key == Key(p.hash, p.graph, old(p.vers), step.sid)
  {
    key := 0;
    match step
    case Edits(sid) => p.Edit(sid);
    case Undoes(sid) =>
      if |p.histories[sid]| > 1 {
        p.Undo(sid);
      } else {
        p.Edit(sid);
      }
    case Asks(sid) => key := p.KeyOf(sid);
  }

  /** After a fresh edit, no dependent has a key it ever had. */
  lemma {:induction false} FreshEditFreshKeys(
    hash: Hash, g: Graph, histories: seq<seq<nat>>, past: seq<nat>, v: seq<nat>, e: nat, sid: nat)
    requires Injective(hash) && GraphOk(g) && |v| == |g| == |histories| && e < |g| && sid < |g|
    requires WasOnce(histories, past) && v[e] !in histories[e] && Upstream(g, e, sid)
    ensures Key(hash, g, v, sid) != Key(hash, g, past, sid)
  {
    KeysAreLineage(hash, g, v, past, sid, sid);
  }
}
