/** The worker pool and the publish protocol as one system: a conversion is the work of the handler
    of one job, begun while a worker runs that job and over before the worker moves on. That the
    protocol never has two workers on one path is a consequence here. */
module Handling {
  import opened Paths
  import O = Outcomes
  import P = Publish
  import Q = QueueModel

  /** `begun` are the jobs whose handler has reached its conversion; `server` tells whose conversion is
      at work on a path. */
  datatype State = State(q: Q.Queue, tree: P.State, begun: set<nat>, server: map<string, nat>)

  datatype Action =
    | Pool(step: Q.Action)
    | Convert(w: nat, st: O.Settings) // the handler on worker w starts a conversion
    | Work(work: P.Step)              // a further step of a conversion, or of a user or a sweep
    | Restart(workers: int)           // a crash, and a new process on what it left behind

  /** A step of a conversion under way, or nobody's. */
  predicate Onward(a: P.Step) {
    !a.Begin? && !a.Crash?
  }

  predicate Leaves(a: P.Step) {
    a.GiveUp? || a.RemoveTmp?
  }

  /** Only files the walks and the event loop accept are submitted. A handler returns once its
      conversion is over. Nothing is said about the paths other workers are converting. */
  ghost predicate Enabled(cfg: Config, s: State, a: Action) {
    match a
    case Pool(b) =>
      && Q.Enabled(s.q, b) && (b.Receive? ==> s.q.buffer[0] in s.q.jobs)
      && (b.Store? ==> Eligible(cfg, b.path))
      && (b.Return? ==> s.q.busy[b.w] !in s.server.Values)
    case Convert(w, st) =>
      && w in s.q.busy && AboutTo(s, w, s.q.busy[w])
      && var path := s.q.jobs[s.q.busy[w]].path;
         path in s.tree.files && P.Converts(st, s.tree.files[path])
    case Work(b) => Onward(b) && P.Possible(cfg, s.tree, b)
    case Restart(_) => true
  }

  /** The path is free for the conversion that worker w is about to begin. */
  ghost predicate Free(cfg: Config, s: State, w: nat, st: O.Settings)
    requires Enabled(cfg, s, Convert(w, st))
  {
    P.Possible(cfg, s.tree, P.Begin(s.q.jobs[s.q.busy[w]].path, st))
  }

  ghost function Step(cfg: Config, s: State, a: Action): State
    requires Enabled(cfg, s, a)
  {
    match a
    case Pool(b) => s.(q := Q.Step(s.q, b))
    case Convert(w, st) =>
      var id := s.q.busy[w];
      var path := s.q.jobs[id].path;
      var src := s.tree.files[path].probed.value;
      s.(tree := s.tree.(workers := s.tree.workers[path := P.Probed(src)]),
         begun := s.begun + {id}, server := s.server[path := id])
    case Work(b) => s.(tree := P.After(cfg, s.tree, b), server := if Leaves(b) then s.server - {b.path} else s.server)
    case Restart(workers) => State(Q.New(workers), P.After(cfg, s.tree, P.Crash), {}, map[])
  }

  // ---- the invariant -----------------------------------------------------------------------

  /** The conversion of path p belongs to a job for p whose handler is running. */
  ghost predicate Served(s: State, p: string)
    requires p in s.server
  {
    && s.server[p] in s.begun && s.server[p] in s.q.jobs
    && s.q.jobs[s.server[p]].path == p && s.q.jobs[s.server[p]].stage.Running?
  }

  ghost predicate AllServed(s: State) {
    s.server.Keys == s.tree.workers.Keys && forall p :: p in s.server ==> Served(s, p)
  }

  ghost predicate JobsFit(cfg: Config, s: State) {
    s.begun <= s.q.jobs.Keys && forall j :: j in s.q.jobs ==> Eligible(cfg, s.q.jobs[j].path)
  }

  ghost predicate Inv(cfg: Config, s: State) {
    Q.Inv(s.q) && P.Inv(cfg, s.tree) && AllServed(s) && JobsFit(cfg, s)
  }

  ghost predicate Initial(s: State) {
    (exists workers :: s.q == Q.New(workers)) && P.Initial(s.tree) && s.begun == {} && s.server == map[]
  }

  /** Worker w runs job id, whose handler has not begun a conversion. */
  predicate AboutTo(s: State, w: nat, id: nat) {
    w in s.q.busy && s.q.busy[w] == id && Q.At(s.q, id, Q.Running(w)) && id !in s.begun
  }

  /** The pool's dedup keeps every path to one handler. */
  lemma NobodyAtWork(s: State, w: nat, id: nat)
    requires Q.DedupOk(s.q.jobs, s.q.inflight) && AllServed(s) && AboutTo(s, w, id)
    ensures s.q.jobs[id].path !in s.tree.workers
  {
    var path := s.q.jobs[id].path;
    assert s.q.inflight[path] == id;
    assert path in s.server ==> Served(s, path);
  }

  /** So every conversion is on its own: when a handler begins one, nobody is at work on its path. */
  lemma ConversionIsFree(cfg: Config, s: State, w: nat, st: O.Settings)
    requires Q.Inv(s.q) && AllServed(s) && JobsFit(cfg, s) && Enabled(cfg, s, Convert(w, st))
    ensures Free(cfg, s, w, st)
  {
    NobodyAtWork(s, w, s.q.busy[w]);
  }

  lemma ConvertIsBegin(cfg: Config, s: State, w: nat, st: O.Settings)
    requires Enabled(cfg, s, Convert(w, st)) && Free(cfg, s, w, st)
    ensures Step(cfg, s, Convert(w, st)).tree == P.After(cfg, s.tree, P.Begin(s.q.jobs[s.q.busy[w]].path, st))
  {
  }

  lemma PoolKeepsServed(cfg: Config, s: State, b: Q.Action)
    requires Q.Inv(s.q) && AllServed(s) && Enabled(cfg, s, Pool(b))
    ensures AllServed(Step(cfg, s, Pool(b)))
  {
    var s' := Step(cfg, s, Pool(b));
    forall p | p in s'.server ensures Served(s', p) {
      assert Served(s, p);
      PoolKeepsRunning(s.q, b, s.server[p]);
    }
  }

  /** A running job stays running until its own handler returns. */
  lemma PoolKeepsRunning(q: Q.Queue, b: Q.Action, j: nat)
    requires Q.Inv(q) && Q.Enabled(q, b) && (b.Receive? ==> q.buffer[0] in q.jobs)
    requires j in q.jobs && q.jobs[j].stage.Running? && !(b.Return? && q.busy[b.w] == j)
    ensures j in Q.Step(q, b).jobs && Q.Step(q, b).jobs[j] == q.jobs[j]
  {
  }

  lemma PoolKeepsFit(cfg: Config, s: State, b: Q.Action)
    requires JobsFit(cfg, s) && Enabled(cfg, s, Pool(b))
    ensures JobsFit(cfg, Step(cfg, s, Pool(b)))
  {
    var q' := Q.Step(s.q, b);
    forall j | j in q'.jobs ensures Eligible(cfg, q'.jobs[j].path) && s.begun <= q'.jobs.Keys {
      PathFixed(s.q, b, j);
    }
  }

  lemma PathFixed(q: Q.Queue, b: Q.Action, j: nat)
    requires Q.Enabled(q, b) && (b.Receive? ==> q.buffer[0] in q.jobs) && j in Q.Step(q, b).jobs
    ensures if j in q.jobs then Q.Step(q, b).jobs[j].path == q.jobs[j].path
            else b.Store? && Q.Step(q, b).jobs[j].path == b.path
    ensures q.jobs.Keys <= Q.Step(q, b).jobs.Keys
  {
  }

  lemma WorkKeepsServed(cfg: Config, s: State, b: P.Step)
    requires AllServed(s) && Enabled(cfg, s, Work(b))
    ensures AllServed(Step(cfg, s, Work(b)))
  {
    var s' := Step(cfg, s, Work(b));
    forall p | p in s'.server ensures Served(s', p) {
      assert Served(s, p);
    }
  }

  lemma TreeStep(cfg: Config, t: P.State, b: P.Step)
    requires P.Setting(cfg) && P.Inv(cfg, t) && P.Possible(cfg, t, b)
    ensures P.Inv(cfg, P.After(cfg, t, b))
  {
    P.StepKeepsIntact(cfg, t, b);
    P.StepKeepsWorkers(cfg, t, b);
    P.StepKeepsTemps(cfg, t, b);
  }

  lemma ConvertKeepsServed(s: State, s': State, w: nat, id: nat)
    requires AllServed(s) && AboutTo(s, w, id) && s'.q == s.q && s'.begun == s.begun + {id}
    requires s'.server == s.server[s.q.jobs[id].path := id]
    requires s'.tree.workers.Keys == s.tree.workers.Keys + {s.q.jobs[id].path}
    ensures AllServed(s')
  {
    forall p | p in s'.server ensures Served(s', p) {
      assert p in s.server ==> Served(s, p);
    }
  }

  lemma ConvertServed(cfg: Config, s: State, w: nat, st: O.Settings)
    requires AllServed(s) && Enabled(cfg, s, Convert(w, st))
    ensures AllServed(Step(cfg, s, Convert(w, st)))
  {
    var s', path := Step(cfg, s, Convert(w, st)), s.q.jobs[s.q.busy[w]].path;
    assert s'.tree.workers.Keys == s.tree.workers.Keys + {path};
    ConvertKeepsServed(s, s', w, s.q.busy[w]);
  }

  lemma ConvertFits(cfg: Config, s: State, w: nat, st: O.Settings)
    requires JobsFit(cfg, s) && Enabled(cfg, s, Convert(w, st))
    ensures JobsFit(cfg, Step(cfg, s, Convert(w, st)))
  {
  }

  lemma ConvertTree(cfg: Config, s: State, w: nat, st: O.Settings)
    requires P.Setting(cfg) && Inv(cfg, s) && Enabled(cfg, s, Convert(w, st))
    ensures P.Inv(cfg, Step(cfg, s, Convert(w, st)).tree)
  {
    ConversionIsFree(cfg, s, w, st);
    ConvertIsBegin(cfg, s, w, st);
    TreeStep(cfg, s.tree, P.Begin(s.q.jobs[s.q.busy[w]].path, st));
  }

  lemma ConvertKeepsInv(cfg: Config, s: State, w: nat, st: O.Settings)
    requires P.Setting(cfg) && Inv(cfg, s) && Enabled(cfg, s, Convert(w, st))
    ensures Inv(cfg, Step(cfg, s, Convert(w, st)))
  {
    ConvertTree(cfg, s, w, st);
    ConvertServed(cfg, s, w, st);
    ConvertFits(cfg, s, w, st);
  }

  lemma StepKeepsInv(cfg: Config, s: State, a: Action)
    requires P.Setting(cfg) && Inv(cfg, s) && Enabled(cfg, s, a)
    ensures Inv(cfg, Step(cfg, s, a))
  {
    match a
    case Pool(b) =>
      Q.StepKeepsInv(s.q, b);
      PoolKeepsServed(cfg, s, b);
      PoolKeepsFit(cfg, s, b);
    case Convert(w, st) => ConvertKeepsInv(cfg, s, w, st);
    case Work(b) =>
      TreeStep(cfg, s.tree, b);
      WorkKeepsServed(cfg, s, b);
    case Restart(workers) =>
      Q.NewKeepsInv(workers);
      TreeStep(cfg, s.tree, P.Crash);
  }

  ghost predicate Follows(cfg: Config, states: seq<State>, acts: seq<Action>) {
    && |states| == |acts| + 1
    && forall i :: 0 <= i < |acts| ==>
         Enabled(cfg, states[i], acts[i]) && states[i + 1] == Step(cfg, states[i], acts[i])
  }

  lemma {:induction false} RunKeepsInv(cfg: Config, states: seq<State>, acts: seq<Action>, i: nat)
    requires P.Setting(cfg) && Follows(cfg, states, acts) && Initial(states[0]) && i < |states|
    ensures Inv(cfg, states[i])
  {
    if i == 0 {
      var workers :| states[0].q == Q.New(workers);
      Q.NewKeepsInv(workers);
      P.InitialInv(cfg, states[0].tree);
    } else {
      RunKeepsInv(cfg, states, acts, i - 1);
      StepKeepsInv(cfg, states[i - 1], acts[i - 1]);
    }
  }

  /** In every run of the pool, its handlers' conversions, users, sweeps, crashes and restarts:
      whenever a handler is about to convert, no other conversion works on its path; and every path
      that is no temporary keeps its user's bytes or verified ones. */
  lemma HandledFilesKept(cfg: Config, states: seq<State>, acts: seq<Action>, i: nat)
    requires P.Setting(cfg) && Follows(cfg, states, acts) && Initial(states[0]) && i < |states|
    ensures forall w, st :: Enabled(cfg, states[i], Convert(w, st)) ==> Free(cfg, states[i], w, st)
    ensures forall p :: !IsTemp(p) ==> P.Kept(cfg, states[i].tree, p)
  {
    RunKeepsInv(cfg, states, acts, i);
    forall w, st | Enabled(cfg, states[i], Convert(w, st)) ensures Free(cfg, states[i], w, st) {
      ConversionIsFree(cfg, states[i], w, st);
    }
    forall p | !IsTemp(p) ensures P.Kept(cfg, states[i].tree, p) {
      P.InvKeeps(cfg, states[i].tree, p);
    }
  }
}
