/** The watch loop's shutdown over the scheduler and the queue together: Close swaps the pending
    map, the flushed paths are submitted one by one, Wait returns when the counter is zero, while
    timer callbacks and workers keep running. */
module Shutdown {
  import opened Options
  import opened Sums
  import SM = SchedulerModel
  import S = SchedulerRuns
  import Q = QueueModel

  type Scheduler = S.State<nat>

  /** Where the event loop's goroutine is. `call` is the job of the Submit it is inside of. */
  datatype Main = Looping | Flushing(call: Option<nat>) | Waiting

  /** `jobOf` remembers which job took over a submitted episode: its own, or the one already in
      flight for the path. */
  datatype State = State(sched: Scheduler, q: Q.Queue, main: Main, jobOf: map<nat, nat>)

  datatype Action =
    | Timers(timer: S.Action<nat>)  // time, events, expiring timers and callbacks
    | Hand(p: nat, id: nat)       // a submit call reaches LoadOrStore
    | Pool(step: Q.Action)        // any later step of a submitter or worker
    | CloseNow
    | BeginWait

  ghost predicate Enabled(delay: nat, c: State, a: Action) {
    match a
    case Timers(b) =>
      && !b.Submit? && !b.Close? && (b.Event? ==> c.main.Looping?)
      && SM.Closed(c.sched.core) && S.Enabled(delay, c.sched, b)
    case Hand(p, id) =>
      && p in c.sched.fates && p in c.sched.paths && id !in c.q.jobs
      && (c.sched.fates[p].Submitting? || (c.sched.fates[p].Flushing? && c.main == Flushing(None)))
    case Pool(b) => !b.Store? && Q.Enabled(c.q, b) && (b.Receive? ==> c.q.buffer[0] in c.q.jobs)
    case CloseNow => c.main.Looping? && SM.Closed(c.sched.core)
    case BeginWait => c.main == Flushing(None) && forall p :: p in c.sched.fates ==> !c.sched.fates[p].Flushing?
  }

  ghost function Taker(c: State, p: nat, id: nat): nat
    requires p in c.sched.paths
  {
    if c.sched.paths[p] in c.q.inflight then c.q.inflight[c.sched.paths[p]] else id
  }

  ghost function Step(delay: nat, c: State, a: Action): State
    requires Enabled(delay, c, a)
  {
    match a
    case Timers(b) => c.(sched := S.Step(delay, c.sched, b))
    case Hand(p, id) =>
      c.(sched := c.sched.(fates := c.sched.fates[p := S.Submitted], log := c.sched.log + [p]),
         q := Q.Step(c.q, Q.Store(id, c.sched.paths[p])),
         jobOf := c.jobOf[p := Taker(c, p, id)],
         main := if c.sched.fates[p].Flushing? && c.sched.paths[p] !in c.q.inflight then Flushing(Some(id)) else c.main)
    case Pool(b) =>
      c.(q := Q.Step(c.q, b),
         main := if b.Send? && c.main == Flushing(Some(b.id)) then Flushing(None) else c.main)
    case CloseNow => c.(sched := S.AfterClose(c.sched), main := Flushing(None))
    case BeginWait => c.(main := Waiting)
  }

  ghost predicate Initial(c: State) {
    S.Initial(c.sched) && Q.Inv(c.q) && c.main.Looping? && c.jobOf == map[]
  }

  // ---- the invariant -----------------------------------------------------------------

  /** A submitted episode has been taken over by a job for its path. */
  ghost predicate TakenOver(c: State) {
    forall p :: p in c.sched.fates && c.sched.fates[p].Submitted? ==>
      && p in c.sched.paths && p in c.jobOf && c.jobOf[p] in c.q.jobs
      && c.q.jobs[c.jobOf[p]].path == c.sched.paths[p]
  }

  /** The submit call the main goroutine is inside of has not sent its job yet. */
  ghost predicate CallOk(c: State) {
    c.main.Flushing? && c.main.call.Some? ==>
      Q.At(c.q, c.main.call.value, Q.Stored) || Q.At(c.q, c.main.call.value, Q.Counted)
  }

  ghost predicate ClosedOk(c: State) {
    && (!c.main.Looping? ==> c.sched.core.timers == map[])
    && (c.main.Waiting? || c.main.Looping? ==> forall p :: p in c.sched.fates ==> !c.sched.fates[p].Flushing?)
  }

  ghost predicate Joint(c: State) {
    TakenOver(c) && CallOk(c) && ClosedOk(c)
  }

  ghost predicate Inv(delay: nat, c: State) {
    S.Inv(delay, c.sched) && Q.Inv(c.q) && Joint(c)
  }

  /** What a timer step may do to the records the joint invariant speaks of. */
  ghost predicate TimerEffect(s: Scheduler, s': Scheduler) {
    && (forall p :: p in s'.fates && (s'.fates[p].Submitted? || s'.fates[p].Flushing?) ==>
          p in s.fates && s'.fates[p] == s.fates[p])
    && (forall p :: p in s.paths ==> p in s'.paths && s'.paths[p] == s.paths[p])
    && (forall p :: p in s.fates ==> p in s'.fates)
  }

  lemma EventEffect(s: Scheduler, path: string, size: int, newcomer: nat)
    requires SM.Closed(s.core) && newcomer !in s.core.entries && s.paths.Keys == s.core.entries.Keys
    ensures TimerEffect(s, S.AfterEvent(s, path, size, newcomer))
  {
  }

  /** With nothing pending every callback is stale. */
  lemma ClosedCallback(s: Scheduler, t: nat, stat: SM.Stat)
    requires SM.Closed(s.core) && t in s.core.out && s.core.timers == map[]
    ensures S.AfterCallback(s, t, stat) == s.(core := s.core.(out := s.core.out - {t}))
  {
  }

  lemma CallbackEffect(s: Scheduler, t: nat, stat: SM.Stat)
    requires SM.Closed(s.core) && t in s.core.out
    ensures TimerEffect(s, S.AfterCallback(s, t, stat))
    ensures s.core.timers == map[] ==>
      S.AfterCallback(s, t, stat).core.timers == map[] && S.AfterCallback(s, t, stat).fates == s.fates
  {
    if s.core.timers == map[] {
      ClosedCallback(s, t, stat);
    }
  }

  lemma TimersKeepJoint(delay: nat, c: State, b: S.Action<nat>)
    requires Joint(c) && c.sched.paths.Keys == c.sched.core.entries.Keys && Enabled(delay, c, Timers(b))
    ensures Joint(Step(delay, c, Timers(b)))
  {
    if b.Event? {
      EventEffect(c.sched, b.path, S.Recorded(b.size), b.newcomer);
    } else if b.Callback? {
      CallbackEffect(c.sched, b.t, b.stat);
    }
  }

  lemma HandKeepsJoint(delay: nat, c: State, p: nat, id: nat)
    requires Joint(c) && Q.DedupOk(c.q.jobs, c.q.inflight) && Enabled(delay, c, Hand(p, id))
    ensures Joint(Step(delay, c, Hand(p, id)))
  {
  }

  lemma PoolKeepsJoint(delay: nat, c: State, b: Q.Action)
    requires Joint(c) && Enabled(delay, c, Pool(b)) && (b.Receive? ==> Q.At(c.q, c.q.buffer[0], Q.Buffered))
    ensures Joint(Step(delay, c, Pool(b)))
  {
    var q' := Q.Step(c.q, b);
    assert forall i :: i in c.q.jobs ==> i in q'.jobs && q'.jobs[i].path == c.q.jobs[i].path;
  }

  lemma StepKeepsInv(delay: nat, c: State, a: Action)
    requires Inv(delay, c) && Enabled(delay, c, a)
    ensures Inv(delay, Step(delay, c, a))
  {
    match a
    case Timers(b) =>
      S.StepKeepsInv(delay, c.sched, b);
      TimersKeepJoint(delay, c, b);
    case Hand(p, id) =>
      S.StepKeepsInv(delay, c.sched, S.Submit(p));
      Q.StoreKeepsInv(c.q, id, c.sched.paths[p]);
      HandKeepsJoint(delay, c, p, id);
    case Pool(b) =>
      Q.StepKeepsInv(c.q, b);
      PoolKeepsJoint(delay, c, b);
    case CloseNow => S.StepKeepsInv(delay, c.sched, S.Action<nat>.Close);
    case BeginWait =>
  }

  // ---- whole runs --------------------------------------------------------------------

  ghost predicate Follows(delay: nat, states: seq<State>, acts: seq<Action>) {
    && |states| == |acts| + 1
    && forall i :: 0 <= i < |acts| ==>
         Enabled(delay, states[i], acts[i]) && states[i + 1] == Step(delay, states[i], acts[i])
  }

  lemma {:induction false} RunKeepsInv(delay: nat, states: seq<State>, acts: seq<Action>, i: nat)
    requires Follows(delay, states, acts) && Inv(delay, states[0]) && i < |states|
    ensures Inv(delay, states[i])
  {
    if i > 0 {
      RunKeepsInv(delay, states, acts, i - 1);
      StepKeepsInv(delay, states[i - 1], acts[i - 1]);
    }
  }

  lemma InitialInv(delay: nat, c: State)
    requires Initial(c)
    ensures Inv(delay, c)
  {
  }

  /** No timer callback is between giving up the lock and calling submit, or inside its submit
      call before the job is counted. */
  ghost predicate NoneInWindow(c: State) {
    && (forall p :: p in c.sched.fates ==> !c.sched.fates[p].Submitting?)
    && (forall j :: j in c.q.jobs && c.q.jobs[j].stage.Stored? ==> c.main == Flushing(Some(j)))
  }

  /** Wait may return: the process ends here. */
  ghost predicate Ended(c: State) {
    c.main.Waiting? && c.q.pending == 0
  }

  lemma WindowStaysEmpty(delay: nat, c: State, a: Action)
    requires Joint(c) && !c.main.Looping? && NoneInWindow(c) && Enabled(delay, c, a)
    ensures NoneInWindow(Step(delay, c, a)) && !Step(delay, c, a).main.Looping?
  {
    if a.Timers? && a.timer.Callback? {
      CallbackEffect(c.sched, a.timer.t, a.timer.stat);
    }
  }

  /** An episode that is being flushed or has been submitted. */
  ghost predicate Saved(c: State, p: nat) {
    p in c.sched.fates && (c.sched.fates[p].Flushing? || c.sched.fates[p].Submitted?)
  }

  lemma SavedStays(delay: nat, c: State, a: Action, p: nat)
    requires Joint(c) && !c.main.Looping? && Saved(c, p) && Enabled(delay, c, a)
    ensures Saved(Step(delay, c, a), p)
  {
    if a.Timers? && a.timer.Callback? {
      CallbackEffect(c.sched, a.timer.t, a.timer.stat);
    }
  }

  ghost predicate Safe(c: State, p: nat) {
    !c.main.Looping? && NoneInWindow(c) && Saved(c, p)
  }

  lemma SafeStays(delay: nat, c: State, a: Action, p: nat)
    requires Joint(c) && Safe(c, p) && Enabled(delay, c, a)
    ensures Safe(Step(delay, c, a), p)
  {
    WindowStaysEmpty(delay, c, a);
    SavedStays(delay, c, a, p);
  }

  lemma SafeStep(delay: nat, states: seq<State>, acts: seq<Action>, j: nat, p: nat)
    requires Follows(delay, states, acts) && Inv(delay, states[0]) && j < |acts| && Safe(states[j], p)
    ensures Safe(states[j + 1], p)
  {
    RunKeepsInv(delay, states, acts, j);
    SafeStays(delay, states[j], acts[j], p);
  }

  lemma {:induction false} AfterCloseRun(delay: nat, states: seq<State>, acts: seq<Action>, i: nat, k: nat, p: nat)
    requires Follows(delay, states, acts) && Inv(delay, states[0]) && i <= k < |states| && Safe(states[i], p)
    ensures Safe(states[k], p)
    decreases k
  {
    if i < k {
      AfterCloseRun(delay, states, acts, i, k - 1, p);
      SafeStep(delay, states, acts, k - 1, p);
    }
  }

  /** The job's handler has run to its end, once. */
  ghost predicate JobDone(c: State, j: nat) {
    j in c.q.jobs && c.q.jobs[j].stage.Finished? && multiset(c.q.handled)[j] == 1
  }

  /** The episode was dropped because its file was gone, or a job for its path has been done. */
  ghost predicate EpisodeDone(c: State, p: nat) {
    p in c.sched.fates && (c.sched.fates[p].Dropped? ||
      (c.sched.fates[p].Submitted? && p in c.sched.paths && p in c.jobOf
       && JobDone(c, c.jobOf[p]) && c.q.jobs[c.jobOf[p]].path == c.sched.paths[p]))
  }

  /** A saved episode, once Wait may return, has been taken over by a job that is done. */
  lemma SavedIsDone(delay: nat, c: State, p: nat)
    requires Inv(delay, c) && Ended(c) && Safe(c, p)
    ensures c.sched.fates[p].Submitted? && EpisodeDone(c, p)
  {
    Q.WaitMeansHandled(c.q, c.jobOf[p]);
  }

  /** Shutdown loses nothing: if no callback is in its window when Close is called, then whenever
      Wait returns every episode that was pending at Close (or submitted before it) has been taken
      over by a job for its path, its own or one already in flight, whose handler has run. */
  lemma ShutdownLosesNothing(delay: nat, states: seq<State>, acts: seq<Action>, i: nat, k: nat, p: nat)
    requires Follows(delay, states, acts) && Initial(states[0]) && i < k < |states|
    requires acts[i].CloseNow? && NoneInWindow(states[i]) && Ended(states[k])
    requires p in states[i].sched.fates && !states[i].sched.fates[p].Dropped?
    ensures p in states[k].sched.fates && states[k].sched.fates[p].Submitted? && EpisodeDone(states[k], p)
  {
    InitialInv(delay, states[0]);
    CloseSaves(delay, states, acts, i, p);
    AfterCloseRun(delay, states, acts, i + 1, k, p);
    RunKeepsInv(delay, states, acts, k);
    SavedIsDone(delay, states[k], p);
  }

  lemma CloseSaves(delay: nat, states: seq<State>, acts: seq<Action>, i: nat, p: nat)
    requires Follows(delay, states, acts) && Inv(delay, states[0]) && i < |acts|
    requires acts[i].CloseNow? && NoneInWindow(states[i])
    requires p in states[i].sched.fates && !states[i].sched.fates[p].Dropped?
    ensures Safe(states[i + 1], p)
  {
    assert states[i + 1] == Step(delay, states[i], acts[i]);
  }

  // ---- the other direction -----------------------------------------------------------

  ghost function FlushSet(c: State): set<nat> {
    set p | p in c.sched.fates && c.sched.fates[p].Flushing?
  }

  ghost function Rank(c: State): int {
    7 * |FlushSet(c)| + Q.Measure(c.q) + (if c.main.Flushing? then 1 else 0)
  }

  lemma RankNonNegative(c: State)
    ensures 0 <= Rank(c)
  {
    TotalNonNegative(Q.Weights(c.q.jobs));
  }

  /** The jobs whose submitter is a callback that has stored but not counted them. */
  ghost predicate Withheld(c: State, j: nat) {
    Q.At(c.q, j, Q.Stored) && c.main != Flushing(Some(j))
  }

  ghost function WithheldJobs(c: State): set<nat> {
    set j | j in c.q.jobs && Withheld(c, j)
  }

  lemma HandRank(delay: nat, c: State, p: nat, id: nat)
    requires Enabled(delay, c, Hand(p, id)) && c.sched.fates[p].Flushing? && c.main == Flushing(None)
    ensures Rank(Step(delay, c, Hand(p, id))) < Rank(c)
  {
    var c' := Step(delay, c, Hand(p, id));
    assert FlushSet(c') == FlushSet(c) - {p};
    if c.sched.paths[p] !in c.q.inflight {
      TotalUpdate(Q.Weights(c.q.jobs), id, 6);
      assert Q.Weights(c'.q.jobs) == Q.Weights(c.q.jobs)[id := 6];
    }
  }

  /** A callback in its window stays there. */
  ghost predicate KeepsWindow(c: State, c': State) {
    && (forall p :: p in c.sched.fates && c.sched.fates[p].Submitting? ==>
          p in c'.sched.fates && c'.sched.fates[p].Submitting?)
    && (forall j :: Withheld(c, j) ==> Withheld(c', j))
  }

  ghost predicate Advances(delay: nat, c: State, a: Action) {
    && Enabled(delay, c, a)
    && !Step(delay, c, a).main.Looping? && Rank(Step(delay, c, a)) < Rank(c) && KeepsWindow(c, Step(delay, c, a))
  }

  ghost predicate OthersFinished(c: State) {
    forall i :: i in c.q.jobs && !Withheld(c, i) ==> c.q.jobs[i].stage.Finished?
  }

  /** A pool step that is none of a withheld job's submitter. */
  ghost predicate Leaves(c: State, b: Q.Action) {
    !b.Store? && (b.Count? ==> b.id !in WithheldJobs(c))
  }

  lemma PoolKeepsWindow(delay: nat, c: State, b: Q.Action, j: nat)
    requires Q.Inv(c.q) && Enabled(delay, c, Pool(b)) && Leaves(c, b) && Withheld(c, j)
    ensures Withheld(Step(delay, c, Pool(b)), j)
  {
    assert j in WithheldJobs(c);
  }

  lemma AdvancePool(delay: nat, c: State) returns (a: Action)
    requires Q.Inv(c.q) && !c.main.Looping? && !OthersFinished(c)
    ensures Advances(delay, c, a)
  {
    assert exists i :: i in c.q.jobs && i !in WithheldJobs(c) && !c.q.jobs[i].stage.Finished?;
    var b := Q.NeverStuckWithout(c.q, WithheldJobs(c));
    Q.StepKeepsInv(c.q, b);
    Q.EveryStepCounts(c.q, b);
    a := Pool(b);
    PoolRank(delay, c, b);
    forall j | Withheld(c, j) ensures Withheld(Step(delay, c, a), j) {
      PoolKeepsWindow(delay, c, b, j);
    }
  }

  lemma PoolRank(delay: nat, c: State, b: Q.Action)
    requires Enabled(delay, c, Pool(b)) && !c.main.Looping? && Q.Measure(Q.Step(c.q, b)) < Q.Measure(c.q)
    ensures Rank(Step(delay, c, Pool(b))) < Rank(c) && !Step(delay, c, Pool(b)).main.Looping?
  {
    assert FlushSet(Step(delay, c, Pool(b))) == FlushSet(c);
  }

  lemma AdvanceMain(delay: nat, c: State) returns (a: Action)
    requires c.main == Flushing(None) && c.sched.fates.Keys == c.sched.paths.Keys
    ensures Advances(delay, c, a)
  {
    if p :| p in FlushSet(c) {
      var id := FreshId(c.q.jobs.Keys);
      a := Hand(p, id);
      HandRank(delay, c, p, id);
    } else {
      a := BeginWait;
      assert forall p :: p in c.sched.fates ==> p !in FlushSet(c);
      assert FlushSet(Step(delay, c, a)) == FlushSet(c);
    }
  }

  /** With all but the withheld jobs finished, nothing is counted. */
  lemma NothingCounted(c: State)
    requires Q.Inv(c.q) && CallOk(c) && OthersFinished(c)
    ensures c.q.pending == 0 && (c.main.Flushing? ==> c.main == Flushing(None))
  {
    assert c.main.Flushing? && c.main.call.Some? ==> !Withheld(c, c.main.call.value);
    forall i | i in c.q.jobs ensures !Q.IsCounted(c.q.jobs[i].stage) {
      assert Withheld(c, i) || c.q.jobs[i].stage.Finished?;
    }
    assert Q.CountedJobs(c.q.jobs) == {};
  }

  /** After Close the shutdown can always go on by itself, without help from any callback. */
  lemma Advance(delay: nat, c: State) returns (a: Action)
    requires Inv(delay, c) && !c.main.Looping? && !Ended(c)
    ensures Advances(delay, c, a)
  {
    if !OthersFinished(c) {
      a := AdvancePool(delay, c);
    } else {
      NothingCounted(c);
      a := AdvanceMain(delay, c);
    }
  }

  /** So from every state after Close there is a run to the end in which no callback that is in
      its window, before its submit call or inside it, gets any further. */
  lemma {:induction false} EndWithout(delay: nat, c: State) returns (states: seq<State>, acts: seq<Action>)
    requires Inv(delay, c) && !c.main.Looping?
    ensures Follows(delay, states, acts) && states[0] == c && Ended(states[|acts|])
    ensures KeepsWindow(c, states[|acts|])
    decreases Rank(c)
  {
    RankNonNegative(c);
    if Ended(c) {
      states, acts := [c], [];
    } else {
      var a := Advance(delay, c);
      StepKeepsInv(delay, c, a);
      RankNonNegative(Step(delay, c, a));
      var states', acts' := EndWithout(delay, Step(delay, c, a));
      states, acts := Prepend(delay, c, a, states', acts');
      WindowKept(c, Step(delay, c, a), states[|acts|]);
    }
  }

  lemma WindowKept(c: State, c1: State, c2: State)
    requires KeepsWindow(c, c1) && KeepsWindow(c1, c2)
    ensures KeepsWindow(c, c2)
  {
  }

  lemma Prepend(delay: nat, c: State, a: Action, states': seq<State>, acts': seq<Action>)
    returns (states: seq<State>, acts: seq<Action>)
    requires Enabled(delay, c, a) && Follows(delay, states', acts') && states'[0] == Step(delay, c, a)
    ensures states == [c] + states' && acts == [a] + acts' && Follows(delay, states, acts)
  {
    states, acts := [c] + states', [a] + acts';
    forall i | 0 <= i < |acts|
      ensures Enabled(delay, states[i], acts[i]) && states[i + 1] == Step(delay, states[i], acts[i])
    {
      if i > 0 {
        assert states[i] == states'[i - 1] && acts[i] == acts'[i - 1] && states[i + 1] == states'[i];
      }
    }
  }

  /** A run of the shutdown from c: Close first, and Wait can return at its end. */
  ghost predicate IsShutdown(delay: nat, c: State, states: seq<State>, acts: seq<Action>) {
    Follows(delay, states, acts) && states[0] == c && acts != [] && acts[0].CloseNow? && Ended(states[|acts|])
  }

  /** Nothing that was ever scheduled or submitted is left undone. */
  ghost predicate AllDone(c: State) {
    && (forall p :: p in c.sched.fates ==> EpisodeDone(c, p))
    && (forall j :: j in c.q.jobs ==> JobDone(c, j))
  }

  lemma {:induction false} ClosedRun(delay: nat, states: seq<State>, acts: seq<Action>, k: nat)
    requires Follows(delay, states, acts) && Inv(delay, states[0]) && 1 <= k < |states|
    requires acts[0].CloseNow? && NoneInWindow(states[0])
    ensures !states[k].main.Looping? && NoneInWindow(states[k])
  {
    if k == 1 {
      assert states[1] == Step(delay, states[0], acts[0]);
    } else {
      ClosedRun(delay, states, acts, k - 1);
      RunKeepsInv(delay, states, acts, k - 1);
      assert states[k] == Step(delay, states[k - 1], acts[k - 1]);
      WindowStaysEmpty(delay, states[k - 1], acts[k - 1]);
    }
  }

  /** At the end of a shutdown with no callback in its window everything is done. */
  lemma EndedDone(delay: nat, c: State)
    requires Inv(delay, c) && Ended(c) && NoneInWindow(c)
    ensures AllDone(c)
  {
    forall j | j in c.q.jobs ensures JobDone(c, j) {
      Q.WaitMeansHandled(c.q, j);
    }
    forall p | p in c.sched.fates ensures EpisodeDone(c, p) {
      assert S.EpisodeOk(c.sched, p);
    }
  }

  /** Exactly when shutdown keeps its promise: every way of shutting down leaves every scheduled
      file and every submitted job done if and only if, when Close is called, no callback is in its
      window: it has neither taken its path out of the pending map without having called submit,
      nor entered submit without having counted its job. */
  lemma ShutdownCompleteIff(delay: nat, c: State)
    requires Inv(delay, c) && c.main.Looping?
    ensures (forall states, acts :: IsShutdown(delay, c, states, acts) ==> AllDone(states[|acts|])) <==> NoneInWindow(c)
  {
    if NoneInWindow(c) {
      forall states, acts | IsShutdown(delay, c, states, acts) ensures AllDone(states[|acts|]) {
        ClosedRun(delay, states, acts, |acts|);
        RunKeepsInv(delay, states, acts, |acts|);
        EndedDone(delay, states[|acts|]);
      }
    } else {
      var states, acts := IncompleteShutdown(delay, c);
    }
  }

  lemma WindowUndone(c: State, end: State)
    requires !NoneInWindow(c) && c.main.Looping? && KeepsWindow(c, end)
    ensures !AllDone(end)
  {
    if p :| p in c.sched.fates && c.sched.fates[p].Submitting? {
      assert !EpisodeDone(end, p);
    } else {
      var j :| j in c.q.jobs && c.q.jobs[j].stage.Stored?;
      assert Withheld(c, j) && Withheld(end, j) && !JobDone(end, j);
    }
  }

  lemma CloseKeepsWindow(delay: nat, c: State)
    requires Enabled(delay, c, CloseNow)
    ensures KeepsWindow(c, Step(delay, c, CloseNow))
  {
  }

  /** Otherwise there is a shutdown that leaves the callback's path or job undone. */
  lemma IncompleteShutdown(delay: nat, c: State) returns (states: seq<State>, acts: seq<Action>)
    requires Inv(delay, c) && c.main.Looping? && !NoneInWindow(c)
    ensures IsShutdown(delay, c, states, acts) && !AllDone(states[|acts|])
  {
    StepKeepsInv(delay, c, CloseNow);
    var c1 := Step(delay, c, CloseNow);
    var states', acts' := EndWithout(delay, c1);
    states, acts := Prepend(delay, c, CloseNow, states', acts');
    CloseKeepsWindow(delay, c);
    WindowKept(c, c1, states[|acts|]);
    WindowUndone(c, states[|acts|]);
  }
}
