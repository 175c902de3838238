/** The worker pool as a step system. A submission stores the path, counts the job and sends it;
    a worker receives, runs the handler, deletes the path and only then counts the job done.
    Every point between two of these is a stage of its own, so any interleaving of submitters
    and workers is a run. */
module QueueModel {
  import opened Sums

  datatype Stage =
    | Stored          // path in the dedup set, not counted
    | Counted         // counted, blocked on or about to send
    | Buffered
    | Running(w: nat)
    | Handled(w: nat) // handler returned, path not deleted
    | Deleted(w: nat) // path deleted, not counted done
    | Finished

  datatype Job = Job(path: string, stage: Stage)

  /** `inflight` is the dedup set; the job that put a path there is remembered beside it. `busy`
      is where each worker's loop stands, `handled` the handler runs in the order they began. */
  datatype Queue = Queue(
    workers: nat,
    jobs: map<nat, Job>,
    buffer: seq<nat>,
    inflight: map<string, nat>,
    pending: int,
    busy: map<nat, nat>,
    handled: seq<nat>)

  /** New clamps the worker count to at least one and sizes the buffer from it. */
  function New(workers: int): Queue {
    Queue(if workers < 1 then 1 else workers, map[], [], map[], 0, map[], [])
  }

  function Capacity(q: Queue): nat {
    q.workers * 8
  }

  datatype Action =
    | Store(id: nat, path: string)
    | Count(id: nat)
    | Send(id: nat)
    | Receive(w: nat)
    | Return(w: nat)
    | Delete(w: nat)
    | Done(w: nat)

  predicate At(q: Queue, id: nat, stage: Stage) {
    id in q.jobs && q.jobs[id].stage == stage
  }

  predicate Enabled(q: Queue, a: Action) {
    match a
    case Store(id, _) => id !in q.jobs
    case Count(id) => At(q, id, Stored)
    case Send(id) => At(q, id, Counted) && |q.buffer| < Capacity(q)
    case Receive(w) => w < q.workers && w !in q.busy && q.buffer != []
    case Return(w) => w in q.busy && At(q, q.busy[w], Running(w))
    case Delete(w) => w in q.busy && At(q, q.busy[w], Handled(w))
    case Done(w) => w in q.busy && At(q, q.busy[w], Deleted(w))
  }

  function Move(jobs: map<nat, Job>, id: nat, stage: Stage): map<nat, Job>
    requires id in jobs
  {
    jobs[id := Job(jobs[id].path, stage)]
  }

  /** A Store that finds its path in flight changes nothing: Submit returns false. */
  function Step(q: Queue, a: Action): Queue
    requires Enabled(q, a) && (a.Receive? ==> q.buffer[0] in q.jobs)
  {
    match a
    case Store(id, path) =>
      if path in q.inflight then q
      else q.(jobs := q.jobs[id := Job(path, Stored)], inflight := q.inflight[path := id])
    case Count(id) => q.(jobs := Move(q.jobs, id, Counted), pending := q.pending + 1)
    case Send(id) => q.(jobs := Move(q.jobs, id, Buffered), buffer := q.buffer + [id])
    case Receive(w) =>
      var id := q.buffer[0];
      q.(jobs := Move(q.jobs, id, Running(w)), buffer := q.buffer[1..],
         busy := q.busy[w := id], handled := q.handled + [id])
    case Return(w) => q.(jobs := Move(q.jobs, q.busy[w], Handled(w)))
    case Delete(w) =>
      q.(jobs := Move(q.jobs, q.busy[w], Deleted(w)), inflight := q.inflight - {q.jobs[q.busy[w]].path})
    case Done(w) => q.(jobs := Move(q.jobs, q.busy[w], Finished), pending := q.pending - 1, busy := q.busy - {w})
  }

  // ---- the invariant -----------------------------------------------------------------

  /** From LoadOrStore to Delete. */
  predicate InFlight(s: Stage) {
    s.Stored? || s.Counted? || s.Buffered? || s.Running? || s.Handled?
  }

  /** From Add to Done. */
  predicate IsCounted(s: Stage) {
    s.Counted? || s.Buffered? || OnWorker(s)
  }

  predicate OnWorker(s: Stage) {
    s.Running? || s.Handled? || s.Deleted?
  }

  predicate Begun(s: Stage) {
    OnWorker(s) || s.Finished?
  }

  /** The dedup set holds exactly the paths of the jobs in flight, each for one job. */
  ghost predicate DedupOk(jobs: map<nat, Job>, inflight: map<string, nat>) {
    && (forall p :: p in inflight ==>
          inflight[p] in jobs && jobs[inflight[p]].path == p && InFlight(jobs[inflight[p]].stage))
    && (forall i :: i in jobs && InFlight(jobs[i].stage) ==> jobs[i].path in inflight && inflight[jobs[i].path] == i)
  }

  ghost predicate BufferOk(jobs: map<nat, Job>, buffer: seq<nat>) {
    && (forall k :: 0 <= k < |buffer| ==> buffer[k] in jobs && jobs[buffer[k]].stage.Buffered?)
    && (forall k, l :: 0 <= k < l < |buffer| ==> buffer[k] != buffer[l])
    && (forall i :: i in jobs && jobs[i].stage.Buffered? ==> i in buffer)
  }

  ghost predicate WorkersOk(jobs: map<nat, Job>, busy: map<nat, nat>, workers: nat) {
    && (forall w :: w in busy ==>
          w < workers && busy[w] in jobs && OnWorker(jobs[busy[w]].stage) && jobs[busy[w]].stage.w == w)
    && (forall i :: i in jobs && OnWorker(jobs[i].stage) ==> jobs[i].stage.w in busy && busy[jobs[i].stage.w] == i)
  }

  function CountedJobs(jobs: map<nat, Job>): set<nat> {
    set i | i in jobs && IsCounted(jobs[i].stage)
  }

  ghost predicate HandledOk(jobs: map<nat, Job>, handled: seq<nat>) {
    && (forall i :: i in handled ==> i in jobs)
    && (forall i :: i in jobs ==> multiset(handled)[i] == (if Begun(jobs[i].stage) then 1 else 0))
  }

  ghost predicate Inv(q: Queue) {
    && q.workers >= 1
    && DedupOk(q.jobs, q.inflight)
    && BufferOk(q.jobs, q.buffer) && |q.buffer| <= Capacity(q)
    && WorkersOk(q.jobs, q.busy, q.workers)
    && q.pending == |CountedJobs(q.jobs)|
    && HandledOk(q.jobs, q.handled)
  }

  lemma MoveCounted(jobs: map<nat, Job>, id: nat, stage: Stage)
    requires id in jobs
    ensures |CountedJobs(Move(jobs, id, stage))| == |CountedJobs(jobs)|
            - (if IsCounted(jobs[id].stage) then 1 else 0) + (if IsCounted(stage) then 1 else 0)
  {
    var before, after := CountedJobs(jobs), CountedJobs(Move(jobs, id, stage));
    assert after == if IsCounted(stage) then before - {id} + {id} else before - {id};
  }

  lemma StoreKeepsDedup(jobs: map<nat, Job>, inflight: map<string, nat>, id: nat, path: string)
    requires DedupOk(jobs, inflight) && id !in jobs && path !in inflight
    ensures DedupOk(jobs[id := Job(path, Stored)], inflight[path := id])
  {
  }

  lemma StoreKeepsPlaces(jobs: map<nat, Job>, buffer: seq<nat>, busy: map<nat, nat>, workers: nat,
                         id: nat, path: string)
    requires BufferOk(jobs, buffer) && WorkersOk(jobs, busy, workers) && id !in jobs
    ensures BufferOk(jobs[id := Job(path, Stored)], buffer) && WorkersOk(jobs[id := Job(path, Stored)], busy, workers)
  {
  }

  lemma StoreKeepsHandled(jobs: map<nat, Job>, handled: seq<nat>, id: nat, path: string)
    requires HandledOk(jobs, handled) && id !in jobs
    ensures HandledOk(jobs[id := Job(path, Stored)], handled)
  {
    assert id !in handled;
  }

  lemma StoreCounted(jobs: map<nat, Job>, id: nat, path: string)
    requires id !in jobs
    ensures |CountedJobs(jobs[id := Job(path, Stored)])| == |CountedJobs(jobs)|
  {
    assert CountedJobs(jobs[id := Job(path, Stored)]) == CountedJobs(jobs);
  }

  lemma StoreKeepsInv(q: Queue, id: nat, path: string)
    requires Inv(q) && Enabled(q, Store(id, path))
    ensures Inv(Step(q, Store(id, path)))
  {
    if path !in q.inflight {
      StoreKeepsDedup(q.jobs, q.inflight, id, path);
      StoreKeepsPlaces(q.jobs, q.buffer, q.busy, q.workers, id, path);
      StoreKeepsHandled(q.jobs, q.handled, id, path);
      StoreCounted(q.jobs, id, path);
    }
  }

  lemma MoveDedup(jobs: map<nat, Job>, inflight: map<string, nat>, id: nat, stage: Stage)
    requires DedupOk(jobs, inflight) && id in jobs && (InFlight(stage) <==> InFlight(jobs[id].stage))
    ensures DedupOk(Move(jobs, id, stage), inflight)
  {
  }

  lemma MoveBuffer(jobs: map<nat, Job>, buffer: seq<nat>, id: nat, stage: Stage)
    requires BufferOk(jobs, buffer) && id in jobs && !stage.Buffered? && !jobs[id].stage.Buffered?
    ensures BufferOk(Move(jobs, id, stage), buffer)
  {
  }

  lemma MoveWorkers(jobs: map<nat, Job>, busy: map<nat, nat>, workers: nat, id: nat, stage: Stage)
    requires WorkersOk(jobs, busy, workers) && id in jobs && (OnWorker(stage) <==> OnWorker(jobs[id].stage))
    requires OnWorker(stage) ==> stage.w == jobs[id].stage.w
    ensures WorkersOk(Move(jobs, id, stage), busy, workers)
  {
  }

  lemma MoveHandled(jobs: map<nat, Job>, handled: seq<nat>, id: nat, stage: Stage)
    requires HandledOk(jobs, handled) && id in jobs && (Begun(stage) <==> Begun(jobs[id].stage))
    ensures HandledOk(Move(jobs, id, stage), handled)
  {
  }

  lemma CountKeepsInv(q: Queue, id: nat)
    requires Inv(q) && Enabled(q, Count(id))
    ensures Inv(Step(q, Count(id)))
  {
    MoveCounted(q.jobs, id, Counted);
    MoveDedup(q.jobs, q.inflight, id, Counted);
    MoveBuffer(q.jobs, q.buffer, id, Counted);
    MoveWorkers(q.jobs, q.busy, q.workers, id, Counted);
    MoveHandled(q.jobs, q.handled, id, Counted);
  }

  lemma SendBuffer(jobs: map<nat, Job>, buffer: seq<nat>, id: nat)
    requires BufferOk(jobs, buffer) && id in jobs && jobs[id].stage.Counted?
    ensures BufferOk(Move(jobs, id, Buffered), buffer + [id])
  {
  }

  lemma SendKeepsInv(q: Queue, id: nat)
    requires Inv(q) && Enabled(q, Send(id))
    ensures Inv(Step(q, Send(id)))
  {
    MoveCounted(q.jobs, id, Buffered);
    MoveDedup(q.jobs, q.inflight, id, Buffered);
    SendBuffer(q.jobs, q.buffer, id);
    MoveWorkers(q.jobs, q.busy, q.workers, id, Buffered);
    MoveHandled(q.jobs, q.handled, id, Buffered);
  }

  lemma ReceiveBuffer(jobs: map<nat, Job>, buffer: seq<nat>, w: nat)
    requires BufferOk(jobs, buffer) && buffer != []
    ensures buffer[0] in jobs && BufferOk(Move(jobs, buffer[0], Running(w)), buffer[1..])
  {
    forall i | i in jobs && i != buffer[0] && jobs[i].stage.Buffered? ensures i in buffer[1..] {
      assert i in buffer;
    }
  }

  lemma ReceiveWorkers(jobs: map<nat, Job>, busy: map<nat, nat>, workers: nat, id: nat, w: nat)
    requires WorkersOk(jobs, busy, workers) && id in jobs && jobs[id].stage.Buffered? && w < workers && w !in busy
    ensures WorkersOk(Move(jobs, id, Running(w)), busy[w := id], workers)
  {
  }

  lemma ReceiveHandled(jobs: map<nat, Job>, handled: seq<nat>, id: nat, w: nat)
    requires HandledOk(jobs, handled) && id in jobs && jobs[id].stage.Buffered?
    ensures HandledOk(Move(jobs, id, Running(w)), handled + [id])
  {
  }

  lemma ReceiveKeepsInv(q: Queue, w: nat)
    requires Inv(q) && Enabled(q, Receive(w))
    ensures q.buffer[0] in q.jobs && Inv(Step(q, Receive(w)))
  {
    var id := q.buffer[0];
    ReceiveBuffer(q.jobs, q.buffer, w);
    MoveCounted(q.jobs, id, Running(w));
    MoveDedup(q.jobs, q.inflight, id, Running(w));
    ReceiveWorkers(q.jobs, q.busy, q.workers, id, w);
    ReceiveHandled(q.jobs, q.handled, id, w);
  }

  lemma ReturnKeepsInv(q: Queue, w: nat)
    requires Inv(q) && Enabled(q, Return(w))
    ensures Inv(Step(q, Return(w)))
  {
    var id := q.busy[w];
    MoveCounted(q.jobs, id, Handled(w));
    MoveDedup(q.jobs, q.inflight, id, Handled(w));
    MoveBuffer(q.jobs, q.buffer, id, Handled(w));
    MoveWorkers(q.jobs, q.busy, q.workers, id, Handled(w));
    MoveHandled(q.jobs, q.handled, id, Handled(w));
  }

  lemma DeleteDedup(jobs: map<nat, Job>, inflight: map<string, nat>, id: nat, w: nat)
    requires DedupOk(jobs, inflight) && id in jobs && jobs[id].stage.Handled?
    ensures DedupOk(Move(jobs, id, Deleted(w)), inflight - {jobs[id].path})
  {
  }

  lemma DeleteKeepsInv(q: Queue, w: nat)
    requires Inv(q) && Enabled(q, Delete(w))
    ensures Inv(Step(q, Delete(w)))
  {
    var id := q.busy[w];
    MoveCounted(q.jobs, id, Deleted(w));
    DeleteDedup(q.jobs, q.inflight, id, w);
    MoveBuffer(q.jobs, q.buffer, id, Deleted(w));
    MoveWorkers(q.jobs, q.busy, q.workers, id, Deleted(w));
    MoveHandled(q.jobs, q.handled, id, Deleted(w));
  }

  lemma DoneWorkers(jobs: map<nat, Job>, busy: map<nat, nat>, workers: nat, w: nat)
    requires WorkersOk(jobs, busy, workers) && w in busy && busy[w] in jobs && jobs[busy[w]].stage == Deleted(w)
    ensures WorkersOk(Move(jobs, busy[w], Finished), busy - {w}, workers)
  {
  }

  lemma DoneKeepsInv(q: Queue, w: nat)
    requires Inv(q) && Enabled(q, Done(w))
    ensures Inv(Step(q, Done(w)))
  {
    var id := q.busy[w];
    MoveCounted(q.jobs, id, Finished);
    MoveDedup(q.jobs, q.inflight, id, Finished);
    MoveBuffer(q.jobs, q.buffer, id, Finished);
    DoneWorkers(q.jobs, q.busy, q.workers, w);
    MoveHandled(q.jobs, q.handled, id, Finished);
  }

  lemma StepKeepsInv(q: Queue, a: Action)
    requires Inv(q) && Enabled(q, a)
    ensures a.Receive? ==> q.buffer[0] in q.jobs
    ensures Inv(Step(q, a))
  {
    match a
    case Store(id, path) => StoreKeepsInv(q, id, path);
    case Count(id) => CountKeepsInv(q, id);
    case Send(id) => SendKeepsInv(q, id);
    case Receive(w) => ReceiveKeepsInv(q, w);
    case Return(w) => ReturnKeepsInv(q, w);
    case Delete(w) => DeleteKeepsInv(q, w);
    case Done(w) => DoneKeepsInv(q, w);
  }

  /** A counted job is held up by the channel exactly while that holds eight jobs per worker. */
  lemma SendBlockedIff(q: Queue, id: nat)
    requires Inv(q) && At(q, id, Counted)
    ensures !Enabled(q, Send(id)) <==> |q.buffer| == 8 * q.workers
  {
  }

  lemma NewKeepsInv(workers: int)
    ensures Inv(New(workers)) && New(workers).workers == (if workers < 1 then 1 else workers)
  {
    assert CountedJobs(New(workers).jobs) == {};
  }

  // ---- whole runs --------------------------------------------------------------------

  ghost predicate IsRun(states: seq<Queue>, acts: seq<Action>) {
    && |states| == |acts| + 1
    && (exists workers :: states[0] == New(workers))
    && Follows(states, acts)
  }

  ghost predicate Follows(states: seq<Queue>, acts: seq<Action>) {
    && |states| == |acts| + 1
    && forall i :: 0 <= i < |acts| ==>
         && Enabled(states[i], acts[i]) && (acts[i].Receive? ==> states[i].buffer[0] in states[i].jobs)
         && states[i + 1] == Step(states[i], acts[i])
  }

  lemma {:induction false} RunKeepsInv(states: seq<Queue>, acts: seq<Action>, i: nat)
    requires IsRun(states, acts) && i < |states|
    ensures Inv(states[i]) && states[i].workers == states[0].workers
  {
    if i == 0 {
      var workers :| states[0] == New(workers);
      NewKeepsInv(workers);
    } else {
      RunKeepsInv(states, acts, i - 1);
      assert Enabled(states[i - 1], acts[i - 1]);
      StepKeepsInv(states[i - 1], acts[i - 1]);
    }
  }

  /** Mutual exclusion: no path is in the hands of two workers at once, and a path is in the dedup
      set exactly while one job has it stored, counted, buffered, running or just handled. */
  lemma OneWorkerPerPath(states: seq<Queue>, acts: seq<Action>, i: nat, path: string)
    requires IsRun(states, acts) && i < |states|
    ensures var q := states[i];
      && (path in q.inflight <==> exists j :: j in q.jobs && q.jobs[j].path == path && InFlight(q.jobs[j].stage))
      && (forall j, k ::
            (j in q.jobs && q.jobs[j].path == path && InFlight(q.jobs[j].stage)
             && k in q.jobs && q.jobs[k].path == path && InFlight(q.jobs[k].stage))
            ==> j == k)
      && q.workers == states[0].workers && |q.buffer| <= 8 * q.workers
      && q.pending == |CountedJobs(q.jobs)|
  {
    RunKeepsInv(states, acts, i);
    var q := states[i];
    if path in q.inflight {
      assert q.inflight[path] in q.jobs;
    }
  }

  /** Exactly once: each accepted submission's handler begins at most once, has begun exactly when
      the job has left the buffer, and nothing else is ever handled. */
  lemma HandledExactlyOnce(states: seq<Queue>, acts: seq<Action>, i: nat)
    requires IsRun(states, acts) && i < |states|
    ensures var q := states[i];
      && (forall j :: j in q.handled ==> j in q.jobs)
      && (forall j :: j in q.jobs ==> multiset(q.handled)[j] == (if Begun(q.jobs[j].stage) then 1 else 0))
  {
    RunKeepsInv(states, acts, i);
  }

  // ---- draining ----------------------------------------------------------------------

  function Weight(s: Stage): nat {
    match s
    case Stored => 6
    case Counted => 5
    case Buffered => 4
    case Running(_) => 3
    case Handled(_) => 2
    case Deleted(_) => 1
    case Finished => 0
  }

  function Weights(jobs: map<nat, Job>): map<nat, int> {
    map i | i in jobs :: Weight(jobs[i].stage)
  }

  ghost function Measure(q: Queue): int {
    Total(Weights(q.jobs))
  }

  lemma MoveWeight(jobs: map<nat, Job>, id: nat, stage: Stage)
    requires id in jobs
    ensures Total(Weights(Move(jobs, id, stage))) == Total(Weights(jobs)) - Weight(jobs[id].stage) + Weight(stage)
  {
    TotalUpdate(Weights(jobs), id, Weight(stage));
    assert Weights(Move(jobs, id, stage)) == Weights(jobs)[id := Weight(stage)];
  }

  /** The job a step moves, and where to. */
  function Mover(q: Queue, a: Action): nat
    requires Enabled(q, a)
  {
    match a
    case Store(id, _) => id
    case Count(id) => id
    case Send(id) => id
    case Receive(_) => q.buffer[0]
    case Return(w) => q.busy[w]
    case Delete(w) => q.busy[w]
    case Done(w) => q.busy[w]
  }

  function Target(a: Action): Stage {
    match a
    case Store(_, _) => Stored
    case Count(_) => Counted
    case Send(_) => Buffered
    case Receive(w) => Running(w)
    case Return(w) => Handled(w)
    case Delete(w) => Deleted(w)
    case Done(_) => Finished
  }

  lemma StepMoves(q: Queue, a: Action)
    requires Enabled(q, a) && !a.Store?
    requires a.Receive? ==> At(q, q.buffer[0], Buffered)
    ensures Mover(q, a) in q.jobs && Step(q, a).jobs == Move(q.jobs, Mover(q, a), Target(a))
    ensures Weight(Target(a)) == Weight(q.jobs[Mover(q, a)].stage) - 1
  {
  }

  lemma EveryStepCounts(q: Queue, a: Action)
    requires Enabled(q, a) && !a.Store?
    requires a.Receive? ==> At(q, q.buffer[0], Buffered)
    ensures Measure(Step(q, a)) == Measure(q) - 1
  {
    StepMoves(q, a);
    MoveWeight(q.jobs, Mover(q, a), Target(a));
  }

  predicate Drained(q: Queue) {
    forall i :: i in q.jobs ==> q.jobs[i].stage.Finished?
  }

  /** The pool never jams: while any accepted job is unfinished some submitter or worker can take a
      step, even with the buffer full and every submitter blocked. */
  lemma NeverStuck(q: Queue) returns (a: Action)
    requires Inv(q) && !Drained(q)
    ensures Enabled(q, a) && !a.Store?
  {
    a := NeverStuckWithout(q, {});
  }

  /** Not even if the submitters of some stored jobs never get to run: any other unfinished job
      leaves a step that is not theirs. */
  lemma NeverStuckWithout(q: Queue, held: set<nat>) returns (a: Action)
    requires Inv(q) && exists i :: i in q.jobs && i !in held && !q.jobs[i].stage.Finished?
    requires forall i :: i in held ==> At(q, i, Stored)
    ensures Enabled(q, a) && !a.Store? && (a.Count? ==> a.id !in held)
  {
    var i :| i in q.jobs && i !in held && !q.jobs[i].stage.Finished?;
    if q.jobs[i].stage.Stored? {
      a := Count(i);
    } else if w :| w in q.busy {
      a := match q.jobs[q.busy[w]].stage
        case Running(_) => Return(w)
        case Handled(_) => Delete(w)
        case _ => Done(w);
    } else if q.buffer != [] {
      a := Receive(0);
    } else {
      a := Send(i);
    }
  }

  /** A drained queue lets Wait return, with every accepted job handled exactly once. */
  lemma DrainedMeansDone(q: Queue)
    requires Inv(q) && Drained(q)
    ensures q.pending == 0 && q.inflight == map[] && q.buffer == []
    ensures forall i :: i in q.jobs ==> multiset(q.handled)[i] == 1
  {
    assert CountedJobs(q.jobs) == {};
    if q.buffer != [] {
      BufferedUnfinished(q);
    }
  }

  lemma BufferedUnfinished(q: Queue)
    requires Inv(q) && q.buffer != []
    ensures !Drained(q)
  {
    assert q.jobs[q.buffer[0]].stage.Buffered?;
  }

  /** With submissions stopped every step lowers the measure by one, so no run is longer than the
      measure it starts from and every run that is not cut short drains. */
  lemma {:induction false} DrainBound(states: seq<Queue>, acts: seq<Action>, i: nat)
    requires Follows(states, acts) && Inv(states[0]) && i <= |acts|
    requires forall k :: 0 <= k < |acts| ==> !acts[k].Store?
    ensures Inv(states[i]) && 0 <= Measure(states[i]) == Measure(states[0]) - i
  {
    if i > 0 {
      DrainBound(states, acts, i - 1);
      assert Enabled(states[i - 1], acts[i - 1]);
      StepKeepsInv(states[i - 1], acts[i - 1]);
      EveryStepCounts(states[i - 1], acts[i - 1]);
    }
    TotalNonNegative(Weights(states[i].jobs));
  }

  /** Wait may return when the counter is zero; then every job that was counted is finished. */
  lemma WaitMeansHandled(q: Queue, i: nat)
    requires Inv(q) && q.pending == 0 && i in q.jobs
    ensures q.jobs[i].stage.Stored? || (q.jobs[i].stage.Finished? && multiset(q.handled)[i] == 1)
  {
    assert i !in CountedJobs(q.jobs);
  }
}
