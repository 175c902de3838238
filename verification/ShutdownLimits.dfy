/** A short run showing that a callback inside its submit call is as dangerous to a shutdown as one
    that has not called submit yet: a path pending at Close is taken for handled and never is. */
module ShutdownLimits {
  import opened Options
  import SM = SchedulerModel
  import S = SchedulerRuns
  import Q = QueueModel
  import opened Shutdown

  /** A run under construction. */
  lemma Continue(delay: nat, states: seq<State>, acts: seq<Action>, a: Action)
    returns (states': seq<State>, acts': seq<Action>)
    requires Follows(delay, states, acts) && Enabled(delay, states[|acts|], a)
    ensures states' == states + [Step(delay, states[|acts|], a)] && acts' == acts + [a]
    ensures Follows(delay, states', acts')
  {
    states' := states + [Step(delay, states[|acts|], a)];
    acts' := acts + [a];
    forall i | 0 <= i < |acts'|
      ensures Enabled(delay, states'[i], acts'[i]) && states'[i + 1] == Step(delay, states'[i], acts'[i])
    {
      if i < |acts| {
        assert states'[i] == states[i] && acts'[i] == acts[i] && states'[i + 1] == states[i + 1];
      }
    }
  }

  const NOTHING: Scheduler := S.State(SM.Core(map[], map[], map[], 0), 0, map[], map[], [], map[], map[])

  /** An event's timer has run out: its callback waits for the lock. */
  lemma TimerFires(delay: nat, path: string, size: nat) returns (states: seq<State>, acts: seq<Action>)
    ensures Follows(delay, states, acts) && Initial(states[0]) && |acts| == 3
    ensures states[|acts|] == State(
      S.State(SM.Core(map[path := 0], map[0 := SM.Entry(size, 1, 0)], map[0 := SM.Callback(path, 0, 1, true)], 1),
              delay, map[0 := S.Waiting], map[0 := path], [], map[0 := S.Arming(0, size)], map[path := 0]),
      Q.New(1), Looping, map[])
  {
    Q.NewKeepsInv(1);
    states, acts := [State(NOTHING, Q.New(1), Looping, map[])], [];
    states, acts := Continue(delay, states, acts, Timers(S.Event(path, Some(size), 0)));
    states, acts := Continue(delay, states, acts, Timers(S.Tick(delay)));
    states, acts := Continue(delay, states, acts, Timers(S.Expire(0)));
  }

  /** The callback finds the size settled and gives up the lock. */
  lemma CallbackSettles(delay: nat, path: string, size: nat) returns (states: seq<State>, acts: seq<Action>)
    ensures Follows(delay, states, acts) && Initial(states[0]) && |acts| == 4
    ensures states[|acts|] == State(
      S.State(SM.Core(map[], map[0 := SM.Entry(size, 1, 0)], map[], 1),
              delay, map[0 := S.Submitting], map[0 := path], [], map[0 := S.Arming(0, size)], map[path := 0]),
      Q.New(1), Looping, map[])
  {
    states, acts := TimerFires(delay, path, size);
    states, acts := Continue(delay, states, acts, Timers(S.Callback(0, SM.Size(size))));
  }

  /** It enters submit and stores job 0. */
  lemma CallbackInsideSubmit(delay: nat, path: string, size: nat) returns (states: seq<State>, acts: seq<Action>)
    ensures Follows(delay, states, acts) && Initial(states[0]) && |acts| == 5
    ensures states[|acts|] == State(
      S.State(SM.Core(map[], map[0 := SM.Entry(size, 1, 0)], map[], 1),
              delay, map[0 := S.Submitted], map[0 := path], [0], map[0 := S.Arming(0, size)], map[path := 0]),
      Q.Queue(1, map[0 := Q.Job(path, Q.Stored)], [], map[path := 0], 0, map[], []), Looping, map[0 := 0])
  {
    states, acts := CallbackSettles(delay, path, size);
    states, acts := Continue(delay, states, acts, Hand(0, 0));
  }

  /** The path is scheduled again and pending when Close is called. */
  lemma PendingAtClose(delay: nat, path: string, size: nat) returns (states: seq<State>, acts: seq<Action>)
    ensures Follows(delay, states, acts) && Initial(states[0]) && |acts| == 6
    ensures var c := states[|acts|];
      && c.main.Looping? && c.jobOf == map[0 := 0]
      && c.sched.fates == map[0 := S.Submitted, 1 := S.Waiting] && c.sched.paths == map[0 := path, 1 := path]
      && c.sched.core.timers == map[path := 1] && SM.Closed(c.sched.core)
      && c.q == Q.Queue(1, map[0 := Q.Job(path, Q.Stored)], [], map[path := 0], 0, map[], [])
  {
    states, acts := CallbackInsideSubmit(delay, path, size);
    states, acts := Continue(delay, states, acts, Timers(S.Event(path, Some(size), 1)));
  }

  /** Close takes the path out of the pending map. */
  lemma ClosePends(delay: nat, path: string, size: nat) returns (states: seq<State>, acts: seq<Action>)
    ensures Follows(delay, states, acts) && Initial(states[0]) && |acts| == 7 && acts[6].CloseNow?
    ensures states[6].sched.fates == map[0 := S.Submitted, 1 := S.Waiting]
    ensures path in states[6].sched.core.timers && !NoneInWindow(states[6])
    ensures states[7].main == Flushing(None) && states[7].sched.fates == map[0 := S.Submitted, 1 := S.Flushing]
    ensures states[7].sched.paths == map[0 := path, 1 := path]
    ensures states[7].q == Q.Queue(1, map[0 := Q.Job(path, Q.Stored)], [], map[path := 0], 0, map[], [])
  {
    states, acts := PendingAtClose(delay, path, size);
    assert states[6].q.jobs[0].stage.Stored?;
    states, acts := Continue(delay, states, acts, CloseNow);
  }

  /** Its submit of the path is deduplicated into the stored job. */
  lemma FlushDeduplicated(delay: nat, path: string, size: nat) returns (states: seq<State>, acts: seq<Action>)
    ensures Follows(delay, states, acts) && Initial(states[0]) && |acts| == 8 && acts[6].CloseNow?
    ensures states[6].sched.fates == map[0 := S.Submitted, 1 := S.Waiting]
    ensures path in states[6].sched.core.timers && !NoneInWindow(states[6])
    ensures states[8].main == Flushing(None) && states[8].sched.fates == map[0 := S.Submitted, 1 := S.Submitted]
    ensures states[8].q == Q.Queue(1, map[0 := Q.Job(path, Q.Stored)], [], map[path := 0], 0, map[], [])
  {
    states, acts := ClosePends(delay, path, size);
    states, acts := Continue(delay, states, acts, Hand(1, 1));
  }

  /** No callback is between unlock and submit, and the path is pending when Close is called; yet
      nothing is counted, and Wait returns with no handler ever run. */
  lemma DedupedIntoUncounted(delay: nat, path: string, size: nat) returns (states: seq<State>, acts: seq<Action>)
    ensures Follows(delay, states, acts) && Initial(states[0]) && |acts| == 9 && acts[6].CloseNow?
    ensures forall p :: p in states[6].sched.fates ==> !states[6].sched.fates[p].Submitting?
    ensures path in states[6].sched.core.timers && !NoneInWindow(states[6])
    ensures Ended(states[9]) && states[9].sched.fates == map[0 := S.Submitted, 1 := S.Submitted]
    ensures states[9].q.handled == [] && !AllDone(states[9])
  {
    states, acts := FlushDeduplicated(delay, path, size);
    states, acts := Continue(delay, states, acts, BeginWait);
    assert !JobDone(states[9], 0);
  }
}
