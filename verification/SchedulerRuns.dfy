/** Whole runs of the scheduler: events, timers that fire, callbacks that get the lock, the
    submissions made after the lock is given up, and Close. Each entry is one scheduling episode
    of its path; the history records what became of it. */
module SchedulerRuns {
  import opened SchedulerModel
  import opened Options

  /** Submitting: removed by a callback that has not called submit yet. Flushing: swapped out by
      Close, not submitted yet. */
  datatype Fate = Waiting | Submitting | Flushing | Submitted | Dropped

  /** One arming of a timer: when, and with which size recorded. */
  datatype Arming = Arming(at: nat, size: int)

  datatype State<P> = State(
    core: Core<P>,
    now: nat,
    fates: map<P, Fate>,
    paths: map<P, string>,
    log: seq<P>,                // submissions in order
    armings: map<nat, Arming>,  // by timer
    latest: map<string, nat>)   // the timer armed by the last schedule call of a path

  datatype Action<P> =
    | Tick(n: nat)
    | Event(path: string, size: Option<nat>, newcomer: P)
    | Expire(t: nat)
    | Callback(t: nat, stat: Stat)
    | Submit(p: P)
    | Close

  ghost predicate Enabled<P>(delay: nat, s: State<P>, a: Action<P>) {
    match a
    case Tick(_) => true
    case Event(_, _, newcomer) => newcomer !in s.core.entries
    case Expire(t) => t in s.core.out && !s.core.out[t].fired && t in s.armings && s.now >= s.armings[t].at + delay
    case Callback(t, _) => t in s.core.out && s.core.out[t].fired
    case Submit(p) => p in s.fates && (s.fates[p].Submitting? || s.fates[p].Flushing?)
    case Close => true
  }

  function Recorded(size: Option<nat>): int {
    if size.Some? then size.value else -1
  }

  ghost function Record<P>(s: State<P>, c: Core<P>, size: int): State<P> {
    s.(core := c, armings := s.armings[s.core.next := Arming(s.now, size)])
  }

  ghost function AfterEvent<P>(s: State<P>, path: string, size: int, newcomer: P): State<P>
    requires Closed(s.core)
  {
    var s1 := Record(s, Schedule(s.core, path, size, newcomer), size).(latest := s.latest[path := s.core.next]);
    if path in s.core.timers then s1
    else s1.(fates := s.fates[newcomer := Waiting], paths := s.paths[newcomer := path])
  }

  ghost function AfterCallback<P>(s: State<P>, t: nat, stat: Stat): State<P>
    requires Closed(s.core) && t in s.core.out
  {
    var c, p := Check(s.core, t, stat), s.core.out[t].entry;
    match Judge(s.core, t, stat)
    case Stale => s.(core := c)
    case Vanished => s.(core := c, fates := s.fates[p := Dropped])
    case Settled => s.(core := c, fates := s.fates[p := Submitting])
    case Retry => Record(s, c, s.core.entries[p].size)
    case Resized => Record(s, c, stat.n)
  }

  ghost function AfterClose<P>(s: State<P>): State<P>
    requires Closed(s.core)
  {
    s.(core := CloseAll(s.core),
       fates := map p | p in s.fates :: if s.fates[p].Waiting? then Flushing else s.fates[p])
  }

  ghost function Step<P>(delay: nat, s: State<P>, a: Action<P>): State<P>
    requires Closed(s.core) && Enabled(delay, s, a)
  {
    match a
    case Tick(n) => s.(now := s.now + n)
    case Event(path, size, newcomer) => AfterEvent(s, path, Recorded(size), newcomer)
    case Expire(t) => s.(core := Fire(s.core, t))
    case Callback(t, stat) => AfterCallback(s, t, stat)
    case Submit(p) => s.(fates := s.fates[p := Submitted], log := s.log + [p])
    case Close => AfterClose(s)
  }

  // ---- the invariant -----------------------------------------------------------------

  /** The entry is the pending entry of its path. */
  ghost predicate IsPending<P>(s: State<P>, p: P) {
    p in s.paths && s.paths[p] in s.core.timers && s.core.timers[s.paths[p]] == p
  }

  /** An entry is pending exactly while its fate is open, and logged exactly once if submitted. */
  ghost predicate EpisodeOk<P>(s: State<P>, p: P) {
    && p in s.fates && p in s.paths
    && (s.fates[p].Waiting? <==> IsPending(s, p))
    && multiset(s.log)[p] == (if s.fates[p].Submitted? then 1 else 0)
  }

  ghost predicate Episodes<P>(s: State<P>) {
    && s.fates.Keys == s.paths.Keys == s.core.entries.Keys
    && (forall p :: p in s.fates ==> EpisodeOk(s, p))
    && (forall p :: p in s.log ==> p in s.fates)
    && (forall path :: path in s.core.timers ==> s.core.timers[path] in s.paths && s.paths[s.core.timers[path]] == path)
  }

  /** A pending entry's size is the one recorded when its timer was armed, which was by or after
      the last schedule call of its path. */
  ghost predicate ArmingOk<P>(s: State<P>, path: string)
    requires Closed(s.core) && path in s.core.timers
  {
    var e := s.core.entries[s.core.timers[path]];
    e.timer in s.armings && s.armings[e.timer].size == e.size && path in s.latest && s.latest[path] <= e.timer
  }

  ghost predicate Timely<P>(delay: nat, s: State<P>, t: nat)
    requires t in s.core.out
  {
    t in s.armings && (s.core.out[t].fired ==> s.now >= s.armings[t].at + delay)
  }

  ghost predicate Clocks<P>(delay: nat, s: State<P>)
    requires Closed(s.core)
  {
    && (forall path :: path in s.core.timers ==> ArmingOk(s, path))
    && (forall t :: t in s.core.out ==> Timely(delay, s, t))
  }

  ghost predicate Inv<P>(delay: nat, s: State<P>) {
    CoreInv(s.core) && Episodes(s) && Clocks(delay, s)
  }

  ghost predicate Initial<P>(s: State<P>) {
    s == State(Core(map[], map[], map[], 0), s.now, map[], map[], [], map[], map[])
  }

  /** What a new pending entry adds to the records. */
  ghost predicate Entered<P>(s: State<P>, s': State<P>, path: string, newcomer: P) {
    && s'.fates == s.fates[newcomer := Waiting] && s'.paths == s.paths[newcomer := path] && s'.log == s.log
    && s'.core.timers == s.core.timers[path := newcomer]
  }

  lemma NewcomerOk<P>(s: State<P>, s': State<P>, path: string, newcomer: P)
    requires Entered(s, s', path, newcomer) && newcomer !in s.log
    ensures EpisodeOk(s', newcomer)
  {
  }

  lemma OldEpisodeOk<P>(s: State<P>, s': State<P>, path: string, newcomer: P, p: P)
    requires Entered(s, s', path, newcomer) && path !in s.core.timers && p != newcomer && EpisodeOk(s, p)
    ensures EpisodeOk(s', p)
  {
    assert IsPending(s', p) <==> IsPending(s, p);
  }

  /** A new pending entry is a new episode. */
  lemma NewEpisode<P>(s: State<P>, s': State<P>, path: string, newcomer: P)
    requires Episodes(s) && newcomer !in s.fates && path !in s.core.timers && Entered(s, s', path, newcomer)
    requires s'.core.entries.Keys == s.core.entries.Keys + {newcomer}
    ensures Episodes(s')
  {
    NewcomerOk(s, s', path, newcomer);
    forall p | p in s'.fates ensures EpisodeOk(s', p) {
      if p != newcomer {
        OldEpisodeOk(s, s', path, newcomer, p);
      }
    }
  }

  lemma EventKeepsEpisodes<P>(s: State<P>, path: string, size: int, newcomer: P)
    requires CoreInv(s.core) && Episodes(s) && newcomer !in s.core.entries
    ensures Episodes(AfterEvent(s, path, size, newcomer))
  {
    if path in s.core.timers {
      SameEpisodes(s, AfterEvent(s, path, size, newcomer));
    } else {
      NewEpisode(s, AfterEvent(s, path, size, newcomer), path, newcomer);
    }
  }

  lemma EventArmsPath<P>(s: State<P>, path: string, size: int, newcomer: P)
    requires CoreInv(s.core) && newcomer !in s.core.entries
    ensures var s' := AfterEvent(s, path, size, newcomer);
      Closed(s'.core) ==> path in s'.core.timers && ArmingOk(s', path)
  {
  }

  lemma EventKeepsArming<P>(s: State<P>, path: string, size: int, newcomer: P, q: string)
    requires CoreInv(s.core) && newcomer !in s.core.entries && q != path && q in s.core.timers && ArmingOk(s, q)
    ensures var s' := AfterEvent(s, path, size, newcomer); Closed(s'.core) ==> q in s'.core.timers && ArmingOk(s', q)
  {
    LatestTimerOld(s.core, q);
  }

  lemma EventKeepsClocks<P>(delay: nat, s: State<P>, path: string, size: int, newcomer: P)
    requires CoreInv(s.core) && Clocks(delay, s) && newcomer !in s.core.entries
    requires Closed(AfterEvent(s, path, size, newcomer).core)
    ensures Clocks(delay, AfterEvent(s, path, size, newcomer))
  {
    var s' := AfterEvent(s, path, size, newcomer);
    EventArmsPath(s, path, size, newcomer);
    forall q | q in s'.core.timers ensures ArmingOk(s', q) {
      if q != path {
        EventKeepsArming(s, path, size, newcomer, q);
      }
    }
    forall t | t in s'.core.out ensures Timely(delay, s', t) {
      assert t != s.core.next ==> Timely(delay, s, t);
    }
  }

  lemma LatestTimerOld<P>(c: Core<P>, path: string)
    requires CoreInv(c) && path in c.timers
    ensures c.entries[c.timers[path]].timer < c.next
    ensures forall q :: q in c.timers && q != path ==> c.timers[q] != c.timers[path]
  {
    assert Awaited(c, path) && NotAhead(c, c.entries[c.timers[path]].timer);
  }

  lemma SameEpisodes<P>(s: State<P>, s': State<P>)
    requires Episodes(s) && s'.fates == s.fates && s'.paths == s.paths && s'.log == s.log
    requires s'.core.timers == s.core.timers && s'.core.entries.Keys == s.core.entries.Keys
    ensures Episodes(s')
  {
    forall p | p in s'.fates ensures EpisodeOk(s', p) {
      assert EpisodeOk(s, p);
    }
  }

  /** The pending entry of a path leaves the map and its fate is no longer open. */
  lemma LeaveKeepsEpisodes<P>(s: State<P>, s': State<P>, path: string, fate: Fate)
    requires Episodes(s) && path in s.core.timers && (fate.Submitting? || fate.Dropped?)
    requires s'.fates == s.fates[s.core.timers[path] := fate] && s'.paths == s.paths && s'.log == s.log
    requires s'.core.timers == s.core.timers - {path} && s'.core.entries == s.core.entries
    ensures Episodes(s')
  {
    assert EpisodeOk(s, s.core.timers[path]);
    forall p | p in s'.fates ensures EpisodeOk(s', p) {
      assert EpisodeOk(s, p);
    }
  }

  lemma CallbackLeaves<P>(s: State<P>, t: nat, stat: Stat, fate: Fate)
    requires CoreInv(s.core) && Episodes(s) && t in s.core.out
    requires Leaving(s, t, stat)
    requires fate == if Judge(s.core, t, stat).Vanished? then Dropped else Submitting
    ensures Episodes(AfterCallback(s, t, stat))
  {
    LeaveKeepsEpisodes(s, AfterCallback(s, t, stat), s.core.out[t].path, fate);
  }

  ghost predicate Leaving<P>(s: State<P>, t: nat, stat: Stat)
    requires Closed(s.core) && t in s.core.out
  {
    Judge(s.core, t, stat).Vanished? || Judge(s.core, t, stat).Settled?
  }

  lemma CheckFrame<P>(c: Core<P>, t: nat, stat: Stat)
    requires Closed(c) && t in c.out && !Judge(c, t, stat).Vanished? && !Judge(c, t, stat).Settled?
    ensures Check(c, t, stat).timers == c.timers && Check(c, t, stat).entries.Keys == c.entries.Keys
  {
  }

  /** A callback that neither drops nor submits leaves the records of the episodes alone. */
  lemma CallbackFrame<P>(s: State<P>, t: nat, stat: Stat)
    requires Closed(s.core) && t in s.core.out && !Leaving(s, t, stat)
    ensures var s' := AfterCallback(s, t, stat);
      s'.fates == s.fates && s'.paths == s.paths && s'.log == s.log && s'.core == Check(s.core, t, stat)
  {
  }

  lemma CallbackStays<P>(s: State<P>, s': State<P>, t: nat, stat: Stat)
    requires CoreInv(s.core) && Episodes(s) && t in s.core.out && s' == AfterCallback(s, t, stat)
    requires !Leaving(s, t, stat)
    ensures Episodes(s')
  {
    CheckFrame(s.core, t, stat);
    CallbackFrame(s, t, stat);
    SameEpisodes(s, s');
  }

  lemma CallbackKeepsEpisodes<P>(s: State<P>, t: nat, stat: Stat)
    requires CoreInv(s.core) && Episodes(s) && t in s.core.out
    ensures Episodes(AfterCallback(s, t, stat))
  {
    match Judge(s.core, t, stat)
    case Vanished => CallbackLeaves(s, t, stat, Dropped);
    case Settled => CallbackLeaves(s, t, stat, Submitting);
    case _ => CallbackStays(s, AfterCallback(s, t, stat), t, stat);
  }

  /** A live callback rearms its entry with the given size. */
  lemma RearmKeepsClocks<P>(delay: nat, s: State<P>, s': State<P>, t: nat, size: int)
    requires CoreInv(s.core) && Clocks(delay, s) && t in s.core.out && Live(s.core, t)
    requires var cb := s.core.out[t]; s'.core == Arm(s.core.(out := s.core.out - {t}), cb.path, cb.entry, size, cb.gen)
    requires s'.armings == s.armings[s.core.next := Arming(s.now, size)] && s'.now == s.now && s'.latest == s.latest
    requires Closed(s'.core)
    ensures Clocks(delay, s')
  {
    LiveIsLatest(s.core, t);
    forall q | q in s'.core.timers ensures ArmingOk(s', q) {
      LatestTimerOld(s.core, q);
      assert ArmingOk(s, q);
    }
    forall u | u in s'.core.out ensures Timely(delay, s', u) {
      assert u != s.core.next ==> Timely(delay, s, u);
    }
  }

  lemma RetryKeepsClocks<P>(delay: nat, s: State<P>, s': State<P>, t: nat, stat: Stat)
    requires CoreInv(s.core) && Clocks(delay, s) && t in s.core.out && Judge(s.core, t, stat).Retry?
    requires s' == AfterCallback(s, t, stat) && Closed(s'.core)
    ensures Clocks(delay, s')
  {
    RearmKeepsClocks(delay, s, s', t, s.core.entries[s.core.out[t].entry].size);
  }

  lemma ResizedKeepsClocks<P>(delay: nat, s: State<P>, s': State<P>, t: nat, stat: Stat)
    requires CoreInv(s.core) && Clocks(delay, s) && t in s.core.out && Judge(s.core, t, stat).Resized?
    requires s' == AfterCallback(s, t, stat) && Closed(s'.core)
    ensures Clocks(delay, s')
  {
    RearmKeepsClocks(delay, s, s', t, stat.n);
  }

  lemma CallbackKeepsClocks<P>(delay: nat, s: State<P>, t: nat, stat: Stat)
    requires CoreInv(s.core) && Clocks(delay, s) && t in s.core.out
    requires Closed(AfterCallback(s, t, stat).core)
    ensures Clocks(delay, AfterCallback(s, t, stat))
  {
    var s' := AfterCallback(s, t, stat);
    match Judge(s.core, t, stat)
    case Retry => RetryKeepsClocks(delay, s, s', t, stat);
    case Resized => ResizedKeepsClocks(delay, s, s', t, stat);
    case _ => QuietKeepsClocks(delay, s, s');
  }

  lemma CloseKeepsEpisodes<P>(s: State<P>)
    requires CoreInv(s.core) && Episodes(s)
    ensures Episodes(AfterClose(s))
  {
    forall p | p in AfterClose(s).fates ensures EpisodeOk(AfterClose(s), p) {
      assert EpisodeOk(s, p);
    }
  }

  lemma SubmitKeepsEpisodes<P>(s: State<P>, p: P)
    requires Episodes(s) && p in s.fates && (s.fates[p].Submitting? || s.fates[p].Flushing?)
    ensures Episodes(s.(fates := s.fates[p := Submitted], log := s.log + [p]))
  {
    var s' := s.(fates := s.fates[p := Submitted], log := s.log + [p]);
    assert EpisodeOk(s, p);
    forall q | q in s'.fates ensures EpisodeOk(s', q) {
      assert EpisodeOk(s, q);
    }
  }

  lemma EventKeepsInv<P>(delay: nat, s: State<P>, path: string, size: int, newcomer: P)
    requires Inv(delay, s) && newcomer !in s.core.entries
    ensures Inv(delay, AfterEvent(s, path, size, newcomer))
  {
    ScheduleKeepsInv(s.core, path, size, newcomer);
    EventKeepsEpisodes(s, path, size, newcomer);
    EventKeepsClocks(delay, s, path, size, newcomer);
  }

  lemma CallbackKeepsInv<P>(delay: nat, s: State<P>, t: nat, stat: Stat)
    requires Inv(delay, s) && t in s.core.out
    ensures Inv(delay, AfterCallback(s, t, stat))
  {
    CheckKeepsInv(s.core, t, stat);
    CallbackKeepsEpisodes(s, t, stat);
    CallbackKeepsClocks(delay, s, t, stat);
  }

  lemma StepKeepsInv<P>(delay: nat, s: State<P>, a: Action<P>)
    requires Inv(delay, s) && Enabled(delay, s, a)
    ensures Inv(delay, Step(delay, s, a))
  {
    match a
    case Event(path, size, newcomer) => EventKeepsInv(delay, s, path, Recorded(size), newcomer);
    case Callback(t, stat) => CallbackKeepsInv(delay, s, t, stat);
    case Expire(t) =>
      FireKeepsInv(s.core, t);
      SameEpisodes(s, Step(delay, s, a));
      ExpireKeepsClocks(delay, s, t);
    case _ => QuietStepKeepsInv(delay, s, a);
  }

  lemma QuietStepKeepsInv<P>(delay: nat, s: State<P>, a: Action<P>)
    requires Inv(delay, s) && Enabled(delay, s, a) && (a.Tick? || a.Submit? || a.Close?)
    ensures Inv(delay, Step(delay, s, a))
  {
    match a {
      case Tick(n) => SameEpisodes(s, Step(delay, s, a));
      case Submit(p) => SubmitKeepsEpisodes(s, p);
      case Close =>
        CloseKeepsInv(s.core);
        CloseKeepsEpisodes(s);
    }
    QuietKeepsClocks(delay, s, Step(delay, s, a));
  }

  lemma ExpireKeepsClocks<P>(delay: nat, s: State<P>, t: nat)
    requires Closed(s.core) && Clocks(delay, s) && Enabled(delay, s, Action<P>.Expire(t))
    ensures Clocks(delay, s.(core := Fire(s.core, t)))
  {
    var s' := s.(core := Fire(s.core, t));
    forall q | q in s'.core.timers ensures ArmingOk(s', q) {
      assert ArmingOk(s, q);
    }
    forall u | u in s'.core.out ensures Timely(delay, s', u) {
      assert Timely(delay, s, u);
    }
  }

  /** Steps that arm nothing and fire nothing. */
  lemma QuietKeepsClocks<P>(delay: nat, s: State<P>, s': State<P>)
    requires Closed(s.core) && Clocks(delay, s) && Closed(s'.core)
    requires s'.core.entries == s.core.entries && s'.armings == s.armings && s'.latest == s.latest && s'.now >= s.now
    requires forall q :: q in s'.core.timers ==> q in s.core.timers && s'.core.timers[q] == s.core.timers[q]
    requires forall t :: t in s'.core.out ==> t in s.core.out && s'.core.out[t] == s.core.out[t]
    ensures Clocks(delay, s')
  {
    forall q | q in s'.core.timers ensures ArmingOk(s', q) {
      assert ArmingOk(s, q);
    }
    forall t | t in s'.core.out ensures Timely(delay, s', t) {
      assert Timely(delay, s, t);
    }
  }

  // ---- whole runs --------------------------------------------------------------------

  ghost predicate IsRun<P>(delay: nat, states: seq<State<P>>, acts: seq<Action<P>>) {
    && |states| == |acts| + 1
    && Initial(states[0])
    && forall i :: 0 <= i < |acts| ==>
         && Closed(states[i].core) && Enabled(delay, states[i], acts[i])
         && states[i + 1] == Step(delay, states[i], acts[i])
  }

  lemma {:induction false} RunKeepsInv<P>(delay: nat, states: seq<State<P>>, acts: seq<Action<P>>, i: nat)
    requires IsRun(delay, states, acts) && i < |states|
    ensures Inv(delay, states[i])
  {
    if i > 0 {
      RunKeepsInv(delay, states, acts, i - 1);
      assert Enabled(delay, states[i - 1], acts[i - 1]);
      StepKeepsInv(delay, states[i - 1], acts[i - 1]);
    }
  }

  /** Liveness invariant: in every reachable state each pending entry has exactly one outstanding
      callback that can act on it, namely its latest timer, and every other callback, stale
      generation or replaced entry alike, disappears without effect. */
  lemma PendingAlwaysAwaited<P>(delay: nat, states: seq<State<P>>, acts: seq<Action<P>>, i: nat, path: string)
    requires IsRun(delay, states, acts) && i < |states| && path in states[i].core.timers
    ensures CoreInv(states[i].core)
    ensures exists t :: LiveFor(states[i].core, t, path)
    ensures forall t, u :: LiveFor(states[i].core, t, path) && LiveFor(states[i].core, u, path) ==> t == u
    ensures forall t, stat :: t in states[i].core.out && !Live(states[i].core, t) ==>
              AfterCallback(states[i], t, stat) == states[i].(core := states[i].core.(out := states[i].core.out - {t}))
  {
    RunKeepsInv(delay, states, acts, i);
    ExactlyOneLive(states[i].core, path);
  }

  ghost predicate IsWaiting<P>(s: State<P>, p: P) {
    p in s.fates && s.fates[p].Waiting?
  }

  /** Nothing is lost or doubled: in every reachable state each episode is still waiting in the
      pending map, between its removal and its submission, submitted (exactly once in the log), or
      dropped; and the log holds nothing else. */
  lemma EveryEpisodeAccounted<P>(delay: nat, states: seq<State<P>>, acts: seq<Action<P>>, i: nat, p: P)
    requires IsRun(delay, states, acts) && i < |states|
    ensures var s := states[i];
      && (p in s.core.entries <==> p in s.fates)
      && (p in s.log <==> p in s.fates && s.fates[p].Submitted?)
      && multiset(s.log)[p] <= 1
      && (p in s.fates ==> p in s.paths && (s.fates[p].Waiting? <==> IsPending(s, p)))
      && forall path :: path in s.core.timers ==> IsWaiting(s, s.core.timers[path])
  {
    var s := states[i];
    RunKeepsInv(delay, states, acts, i);
    assert p in s.fates ==> EpisodeOk(s, p);
    assert p in s.log <==> multiset(s.log)[p] > 0;
    forall path | path in s.core.timers ensures IsWaiting(s, s.core.timers[path]) {
      assert EpisodeOk(s, s.core.timers[path]);
    }
  }

  lemma CallbackMoves<P>(s: State<P>, t: nat, stat: Stat, p: P)
    requires CoreInv(s.core) && Episodes(s) && t in s.core.out && p in s.fates
    ensures var s' := AfterCallback(s, t, stat);
      && p in s'.fates
      && (s'.fates[p] != s.fates[p] ==>
            && s.fates[p].Waiting? && s.core.out[t].entry == p
            && (if stat.NotExist? then s'.fates[p].Dropped?
                else s'.fates[p].Submitting? && Judge(s.core, t, stat).Settled?))
  {
    if Live(s.core, t) {
      assert EpisodeOk(s, s.core.out[t].entry);
    }
  }

  /** How an episode moves on: it is dropped only when its file does not exist, leaves the pending
      map for submission only settled or at Close, and once closed never reopens. */
  lemma FateMoves<P>(delay: nat, s: State<P>, a: Action<P>, p: P)
    requires Inv(delay, s) && Enabled(delay, s, a) && p in s.fates
    ensures var s' := Step(delay, s, a);
      && p in s'.fates
      && (s'.fates[p] != s.fates[p] ==>
            || (s.fates[p].Waiting? && s'.fates[p].Dropped? && a.Callback? && a.stat.NotExist?
                  && s.core.out[a.t].entry == p)
            || (s.fates[p].Waiting? && s'.fates[p].Submitting? && a.Callback?
                  && s.core.out[a.t].entry == p && Judge(s.core, a.t, a.stat).Settled?)
            || (s.fates[p].Waiting? && s'.fates[p].Flushing? && a.Close?)
            || ((s.fates[p].Submitting? || s.fates[p].Flushing?) && s'.fates[p].Submitted? && a == Submit(p)))
  {
    if a.Callback? {
      CallbackMoves(s, a.t, a.stat, p);
    } else {
      assert EpisodeOk(s, p);
    }
  }

  lemma {:induction false} ClosedStaysClosed<P>(delay: nat, states: seq<State<P>>, acts: seq<Action<P>>,
                                                i: nat, k: nat, p: P)
    requires IsRun(delay, states, acts) && i <= k < |states| && p in states[i].fates && !states[i].fates[p].Waiting?
    ensures p in states[k].fates && !states[k].fates[p].Waiting?
    decreases k
  {
    if i < k {
      ClosedStaysClosed(delay, states, acts, i, k - 1, p);
      RunKeepsInv(delay, states, acts, k - 1);
      assert Enabled(delay, states[k - 1], acts[k - 1]) && states[k] == Step(delay, states[k - 1], acts[k - 1]);
      FateMoves(delay, states[k - 1], acts[k - 1], p);
    }
  }

  /** One step adds at most one callback, under a number never used before. */
  ghost predicate OldCallbacksKept<P>(c: Core<P>, c': Core<P>) {
    && c.next <= c'.next
    && forall t :: t in c'.out && t != c.next ==> t in c.out && c'.out[t].entry == c.out[t].entry
  }

  lemma StepCallbacks<P>(delay: nat, s: State<P>, a: Action<P>)
    requires Closed(s.core) && Enabled(delay, s, a)
    ensures OldCallbacksKept(s.core, Step(delay, s, a).core)
  {
    match a
    case Event(path, size, newcomer) =>
      assert OldCallbacksKept(s.core, Schedule(s.core, path, Recorded(size), newcomer));
    case Callback(t, stat) => assert OldCallbacksKept(s.core, Check(s.core, t, stat));
    case _ =>
  }

  /** So an outstanding callback never changes its entry. */
  lemma {:induction false} CallbackFixed<P>(delay: nat, states: seq<State<P>>, acts: seq<Action<P>>,
                                            i: nat, k: nat, t: nat)
    requires IsRun(delay, states, acts) && i <= k < |states|
    requires t < states[i].core.next && t in states[k].core.out
    ensures t in states[i].core.out && states[k].core.out[t].entry == states[i].core.out[t].entry
    decreases k - i
  {
    if i < k {
      assert Enabled(delay, states[i], acts[i]) && states[i + 1] == Step(delay, states[i], acts[i]);
      StepCallbacks(delay, states[i], acts[i]);
      CallbackFixed(delay, states, acts, i + 1, k, t);
    }
  }

  /** After Close no callback from before it can submit, drop or re-arm anything, whenever it gets
      the lock and whatever has been scheduled since. */
  lemma CloseSilencesOldCallbacks<P>(delay: nat, states: seq<State<P>>, acts: seq<Action<P>>,
                                     i: nat, k: nat, t: nat, stat: Stat)
    requires IsRun(delay, states, acts) && i < k < |states| && acts[i].Close?
    requires t in states[i].core.out && t in states[k].core.out
    ensures Closed(states[k].core) && Judge(states[k].core, t, stat).Stale?
  {
    RunKeepsInv(delay, states, acts, i);
    RunKeepsInv(delay, states, acts, k);
    assert NotAhead(states[i].core, t);
    CallbackFixed(delay, states, acts, i, k, t);
    var p := states[i].core.out[t].entry;
    assert Enabled(delay, states[i], acts[i]) && states[i + 1] == Step(delay, states[i], acts[i]);
    assert EpisodeOk(states[i], p);
    ClosedStaysClosed(delay, states, acts, i + 1, k, p);
    assert EpisodeOk(states[k], p);
  }

  /** Settling: whenever a callback sends a path to submission, its timer was armed at least
      `delay` ago, no schedule call for the path came after that arming, and the size found now is
      the size recorded then. A failed stat, recorded as -1 or met now, never counts as stable. */
  lemma OnlySettledFilesSubmitted<P>(delay: nat, states: seq<State<P>>, acts: seq<Action<P>>, i: nat)
    requires IsRun(delay, states, acts) && i < |acts| && acts[i].Callback?
    requires Closed(states[i].core) && acts[i].t in states[i].core.out
    requires Judge(states[i].core, acts[i].t, acts[i].stat).Settled?
    ensures var s, t := states[i], acts[i].t;
      && t in s.armings && s.now >= s.armings[t].at + delay
      && s.core.out[t].path in s.latest && s.latest[s.core.out[t].path] <= t
      && acts[i].stat.Size? && s.armings[t].size == acts[i].stat.n
  {
    var s, t := states[i], acts[i].t;
    RunKeepsInv(delay, states, acts, i);
    assert Enabled(delay, s, acts[i]);
    LiveIsLatest(s.core, t);
    assert Timely(delay, s, t) && ArmingOk(s, s.core.out[t].path);
  }

  // ---- what each step does, field by field -----------------------------------------------

  /** Callback t is the latest timer of the pending entry p of path. */
  ghost predicate Due<P>(s: State<P>, t: nat, path: string, p: P) {
    && path in s.core.timers && s.core.timers[path] == p && p in s.core.entries && s.core.entries[p].timer == t
    && t in s.core.out && s.core.out[t].path == path && s.core.out[t].entry == p
  }

  /** Entry p of path gets a new timer, of the next generation, recording the given size now. */
  ghost predicate Rearmed<P>(s: State<P>, s': State<P>, t: nat, path: string, p: P, size: int) {
    p in s.core.entries && var gen, next := s.core.entries[p].gen + 1, s.core.next;
    && s'.core.timers == s.core.timers && s'.fates == s.fates
    && s'.core.entries == s.core.entries[p := Entry(size, gen, next)]
    && s'.core.out == (s.core.out - {t})[next := SchedulerModel.Callback(path, p, gen, false)]
    && s'.core.next == next + 1 && s'.armings == s.armings[next := Arming(s.now, size)]
  }

  /** Path leaves the pending map with the given fate, and nothing is armed. */
  ghost predicate LeftWith<P>(s: State<P>, s': State<P>, t: nat, path: string, p: P, fate: Fate) {
    && s'.core.timers == s.core.timers - {path} && s'.fates == s.fates[p := fate]
    && s'.core.entries == s.core.entries && s'.core.out == s.core.out - {t}
    && s'.core.next == s.core.next && s'.armings == s.armings
  }

  lemma DueIsLive<P>(s: State<P>, t: nat, path: string, p: P)
    requires CoreInv(s.core) && Due(s, t, path, p)
    ensures Live(s.core, t) && s.core.out[t].gen == s.core.entries[p].gen
  {
    LiveIsLatest(s.core, t);
  }

  /** The four outcomes of the callback a pending entry is waiting for: a file that is gone is
      dropped; a failed stat re-arms with the size recorded before; another size re-arms with that
      size; the same size leads to submission. */
  lemma DueOutcome<P>(s: State<P>, t: nat, path: string, p: P, stat: Stat)
    requires CoreInv(s.core) && Due(s, t, path, p)
    ensures var s', size := AfterCallback(s, t, stat), s.core.entries[p].size;
      && s'.paths == s.paths && s'.log == s.log && s'.now == s.now && s'.latest == s.latest
      && match stat
         case NotExist => LeftWith(s, s', t, path, p, Dropped)
         case IoError => Rearmed(s, s', t, path, p, size)
         case Size(n) => if n == size then LeftWith(s, s', t, path, p, Submitting) else Rearmed(s, s', t, path, p, n)
  {
    DueIsLive(s, t, path, p);
  }

  /** So in every run: the episode of a due callback is dropped if and only if its file is gone, is
      on its way to submission if and only if its size is the one recorded, and stays pending under
      a new timer otherwise. */
  lemma DueVerdict<P>(delay: nat, states: seq<State<P>>, acts: seq<Action<P>>, i: nat, path: string, p: P)
    requires IsRun(delay, states, acts) && i < |acts| && acts[i].Callback? && Due(states[i], acts[i].t, path, p)
    ensures var s, s', stat := states[i], states[i + 1], acts[i].stat;
      && p in s'.fates && p in s'.core.entries
      && (stat.NotExist? <==> s'.fates[p].Dropped?)
      && (stat.NotExist? ==> LeftWith(s, s', acts[i].t, path, p, Dropped))
      && ((stat.Size? && stat.n == s.core.entries[p].size) <==> s'.fates[p].Submitting?)
      && (stat.Size? && stat.n == s.core.entries[p].size ==> LeftWith(s, s', acts[i].t, path, p, Submitting))
      && (s'.fates[p].Waiting? <==> path in s'.core.timers)
      && (stat.IoError? ==> Rearmed(s, s', acts[i].t, path, p, s.core.entries[p].size))
      && (stat.Size? && stat.n != s.core.entries[p].size ==> Rearmed(s, s', acts[i].t, path, p, stat.n))
  {
    RunKeepsInv(delay, states, acts, i);
    assert Enabled(delay, states[i], acts[i]);
    DueOutcome(states[i], acts[i].t, path, p, acts[i].stat);
    assert EpisodeOk(states[i], p);
  }

  /** A schedule call: the path's entry, a new one unless it is pending, gets a new timer that
      records the size, -1 if it cannot be read; an unfired timer before it is withdrawn. */
  lemma EventOutcome<P>(s: State<P>, path: string, size: Option<nat>, newcomer: P)
    requires CoreInv(s.core) && newcomer !in s.core.entries
    ensures var s', pending := AfterEvent(s, path, Recorded(size), newcomer), path in s.core.timers;
      var p := if pending then s.core.timers[path] else newcomer;
      var gen := if pending then s.core.entries[p].gen + 1 else 1;
      var n := if size.Some? then size.value else -1;
      && s'.core.timers == s.core.timers[path := p]
      && s'.core.entries == s.core.entries[p := Entry(n, gen, s.core.next)]
      && s.core.next in s'.core.out && s'.core.out[s.core.next] == SchedulerModel.Callback(path, p, gen, false)
      && (forall t :: t != s.core.next ==> (t in s'.core.out <==>
            t in s.core.out && !(pending && t == s.core.entries[p].timer && !s.core.out[t].fired)))
      && (forall t :: t != s.core.next && t in s'.core.out ==> s'.core.out[t] == s.core.out[t])
      && s'.core.next == s.core.next + 1
      && s'.armings == s.armings[s.core.next := Arming(s.now, n)] && s'.latest == s.latest[path := s.core.next]
      && s'.fates == (if pending then s.fates else s.fates[newcomer := Waiting]) && s'.log == s.log
  {
    if path in s.core.timers {
      assert Awaited(s.core, path);
    }
  }

  /** Timer t belongs to a pending entry. */
  ghost predicate PendingTimer<P>(s: State<P>, t: nat)
    requires Closed(s.core)
  {
    exists path :: path in s.core.timers && s.core.entries[s.core.timers[path]].timer == t
  }

  /** Close: nothing is pending any more, every pending episode is to be flushed, and of the
      callbacks outstanding exactly the unfired ones of pending entries are withdrawn. */
  lemma CloseOutcome<P>(s: State<P>)
    requires CoreInv(s.core) && Episodes(s)
    ensures var s' := AfterClose(s);
      && s'.core.timers == map[] && s'.log == s.log && s'.fates.Keys == s.fates.Keys
      && (forall path :: path in s.core.timers ==>
            s.core.timers[path] in s'.fates && s'.fates[s.core.timers[path]].Flushing?)
      && (forall p :: p in s.fates && !s.fates[p].Waiting? ==> s'.fates[p] == s.fates[p])
      && (forall t :: t in s'.core.out <==> t in s.core.out && !(!s.core.out[t].fired && PendingTimer(s, t)))
      && (forall t :: t in s'.core.out ==> s'.core.out[t] == s.core.out[t])
  {
    forall path | path in s.core.timers
      ensures s.core.timers[path] in s.fates && s.fates[s.core.timers[path]].Waiting?
    {
      assert EpisodeOk(s, s.core.timers[path]);
    }
  }

  // ---- settling after a change -------------------------------------------------------------

  /** The entry of path is p, waiting for timer t with the given size recorded. */
  ghost predicate WaitsFor<P>(s: State<P>, path: string, p: P, t: nat, size: int) {
    && path in s.core.timers && s.core.timers[path] == p && p in s.core.entries
    && s.core.entries[p].timer == t && s.core.entries[p].size == size && t < s.core.next
  }

  /** No schedule call for the path, no Close, and not timer t's own callback. */
  ghost predicate Elsewhere<P>(a: Action<P>, path: string, t: nat) {
    !(a.Event? && a.path == path) && !a.Close? && !(a.Callback? && a.t == t)
  }

  lemma CallbackLeavesOthers<P>(s: State<P>, u: nat, stat: Stat, path: string, p: P, t: nat, size: int)
    requires CoreInv(s.core) && u in s.core.out && u != t && WaitsFor(s, path, p, t, size)
    ensures WaitsFor(AfterCallback(s, u, stat), path, p, t, size)
  {
    LiveIsLatest(s.core, u);
  }

  lemma StillWaitsFor<P>(delay: nat, s: State<P>, a: Action<P>, path: string, p: P, t: nat, size: int)
    requires Inv(delay, s) && Enabled(delay, s, a) && WaitsFor(s, path, p, t, size) && Elsewhere(a, path, t)
    ensures WaitsFor(Step(delay, s, a), path, p, t, size)
  {
    if a.Callback? {
      CallbackLeavesOthers(s, a.t, a.stat, path, p, t, size);
    } else if a.Event? {
      EventOutcome(s, a.path, a.size, a.newcomer);
    }
  }

  lemma CheckConsumes<P>(c: Core<P>, t: nat, stat: Stat)
    requires Closed(c) && t in c.out && t < c.next
    ensures t !in Check(c, t, stat).out && c.next <= Check(c, t, stat).next
  {
  }

  lemma CallbackChecks<P>(s: State<P>, t: nat, stat: Stat)
    requires Closed(s.core) && t in s.core.out
    ensures AfterCallback(s, t, stat).core == Check(s.core, t, stat)
  {
  }

  /** A timer is used once. */
  lemma CallbackGone<P>(delay: nat, states: seq<State<P>>, acts: seq<Action<P>>, m: nat, k: nat, t: nat)
    requires IsRun(delay, states, acts) && m < k < |acts| && t < states[m].core.next
    requires acts[k].Callback? && acts[k].t == t
    ensures !(acts[m].Callback? && acts[m].t == t)
  {
    assert Enabled(delay, states[k], acts[k]);
    if acts[m].Callback? && acts[m].t == t {
      assert Enabled(delay, states[m], acts[m]) && states[m + 1] == Step(delay, states[m], acts[m]);
      CheckConsumes(states[m].core, t, acts[m].stat);
      CallbackChecks(states[m], t, acts[m].stat);
      CallbackFixed(delay, states, acts, m + 1, k, t);
    }
  }

  ghost predicate QuietBetween<P>(acts: seq<Action<P>>, i: nat, k: nat, path: string)
    requires k <= |acts|
  {
    forall m :: i <= m < k ==> !(acts[m].Event? && acts[m].path == path) && !acts[m].Close?
  }

  lemma {:induction false} WaitsThrough<P>(delay: nat, states: seq<State<P>>, acts: seq<Action<P>>,
                                           i: nat, m: nat, k: nat, path: string, p: P, t: nat, size: int)
    requires IsRun(delay, states, acts) && i <= m <= k < |acts| && QuietBetween(acts, i, k, path)
    requires WaitsFor(states[i], path, p, t, size) && acts[k].Callback? && acts[k].t == t
    ensures WaitsFor(states[m], path, p, t, size)
  {
    if m > i {
      WaitsThrough(delay, states, acts, i, m - 1, k, path, p, t, size);
      RunKeepsInv(delay, states, acts, m - 1);
      CallbackGone(delay, states, acts, m - 1, k, t);
      assert Enabled(delay, states[m - 1], acts[m - 1]);
      StillWaitsFor(delay, states[m - 1], acts[m - 1], path, p, t, size);
    }
  }

  /** A size found changed and then, with no schedule call for the path and no Close in between,
      unchanged when the new timer's callback looks again, is submitted by that callback. */
  lemma SettledAfterResize<P>(delay: nat, states: seq<State<P>>, acts: seq<Action<P>>,
                              i: nat, k: nat, path: string, p: P)
    requires IsRun(delay, states, acts) && i < k < |acts| && QuietBetween(acts, i, k, path)
    requires acts[i].Callback? && Due(states[i], acts[i].t, path, p)
    requires acts[i].stat.Size? && acts[i].stat.n != states[i].core.entries[p].size
    requires acts[k].Callback? && acts[k].t == states[i].core.next && acts[k].stat == acts[i].stat
    ensures p in states[k + 1].fates && states[k + 1].fates[p].Submitting?
  {
    DueVerdict(delay, states, acts, i, path, p);
    var t, n := states[i].core.next, acts[i].stat.n;
    assert WaitsFor(states[i + 1], path, p, t, n);
    WaitsThrough(delay, states, acts, i + 1, k, k, path, p, t, n);
    RunKeepsInv(delay, states, acts, k);
    assert Enabled(delay, states[k], acts[k]);
    assert Awaited(states[k].core, path);
    DueVerdict(delay, states, acts, k, path, p);
  }
}
