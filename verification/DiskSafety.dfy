/** When a write can meet a full disk: what safety of a state means for the writes to come, the
    exact bound on stale samples, whole runs that never fill the disk, and exactly when a report
    in a shared directory is the beginning of one that does. */
module DiskSafety {
  import opened Sums
  import opened SpaceLedger
  import opened Disk

  // ---- the bytes to come -----------------------------------------------------------------

  /** Only running jobs write. */
  function Unwritten(job: Job): int {
    if job.phase.Running? then job.need - job.written else 0
  }

  function UnwrittenBy(jobs: map<nat, Job>): map<nat, int> {
    map j | j in jobs :: Unwritten(jobs[j])
  }

  ghost function TotalUnwritten(jobs: map<nat, Job>): int {
    Total(UnwrittenBy(jobs))
  }

  /** There is room for all that the admitted jobs will write. */
  ghost predicate Roomy(s: State) {
    s.free >= TotalUnwritten(s.jobs)
  }

  /** Bytes the ledger holds back that no job is going to write: they are on the disk already, or
      their job has ended. */
  ghost function Spare(s: State): int {
    s.ledger.reserved - TotalUnwritten(s.jobs)
  }

  lemma UnwrittenUpdate(jobs: map<nat, Job>, j: nat, job: Job)
    ensures TotalUnwritten(jobs[j := job]) == TotalUnwritten(jobs) - Unwritten(Before(jobs, j)) + Unwritten(job)
  {
    TotalUpdate(UnwrittenBy(jobs), j, Unwritten(job));
    assert UnwrittenBy(jobs[j := job]) == UnwrittenBy(jobs)[j := Unwritten(job)];
  }

  lemma LandKeepsUnwritten(jobs: map<nat, Job>, n: nat)
    ensures TotalUnwritten(Land(jobs, n)) == TotalUnwritten(jobs)
  {
    assert UnwrittenBy(Land(jobs, n)) == UnwrittenBy(jobs);
  }

  lemma UnwrittenAfterWrite(s: State, j: nat, n: nat)
    requires Enabled(s, Write(j, n))
    ensures TotalUnwritten(Step(s, Write(j, n)).jobs) == TotalUnwritten(s.jobs) - n
    ensures Step(s, Write(j, n)).free == s.free - n
  {
    var landed := Land(s.jobs, n);
    assert landed[j] == s.jobs[j];
    LandKeepsUnwritten(s.jobs, n);
    UnwrittenUpdate(landed, j, s.jobs[j].(written := s.jobs[j].written + n));
  }

  /** Any other step, by the job it is about. */
  lemma UnwrittenAfter(s: State, a: Action)
    requires Enabled(s, a) && !a.Write? && !a.OutsideDelete?
    ensures a.j in Step(s, a).jobs
    ensures TotalUnwritten(Step(s, a).jobs)
         == TotalUnwritten(s.jobs) - Unwritten(Before(s.jobs, a.j)) + Unwritten(Step(s, a).jobs[a.j])
  {
    var job := Step(s, a).jobs[a.j];
    assert Step(s, a).jobs == s.jobs[a.j := job];
    UnwrittenUpdate(s.jobs, a.j, job);
  }

  // ---- continuations of a state ----------------------------------------------------------

  ghost predicate Plays(s: State, acts: seq<Action>)
    decreases |acts|
  {
    acts == [] || (Enabled(s, acts[0]) && Plays(Step(s, acts[0]), acts[1..]))
  }

  ghost function Last(s: State, acts: seq<Action>): State
    requires Plays(s, acts)
    decreases |acts|
  {
    if acts == [] then s else Last(Step(s, acts[0]), acts[1..])
  }

  ghost predicate WritesOnly(acts: seq<Action>) {
    forall i :: 0 <= i < |acts| ==> acts[i].Write?
  }

  ghost predicate WithinNeed(jobs: map<nat, Job>) {
    forall j :: j in jobs ==> 0 <= Unwritten(jobs[j])
  }

  lemma WriteWithinNeed(s: State, j: nat, n: nat)
    requires WithinNeed(s.jobs) && Enabled(s, Write(j, n))
    ensures WithinNeed(Step(s, Write(j, n)).jobs)
  {
    var jobs := Step(s, Write(j, n)).jobs;
    forall i | i in jobs ensures 0 <= Unwritten(jobs[i]) {
      assert i in s.jobs && 0 <= Unwritten(s.jobs[i]);
    }
  }

  lemma UnwrittenNonNegative(jobs: map<nat, Job>)
    requires WithinNeed(jobs)
    ensures 0 <= TotalUnwritten(jobs)
  {
    TotalNonNegative(UnwrittenBy(jobs));
  }

  lemma {:induction false} WritesBalance(s: State, acts: seq<Action>)
    requires WithinNeed(s.jobs) && WritesOnly(acts) && Plays(s, acts)
    ensures WithinNeed(Last(s, acts).jobs)
    ensures Last(s, acts).free - TotalUnwritten(Last(s, acts).jobs) == s.free - TotalUnwritten(s.jobs)
    decreases |acts|
  {
    if acts != [] {
      var j, n := acts[0].j, acts[0].n;
      UnwrittenAfterWrite(s, j, n);
      WriteWithinNeed(s, j, n);
      WritesBalance(Step(s, acts[0]), acts[1..]);
    }
  }

  lemma PlayFirst(s: State, a: Action, rest: seq<Action>)
    requires Enabled(s, a) && Plays(Step(s, a), rest)
    ensures Plays(s, [a] + rest) && Last(s, [a] + rest) == Last(Step(s, a), rest)
  {
    assert ([a] + rest)[1..] == rest;
  }

  /** The running jobs can write all they have announced. */
  lemma {:induction false} WriteEverything(s: State) returns (acts: seq<Action>)
    requires WithinNeed(s.jobs)
    ensures WritesOnly(acts) && Plays(s, acts) && TotalUnwritten(Last(s, acts).jobs) == 0
    decreases TotalUnwritten(s.jobs)
  {
    UnwrittenNonNegative(s.jobs);
    if j :| j in s.jobs && Unwritten(s.jobs[j]) > 0 {
      var a := Write(j, Unwritten(s.jobs[j]));
      UnwrittenAfterWrite(s, j, a.n);
      WriteWithinNeed(s, j, a.n);
      UnwrittenNonNegative(Step(s, a).jobs);
      var rest := WriteEverything(Step(s, a));
      PlayFirst(s, a, rest);
      acts := [a] + rest;
    } else {
      TotalZero(UnwrittenBy(s.jobs));
      acts := [];
    }
  }

  /** What room means: whatever the admitted jobs write, in whatever order, the disk does not fill
      up if and only if the state is roomy. */
  lemma RoomyIff(s: State)
    requires WithinNeed(s.jobs)
    ensures (forall acts :: WritesOnly(acts) && Plays(s, acts) ==> Last(s, acts).free >= 0) <==> Roomy(s)
  {
    if Roomy(s) {
      forall acts | WritesOnly(acts) && Plays(s, acts) ensures Last(s, acts).free >= 0 {
        WritesBalance(s, acts);
        UnwrittenNonNegative(Last(s, acts).jobs);
      }
    } else {
      var acts := WriteEverything(s);
      WritesBalance(s, acts);
    }
  }

  // ---- stale samples -----------------------------------------------------------------------

  /** The job has sampled this many free bytes and the check lets it in. */
  predicate LetIn(s: State, sample: int, job: Job) {
    job.phase.Sampled? && job.phase.free == sample && job.written == 0 == job.reported && Fits(s, job)
  }

  ghost function Admitted(s: State, j: nat, job: Job): State
    requires job.phase.Sampled? && Fits(s, job)
  {
    Step(s.(jobs := s.jobs[j := job]), Admit(j))
  }

  lemma UnwrittenAdmitted(s: State, j: nat, job: Job)
    requires j !in s.jobs && job.phase.Sampled? && Fits(s, job) && job.written == 0 == job.reported
    ensures TotalUnwritten(Admitted(s, j, job).jobs) == TotalUnwritten(s.jobs) + job.need
    ensures TotalToWrite(Admitted(s, j, job).jobs) == TotalToWrite(s.jobs) + job.need
  {
    var running := job.(phase := Running);
    assert Admitted(s, j, job).jobs == s.jobs[j := running];
    UnwrittenUpdate(s.jobs, j, running);
    JobUpdate(s.jobs, j, running);
  }

  /** The exact bound on a stale sample: with it every job the check lets in still finds room for
      all it will write if and only if it does not exceed the bytes free at the lock by more than
      what the ledger holds back without need. */
  lemma StaleSampleExact(s: State, j: nat, sample: int)
    requires Roomy(s) && j !in s.jobs
    ensures (forall job: Job :: LetIn(s, sample, job) ==> Roomy(Admitted(s, j, job))) <==> sample <= s.free + Spare(s)
  {
    if sample <= s.free + Spare(s) {
      forall job: Job | LetIn(s, sample, job) ensures Roomy(Admitted(s, j, job)) {
        UnwrittenAdmitted(s, j, job);
      }
    } else {
      var job := Job("", sample - s.ledger.reserved, Sampled(sample, 0), 0, 0);
      assert LetIn(s, sample, job);
      UnwrittenAdmitted(s, j, job);
    }
  }

  // ---- runs with every report charged to its own job ---------------------------------------

  /** The ledger is exactly what the jobs owe it and the free bytes cover all they have reserved
      and not written. */
  ghost predicate Sound(s: State) {
    Inv(s.(window := 0)) && RemaindersOwned(s)
  }

  /** An admission's sample exceeds the bytes free at the lock by no more than the bytes written
      and not yet reported. */
  ghost predicate LagCoversSample(s: State, a: Action) {
    a.Admit? && a.j in s.jobs && s.jobs[a.j].phase.Sampled? ==> s.jobs[a.j].phase.free <= s.free + TotalLag(s.jobs)
  }

  /** The free bytes cover all that is reserved and not written. */
  ghost predicate Backed(s: State) {
    s.free >= TotalToWrite(s.jobs)
  }

  /** The same bound for soundness. */
  lemma SoundSampleExact(s: State, j: nat, sample: int)
    requires Sound(s) && j !in s.jobs
    ensures (forall job: Job :: LetIn(s, sample, job) ==> Backed(Admitted(s, j, job)))
        <==> sample <= s.free + TotalLag(s.jobs)
  {
    TotalsSplit(s.jobs);
    if sample <= s.free + TotalLag(s.jobs) {
      forall job: Job | LetIn(s, sample, job) ensures Backed(Admitted(s, j, job)) {
        UnwrittenAdmitted(s, j, job);
      }
    } else {
      LagNonNegative(s.ledger.rem, s.free, s.jobs);
      var job := Job("", sample - s.ledger.reserved, Sampled(sample, 0), 0, 0);
      assert LetIn(s, sample, job);
      UnwrittenAdmitted(s, j, job);
    }
  }

  lemma AdmitKeepsSound(s: State, j: nat)
    requires Inv(s.(window := 0)) && Enabled(s, Admit(j)) && LagCoversSample(s, Admit(j))
    ensures Inv(Step(s, Admit(j)).(window := 0))
  {
    var m := s.ledger.rem;
    OwnReservation(m, s.free, s.jobs, j);
    AdmitKeepsJobs(m, s.free, s.jobs, j);
    JobUpdate(s.jobs, j, s.jobs[j].(phase := Running));
    TotalsSplit(s.jobs);
  }

  lemma WindowApart(s: State, a: Action)
    requires Enabled(s, a) && !a.Admit?
    ensures Enabled(s.(window := 0), a) && Step(s.(window := 0), a) == Step(s, a).(window := 0)
  {
  }

  lemma StepKeepsSound(s: State, a: Action)
    requires Sound(s) && Enabled(s, a) && OwnCharge(s, a) && LagCoversSample(s, a)
    ensures Sound(Step(s, a))
  {
    StepKeepsOwned(s, a);
    if a.Admit? {
      AdmitKeepsSound(s, a.j);
    } else {
      WindowApart(s, a);
      StepKeepsInv(s.(window := 0), a);
    }
  }

  /** In every run in which each report finds no other bytes reserved in its directory and no
      sample is staler than the lag, the ledger is exactly what the jobs owe it and the free bytes
      cover all that is reserved and not written, in every state. */
  lemma {:induction false} LagCoversSamples(states: seq<State>, acts: seq<Action>, i: nat)
    requires IsRun(states, acts) && i < |states|
    requires forall k :: 0 <= k < i ==> OwnCharge(states[k], acts[k]) && LagCoversSample(states[k], acts[k])
    ensures Sound(states[i])
    ensures states[i].ledger.reserved == TotalOwed(states[i].jobs) && Backed(states[i])
  {
    if i > 0 {
      LagCoversSamples(states, acts, i - 1);
      assert Enabled(states[i - 1], acts[i - 1]);
      StepKeepsSound(states[i - 1], acts[i - 1]);
    }
  }

  // ---- runs whose reports do no harm -------------------------------------------------------

  /** Nobody else who still has bytes to write is writing into the directory of job j. */
  ghost predicate Apart(s: State, j: nat)
    requires j in s.jobs
  {
    forall o :: o in s.jobs && o != j && s.jobs[o].dir == s.jobs[j].dir ==> Unwritten(s.jobs[o]) == 0
  }

  ghost predicate Harmless(s: State, a: Action) {
    a.Report? && a.j in s.jobs ==> Apart(s, a.j)
  }

  /** Job j against the remainders: while it has bytes to write, its own remainder covers all it
      has not reported. */
  predicate Covered(m: Remainders, j: nat, job: Job) {
    && job.reported <= job.written <= job.need
    && (Holding(job) ==> ReservationOf(j, job) in m)
    && (Unwritten(job) > 0 ==> m[ReservationOf(j, job)] >= job.need - job.reported)
    && (job.phase.Waiting? || job.phase.Sampled? ==> job.written == 0 == job.reported)
  }

  ghost predicate AllCovered(m: Remainders, jobs: map<nat, Job>) {
    NonNegative(m) && forall j :: j in jobs ==> Covered(m, j, jobs[j])
  }

  ghost predicate Covering(s: State) {
    RemaindersOwned(s) && AllCovered(s.ledger.rem, s.jobs)
  }

  lemma {:induction false} UnwrittenReserved(m: Remainders, jobs: map<nat, Job>)
    requires AllCovered(m, jobs)
    ensures TotalUnwritten(jobs) <= Total(m)
    decreases |jobs|
  {
    if j :| j in jobs {
      var job, others := jobs[j], jobs - {j};
      TotalRemove(UnwrittenBy(jobs), j);
      assert UnwrittenBy(jobs) - {j} == UnwrittenBy(others);
      assert forall i :: i in others ==> Covered(m, i, others[i]);
      assert Covered(m, j, job);
      if Unwritten(job) == 0 {
        UnwrittenReserved(m, others);
      } else {
        var r := ReservationOf(j, job);
        TotalRemove(m, r);
        CoveredWithout(m, others, r);
        UnwrittenReserved(m - {r}, others);
      }
    } else {
      assert UnwrittenBy(jobs) == map[];
      TotalNonNegative(m);
    }
  }

  lemma CoveredWithout(m: Remainders, jobs: map<nat, Job>, r: Reservation)
    requires AllCovered(m, jobs) && r.id !in jobs
    ensures AllCovered(m - {r}, jobs)
  {
    forall j | j in jobs ensures Covered(m - {r}, j, jobs[j]) {
      assert Covered(m, j, jobs[j]);
    }
  }

  /** So the ledger holds back at least what will be written. */
  lemma SpareNonNegative(s: State)
    requires Covering(s)
    ensures 0 <= TotalUnwritten(s.jobs) <= s.ledger.reserved
  {
    UnwrittenReserved(s.ledger.rem, s.jobs);
    forall j | j in s.jobs ensures 0 <= Unwritten(s.jobs[j]) {
      assert Covered(s.ledger.rem, j, s.jobs[j]);
    }
    UnwrittenNonNegative(s.jobs);
  }

  lemma ReportKeepsCovered(s: State, j: nat, n: nat, l: Slice)
    requires AllCovered(s.ledger.rem, s.jobs) && Enabled(s, Report(j, n, l)) && Apart(s, j)
    ensures AllCovered(l.rem, Step(s, Report(j, n, l)).jobs)
  {
    var m, jobs' := s.ledger.rem, Step(s, Report(j, n, l)).jobs;
    TotalLoss(m, l.rem, s.jobs[j].dir, n);
    forall i | i in jobs' ensures Covered(l.rem, i, jobs'[i]) {
      assert Covered(m, i, s.jobs[i]);
    }
  }

  /** A report of n bytes takes at most n from any one reservation. */
  lemma TotalLoss(m: Remainders, m': Remainders, dir: string, n: nat)
    requires NonNegative(m) && m'.Keys == m.Keys && Total(m') >= Total(m) - n
    requires forall r :: r in m ==> 0 <= m'[r] <= m[r]
    ensures forall r :: r in m ==> m'[r] >= m[r] - n
  {
    var loss := map r | r in m :: m[r] - m'[r];
    TotalAdd(m', loss, m);
    forall r | r in m ensures m'[r] >= m[r] - n {
      TotalCovers(loss, r);
    }
  }

  lemma StepKeepsCovered(s: State, a: Action)
    requires Covering(s) && Enabled(s, a) && !a.Report?
    ensures AllCovered(Step(s, a).ledger.rem, Step(s, a).jobs)
  {
    var s' := Step(s, a);
    forall j | j in s'.jobs ensures Covered(s'.ledger.rem, j, s'.jobs[j]) {
      assert j in s.jobs ==> Covered(s.ledger.rem, j, s.jobs[j]);
    }
  }

  /** An admission's sample exceeds the bytes free at the lock by no more than the spare ones. */
  ghost predicate SpareCoversSample(s: State, a: Action) {
    a.Admit? && a.j in s.jobs && s.jobs[a.j].phase.Sampled? ==> s.jobs[a.j].phase.free <= s.free + Spare(s)
  }

  lemma StepKeepsRoomy(s: State, a: Action)
    requires Covering(s) && Roomy(s) && Enabled(s, a) && SpareCoversSample(s, a)
    ensures Roomy(Step(s, a))
  {
    if a.Write? {
      UnwrittenAfterWrite(s, a.j, a.n);
    } else if !a.OutsideDelete? {
      assert a.j in s.jobs ==> Covered(s.ledger.rem, a.j, s.jobs[a.j]);
      UnwrittenAfter(s, a);
    }
  }

  ghost predicate Safe(s: State) {
    Covering(s) && Roomy(s)
  }

  lemma StepKeepsSafe(s: State, a: Action)
    requires Safe(s) && Enabled(s, a) && Harmless(s, a) && SpareCoversSample(s, a)
    ensures Safe(Step(s, a))
  {
    StepKeepsOwned(s, a);
    StepKeepsRoomy(s, a);
    if a.Report? {
      ReportKeepsCovered(s, a.j, a.n, a.ledger);
    } else {
      StepKeepsCovered(s, a);
    }
  }

  lemma SafeWrite(s: State, j: nat, n: nat)
    requires Safe(s) && Enabled(s, Write(j, n))
    ensures s.free >= n
  {
    forall i | i in s.jobs ensures 0 <= Unwritten(s.jobs[i]) {
      assert Covered(s.ledger.rem, i, s.jobs[i]);
    }
    TotalCovers(UnwrittenBy(s.jobs), j);
  }

  /** In every run in which each report finds nobody else in its directory with bytes to write and
      no sample is staler than the spare bytes, no write ever meets a full disk. */
  lemma {:induction false} NeverFills(states: seq<State>, acts: seq<Action>, i: nat)
    requires IsRun(states, acts) && i < |states|
    requires forall k :: 0 <= k < i ==> Harmless(states[k], acts[k]) && SpareCoversSample(states[k], acts[k])
    ensures Safe(states[i])
    ensures i < |acts| && acts[i].Write? ==> states[i].free >= acts[i].n
  {
    if i > 0 {
      NeverFills(states, acts, i - 1);
      assert Enabled(states[i - 1], acts[i - 1]);
      StepKeepsSafe(states[i - 1], acts[i - 1]);
    } else {
      assert UnwrittenBy(states[0].jobs) == map[];
    }
    if i < |acts| && acts[i].Write? {
      assert Enabled(states[i], acts[i]);
      SafeWrite(states[i], acts[i].j, acts[i].n);
    }
  }

  lemma {:induction false} FreshSamplesCovered(states: seq<State>, acts: seq<Action>, i: nat)
    requires IsRun(states, acts) && SamplesFresh(acts) && i < |states|
    requires forall k :: 0 <= k < i ==> Harmless(states[k], acts[k])
    ensures forall k :: 0 <= k < i ==> SpareCoversSample(states[k], acts[k])
  {
    if i > 0 {
      FreshSamplesCovered(states, acts, i - 1);
      var k := i - 1;
      if acts[k].Admit? {
        NeverFills(states, acts, k);
        SpareNonNegative(states[k]);
        assert acts[k - 1] == Sample(acts[k].j) && states[k] == Step(states[k - 1], acts[k - 1]);
      }
    }
  }

  /** With sample and admission in one piece, and nobody else in a reporter's directory with bytes
      to write, no write of an admitted job ever meets a full disk. */
  lemma FreshSamplesNeverFill(states: seq<State>, acts: seq<Action>, i: nat)
    requires IsRun(states, acts) && SamplesFresh(acts) && i < |states|
    requires forall k :: 0 <= k < i ==> Harmless(states[k], acts[k])
    ensures Roomy(states[i]) && (i < |acts| && acts[i].Write? ==> states[i].free >= acts[i].n)
  {
    FreshSamplesCovered(states, acts, i);
    NeverFills(states, acts, i);
  }

  // ---- exactly when a report in a shared directory does harm --------------------------------

  /** A sample that has not been overtaken by bytes landing since. */
  ghost predicate Fresh(s: State, a: Action) {
    a.Admit? && a.j in s.jobs && s.jobs[a.j].phase.Sampled? ==> s.jobs[a.j].phase.free <= s.free
  }

  /** A continuation with fresh samples and harmless reports only. */
  ghost predicate PlaysFair(s: State, acts: seq<Action>)
    decreases |acts|
  {
    acts == [] ||
    (Enabled(s, acts[0]) && Fresh(s, acts[0]) && Harmless(s, acts[0]) && PlaysFair(Step(s, acts[0]), acts[1..]))
  }

  ghost function FairEnd(s: State, acts: seq<Action>): State
    requires PlaysFair(s, acts)
    decreases |acts|
  {
    if acts == [] then s else FairEnd(Step(s, acts[0]), acts[1..])
  }

  /** Nothing that may follow fairly endangers a write. */
  ghost predicate SafeFrom(s: State) {
    forall acts :: PlaysFair(s, acts) ==> Roomy(FairEnd(s, acts))
  }

  lemma {:induction false} FairKeepsSafe(s: State, acts: seq<Action>)
    requires Safe(s) && PlaysFair(s, acts)
    ensures Safe(FairEnd(s, acts))
    decreases |acts|
  {
    if acts != [] {
      SpareNonNegative(s);
      StepKeepsSafe(s, acts[0]);
      FairKeepsSafe(Step(s, acts[0]), acts[1..]);
    }
  }

  lemma SoundIsSafe(s: State)
    requires Sound(s)
    ensures Safe(s)
  {
    var m := s.ledger.rem;
    forall j | j in s.jobs ensures Covered(m, j, s.jobs[j]) && Unwritten(s.jobs[j]) <= ToWrite(s.jobs[j]) {
      assert JobOk(m, s.free, j, s.jobs[j]);
    }
    forall r | r in m ensures 0 <= m[r] {
      assert HeldBySome(s.jobs, r) && JobOk(m, s.free, r.id, s.jobs[r.id]);
    }
    UnwrittenBelowToWrite(s.jobs);
  }

  lemma UnwrittenBelowToWrite(jobs: map<nat, Job>)
    requires forall j :: j in jobs ==> Unwritten(jobs[j]) <= ToWrite(jobs[j])
    ensures TotalUnwritten(jobs) <= TotalToWrite(jobs)
  {
    var rest := map j | j in jobs :: ToWrite(jobs[j]) - Unwritten(jobs[j]);
    TotalAdd(UnwrittenBy(jobs), rest, ToWriteBy(jobs));
    TotalNonNegative(rest);
  }

  lemma FairFirst(s: State, a: Action, rest: seq<Action>)
    requires Enabled(s, a) && Fresh(s, a) && Harmless(s, a) && PlaysFair(Step(s, a), rest)
    ensures PlaysFair(s, [a] + rest) && FairEnd(s, [a] + rest) == FairEnd(Step(s, a), rest)
  {
    assert ([a] + rest)[1..] == rest;
  }

  /** Unsafe futures are handed down. */
  lemma UnsafeBefore(s: State, a: Action)
    requires Enabled(s, a) && Fresh(s, a) && Harmless(s, a) && !SafeFrom(Step(s, a))
    ensures !SafeFrom(s)
  {
    var acts :| PlaysFair(Step(s, a), acts) && !Roomy(FairEnd(Step(s, a), acts));
    FairFirst(s, a, acts);
    assert PlaysFair(s, [a] + acts) && !Roomy(FairEnd(s, [a] + acts));
  }

  lemma UnroomyUnsafe(s: State)
    requires !Roomy(s)
    ensures !SafeFrom(s)
  {
    var none: seq<Action> := [];
    assert PlaysFair(s, none) && FairEnd(s, none) == s;
  }

  /** Job o runs, has bytes to write, and its remainder is one byte short. */
  ghost predicate Short(s: State, o: nat) {
    && RemaindersOwned(s) && o in s.jobs && s.jobs[o].phase.Running?
    && s.jobs[o].reported <= s.jobs[o].written < s.jobs[o].need <= s.free + s.jobs[o].written
    && ReservationOf(o, s.jobs[o]) in s.ledger.rem
    && s.ledger.rem[ReservationOf(o, s.jobs[o])] == s.jobs[o].need - s.jobs[o].reported - 1
  }

  ghost predicate Alone(s: State, o: nat) {
    forall i :: Busy(s.jobs, i) ==> i == o
  }

  lemma AloneLedger(s: State, o: nat)
    requires RemaindersOwned(s) && Alone(s, o) && o in s.jobs && ReservationOf(o, s.jobs[o]) in s.ledger.rem
    ensures var r := ReservationOf(o, s.jobs[o]); s.ledger == Slice(s.ledger.rem[r], map[r := s.ledger.rem[r]])
  {
    var r := ReservationOf(o, s.jobs[o]);
    forall q | q in s.ledger.rem ensures q == r {
      assert HeldBySome(s.jobs, q);
    }
    assert s.ledger.rem == map[r := s.ledger.rem[r]];
    TotalUpdate(map[], r, s.ledger.rem[r]);
  }

  lemma AloneUnwritten(s: State, o: nat)
    requires Alone(s, o) && Busy(s.jobs, o)
    ensures TotalUnwritten(s.jobs) == Unwritten(s.jobs[o])
  {
    TotalRemove(UnwrittenBy(s.jobs), o);
    forall i | i in UnwrittenBy(s.jobs) - {o} ensures UnwrittenBy(s.jobs)[i] == 0 {
      assert !Busy(s.jobs, i);
    }
    TotalZero(UnwrittenBy(s.jobs) - {o});
  }

  /** A newcomer is let in for all that seems to be left. */
  lemma NewcomerOverruns(s: State, o: nat)
    requires Short(s, o) && Alone(s, o) && s.jobs[o].reported == s.jobs[o].written
    ensures !SafeFrom(s)
  {
    AloneLedger(s, o);
    assert Busy(s.jobs, o);
    AloneUnwritten(s, o);
    var k := FreshId(s.jobs.Keys);
    var job := Job("", s.free - s.ledger.reserved, Sampled(s.free, 0), 0, 0);
    var s1 := Step(s, Arrive(k, job.dir, job.need));
    var s2 := Step(s1, Sample(k));
    assert s2 == s.(jobs := s.jobs[k := job]);
    UnwrittenAdmitted(s, k, job);
    UnroomyUnsafe(Step(s2, Admit(k)));
    UnsafeBefore(s2, Admit(k));
    UnsafeBefore(s1, Sample(k));
    UnsafeBefore(s, Arrive(k, job.dir, job.need));
  }

  /** Alone in its directory, job o reports what it has written so far. */
  lemma LastReport(s: State, o: nat)
    requires Short(s, o) && Alone(s, o)
    ensures !SafeFrom(s)
  {
    var n := s.jobs[o].written - s.jobs[o].reported;
    if n == 0 {
      NewcomerOverruns(s, o);
    } else {
      var r := ReservationOf(o, s.jobs[o]);
      var v := s.ledger.rem[r];
      AloneLedger(s, o);
      var l := Slice(v - n, map[r := v - n]);
      ReportOfOne(r, v, n);
      var a := Report(o, n, l);
      StepKeepsOwned(s, a);
      var s' := Step(s, a);
      assert forall i :: Busy(s'.jobs, i) ==> Busy(s.jobs, i);
      NewcomerOverruns(s', o);
      assert forall i :: i in s.jobs && i != o ==> !Busy(s.jobs, i);
      UnsafeBefore(s, a);
    }
  }

  lemma ReportOfOne(r: Reservation, v: int, n: nat)
    requires n <= v
    ensures ShrinksTo(Slice(v, map[r := v]), Slice(v - n, map[r := v - n]), r.dir, n)
  {
    TotalUpdate(map[], r, v);
    TotalUpdate(map[], r, v - n);
    assert InDir(map[r := v], r.dir) == map[r := v];
  }

  ghost function Others(s: State, o: nat): set<nat> {
    set i | i in s.jobs && Busy(s.jobs, i) && i != o
  }

  /** Another job ends, if it is still running, and gives back its reservation. */
  lemma OtherLeaves(s: State, o: nat, i: nat)
    requires Short(s, o) && i in Others(s, o) && s.jobs[i].phase.Ended?
    ensures Enabled(s, Drop(i)) && Short(Step(s, Drop(i)), o)
    ensures Others(Step(s, Drop(i)), o) == Others(s, o) - {i}
  {
    StepKeepsOwned(s, Drop(i));
  }

  lemma {:induction false} OthersLeave(s: State, o: nat)
    requires Short(s, o)
    ensures !SafeFrom(s)
    decreases |Others(s, o)|
  {
    if i :| i in Others(s, o) {
      var s1 := s;
      if s.jobs[i].phase.Running? {
        s1 := Step(s, End(i, 0));
        StepKeepsOwned(s, End(i, 0));
        assert Others(s1, o) == Others(s, o);
      }
      OtherLeaves(s1, o, i);
      OthersLeave(Step(s1, Drop(i)), o);
      UnsafeBefore(s1, Drop(i));
      if s.jobs[i].phase.Running? {
        UnsafeBefore(s, End(i, 0));
      }
    } else {
      assert forall i :: Busy(s.jobs, i) ==> i == o || i in Others(s, o);
      LastReport(s, o);
    }
  }

  /** In a sound state a running job's remainder is what it owes and there is room for its bytes. */
  lemma RoomForEach(s: State, o: nat)
    requires Sound(s) && o in s.jobs && s.jobs[o].phase.Running?
    ensures JobOk(s.ledger.rem, s.free, o, s.jobs[o]) && s.free >= Unwritten(s.jobs[o])
    ensures NonNegative(s.ledger.rem)
  {
    SoundIsSafe(s);
    assert JobOk(s.ledger.rem, s.free, o, s.jobs[o]);
    forall i | i in s.jobs ensures 0 <= Unwritten(s.jobs[i]) {
      assert Covered(s.ledger.rem, i, s.jobs[i]);
    }
    TotalCovers(UnwrittenBy(s.jobs), o);
  }

  /** The ledger after one byte of a report was charged to reservation r. */
  ghost function Charged(l: Slice, r: Reservation): Slice
    requires r in l.rem
  {
    Slice(l.reserved - 1, l.rem[r := l.rem[r] - 1])
  }

  lemma NeighbourReport(s: State, j: nat, o: nat)
    requires RemaindersOwned(s) && NonNegative(s.ledger.rem)
    requires j in s.jobs && s.jobs[j].phase.Running? && s.jobs[j].reported < s.jobs[j].written
    requires o in s.jobs && s.jobs[o].dir == s.jobs[j].dir
    requires var r := ReservationOf(o, s.jobs[o]); r in s.ledger.rem && s.ledger.rem[r] > 0
    ensures Enabled(s, Report(j, 1, Charged(s.ledger, ReservationOf(o, s.jobs[o]))))
  {
    OneByteFrom(s.ledger.rem, ReservationOf(o, s.jobs[o]));
  }

  /** One reported byte is charged to the neighbour. */
  lemma NeighbourPays(s: State, j: nat, o: nat)
    requires Sound(s) && j in s.jobs && s.jobs[j].phase.Running? && s.jobs[j].reported < s.jobs[j].written
    requires o in s.jobs && o != j && s.jobs[o].dir == s.jobs[j].dir && Unwritten(s.jobs[o]) > 0
    ensures exists l :: Enabled(s, Report(j, 1, l)) && Short(Step(s, Report(j, 1, l)), o)
  {
    RoomForEach(s, o);
    NeighbourReport(s, j, o);
    var a := Report(j, 1, Charged(s.ledger, ReservationOf(o, s.jobs[o])));
    StepKeepsOwned(s, a);
    assert Short(Step(s, a), o);
  }

  lemma OneByteFrom(m: Remainders, r: Reservation)
    requires NonNegative(m) && r in m && m[r] > 0
    ensures DirTotal(m, r.dir) >= 1 && Total(m[r := m[r] - 1]) == Total(m) - 1
  {
    TotalUpdate(m, r, m[r] - 1);
    assert InDir(m, r.dir)[r] == m[r];
    TotalCovers(InDir(m, r.dir), r);
  }

  /** Exactly when a report endangers the disk: whomever the map's order makes it charge, and
      whatever follows it with fresh samples and harmless reports, no write meets a full disk if
      and only if nobody else in the reporter's directory has bytes left to write. */
  lemma SharedDirectoryExact(s: State, j: nat)
    requires Sound(s) && j in s.jobs && s.jobs[j].phase.Running? && s.jobs[j].reported < s.jobs[j].written
    ensures (forall n, l :: Enabled(s, Report(j, n, l)) ==> SafeFrom(Step(s, Report(j, n, l)))) <==> Apart(s, j)
  {
    if Apart(s, j) {
      SoundIsSafe(s);
      forall n, l | Enabled(s, Report(j, n, l)) ensures SafeFrom(Step(s, Report(j, n, l))) {
        var s' := Step(s, Report(j, n, l));
        StepKeepsSafe(s, Report(j, n, l));
        forall acts | PlaysFair(s', acts) ensures Roomy(FairEnd(s', acts)) {
          FairKeepsSafe(s', acts);
        }
      }
    } else {
      var o :| o in s.jobs && o != j && s.jobs[o].dir == s.jobs[j].dir && Unwritten(s.jobs[o]) != 0;
      assert JobOk(s.ledger.rem, s.free, o, s.jobs[o]);
      NeighbourPays(s, j, o);
      var l :| Enabled(s, Report(j, 1, l)) && Short(Step(s, Report(j, 1, l)), o);
      OthersLeave(Step(s, Report(j, 1, l)), o);
    }
  }
}
