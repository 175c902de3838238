/** Any number of conversion jobs against one filesystem, interleaved step by step: sampling
    the free space, the locked admission, writes, lagging progress reports, the end of the
    conversion and the release. Only the locked sections are atomic. */
module Disk {
  import opened Sums
  import opened SpaceLedger

  datatype Phase =
    | Waiting
    | Sampled(free: int, landed: nat)  // read the free bytes; `landed` bytes arrived since
    | Running
    | Ended                            // published, or its tmp removed; release still to come
    | Gone

  datatype Job = Job(dir: string, need: nat, phase: Phase, written: nat, reported: nat)

  /** `ledger` is the filesystem's slice of the space ledger. `window` is a ghost of the run: the
      most bytes that ever landed between one admission's sample and its lock. */
  datatype State = State(free: int, ledger: Slice, jobs: map<nat, Job>, window: nat)

  datatype Action =
    | Arrive(j: nat, dir: string, need: nat)
    | Sample(j: nat)
    | Admit(j: nat)
    | Refuse(j: nat, retry: bool)
    | Write(j: nat, n: nat)
    | Report(j: nat, n: nat, ledger: Slice)
    | End(j: nat, freed: nat)
    | Drop(j: nat)
    | OutsideDelete(n: nat)

  // Any key will do: all jobs of this model share one filesystem.
  const FILESYSTEM := "0:0"

  /** A job acquires one reservation in its life, so its number serves as that identity. */
  function ReservationOf(j: nat, job: Job): Reservation {
    Reservation(j, FILESYSTEM, job.dir)
  }

  predicate Holding(job: Job) {
    job.phase.Running? || job.phase.Ended?
  }

  ghost predicate Enabled(s: State, a: Action) {
    match a
    case Arrive(j, _, _) => j !in s.jobs
    case Sample(j) => j in s.jobs && s.jobs[j].phase.Waiting?
    case Admit(j) => j in s.jobs && s.jobs[j].phase.Sampled? && Fits(s, s.jobs[j])
    case Refuse(j, _) => j in s.jobs && s.jobs[j].phase.Sampled? && !Fits(s, s.jobs[j])
    case Write(j, n) => j in s.jobs && s.jobs[j].phase.Running? && s.jobs[j].written + n <= s.jobs[j].need
    case Report(j, n, l) =>
      && j in s.jobs && s.jobs[j].phase.Running? && 0 < n <= s.jobs[j].written - s.jobs[j].reported
      && ShrinksTo(s.ledger, l, s.jobs[j].dir, n)
    case End(j, _) => j in s.jobs && s.jobs[j].phase.Running?
    case Drop(j) => j in s.jobs && s.jobs[j].phase.Ended?
    case OutsideDelete(_) => true
  }

  /** The admission rule, with the free bytes as the job sampled them. */
  predicate Fits(s: State, job: Job)
    requires job.phase.Sampled?
  {
    Admits(s.ledger.reserved, job.phase.free, job.need)
  }

  /** Bytes landing on the filesystem are seen by every job between its sample and its lock. */
  function Land(jobs: map<nat, Job>, n: nat): map<nat, Job> {
    map j | j in jobs ::
      if jobs[j].phase.Sampled? then jobs[j].(phase := Sampled(jobs[j].phase.free, jobs[j].phase.landed + n))
      else jobs[j]
  }

  ghost function Step(s: State, a: Action): State
    requires Enabled(s, a)
  {
    match a
    case Arrive(j, dir, need) => s.(jobs := s.jobs[j := Job(dir, need, Waiting, 0, 0)])
    case Sample(j) => s.(jobs := s.jobs[j := s.jobs[j].(phase := Sampled(s.free, 0))])
    case Admit(j) =>
      s.(ledger := Slice(s.ledger.reserved + s.jobs[j].need,
                         s.ledger.rem[ReservationOf(j, s.jobs[j]) := s.jobs[j].need]),
         window := Max(s.window, s.jobs[j].phase.landed),
         jobs := s.jobs[j := s.jobs[j].(phase := Running)])
    case Refuse(j, retry) => s.(jobs := s.jobs[j := s.jobs[j].(phase := if retry then Waiting else Gone)])
    case Write(j, n) =>
      s.(free := s.free - n, jobs := Land(s.jobs, n)[j := s.jobs[j].(written := s.jobs[j].written + n)])
    case Report(j, n, l) =>
      s.(ledger := l, jobs := s.jobs[j := s.jobs[j].(reported := s.jobs[j].reported + n)])
    case End(j, freed) =>
      s.(free := s.free + freed, jobs := s.jobs[j := s.jobs[j].(phase := Ended)])
    case Drop(j) =>
      var r := ReservationOf(j, s.jobs[j]);
      s.(ledger :=
           if r in s.ledger.rem then Slice(s.ledger.reserved - s.ledger.rem[r], s.ledger.rem - {r}) else s.ledger,
         jobs := s.jobs[j := s.jobs[j].(phase := Gone)])
    case OutsideDelete(n) => s.(free := s.free + n)
  }

  function Max(a: nat, b: nat): nat {
    if a < b then b else a
  }

  ghost predicate Initial(s: State) {
    && s.free >= 0 && s.jobs == map[] && s.window == 0
    && s.ledger == Slice(0, map[])
  }

  /** A run: each state follows from the one before by one enabled action. */
  ghost predicate IsRun(states: seq<State>, acts: seq<Action>) {
    && |states| == |acts| + 1
    && Initial(states[0])
    && forall i :: 0 <= i < |acts| ==> Enabled(states[i], acts[i]) && states[i + 1] == Step(states[i], acts[i])
  }

  predicate Busy(jobs: map<nat, Job>, j: nat) {
    j in jobs && Holding(jobs[j])
  }

  /** No two jobs of the filesystem write into the same directory at the same time. */
  ghost predicate ExclusiveDirs(s: State) {
    forall a, b {:trigger Busy(s.jobs, a), Busy(s.jobs, b)} ::
      Busy(s.jobs, a) && Busy(s.jobs, b) && a != b ==> s.jobs[a].dir != s.jobs[b].dir
  }

  /** A report is certain to shrink the reporter's own reservation only: no other reservation of
      its directory has bytes left (ReportChargesReporterIff). */
  ghost predicate OwnCharge(s: State, a: Action) {
    a.Report? && a.j in s.jobs ==> SoleHolder(s.ledger.rem, ReservationOf(a.j, s.jobs[a.j]))
  }

  // ---- totals over the jobs ----------------------------------------------------------

  function Owed(job: Job): int { if Holding(job) then job.need - job.reported else 0 }
  function Lag(job: Job): int { if Holding(job) then job.written - job.reported else 0 }
  function ToWrite(job: Job): int { if Holding(job) then job.need - job.written else 0 }

  function OwedBy(jobs: map<nat, Job>): map<nat, int> { map j | j in jobs :: Owed(jobs[j]) }
  function LagOf(jobs: map<nat, Job>): map<nat, int> { map j | j in jobs :: Lag(jobs[j]) }
  function ToWriteBy(jobs: map<nat, Job>): map<nat, int> { map j | j in jobs :: ToWrite(jobs[j]) }

  ghost function TotalOwed(jobs: map<nat, Job>): int { Total(OwedBy(jobs)) }
  ghost function TotalLag(jobs: map<nat, Job>): int { Total(LagOf(jobs)) }
  ghost function TotalToWrite(jobs: map<nat, Job>): int { Total(ToWriteBy(jobs)) }

  lemma TotalsSplit(jobs: map<nat, Job>)
    ensures TotalOwed(jobs) == TotalLag(jobs) + TotalToWrite(jobs)
  {
    TotalAdd(LagOf(jobs), ToWriteBy(jobs), OwedBy(jobs));
  }

  const NOBODY := Job("", 0, Gone, 0, 0)

  function Before(jobs: map<nat, Job>, j: nat): Job {
    if j in jobs then jobs[j] else NOBODY
  }

  lemma JobUpdate(jobs: map<nat, Job>, j: nat, job: Job)
    ensures TotalOwed(jobs[j := job]) == TotalOwed(jobs) - Owed(Before(jobs, j)) + Owed(job)
    ensures TotalToWrite(jobs[j := job]) == TotalToWrite(jobs) - ToWrite(Before(jobs, j)) + ToWrite(job)
  {
    TotalUpdate(OwedBy(jobs), j, Owed(job));
    TotalUpdate(ToWriteBy(jobs), j, ToWrite(job));
    assert OwedBy(jobs[j := job]) == OwedBy(jobs)[j := Owed(job)];
    assert ToWriteBy(jobs[j := job]) == ToWriteBy(jobs)[j := ToWrite(job)];
  }

  lemma LandKeepsTotals(jobs: map<nat, Job>, n: nat)
    ensures TotalOwed(Land(jobs, n)) == TotalOwed(jobs) && TotalToWrite(Land(jobs, n)) == TotalToWrite(jobs)
  {
    assert OwedBy(Land(jobs, n)) == OwedBy(jobs);
    assert ToWriteBy(Land(jobs, n)) == ToWriteBy(jobs);
  }

  // ---- the invariant -----------------------------------------------------------------

  /** Job j against the remainders m of its filesystem and the free bytes. */
  predicate JobOk(m: Remainders, free: int, j: nat, job: Job) {
    && job.reported <= job.written <= job.need
    && (Holding(job) ==>
          ReservationOf(j, job) in m && m[ReservationOf(j, job)] == job.need - job.reported)
    && (job.phase.Waiting? || job.phase.Sampled? ==> job.written == 0 == job.reported)
    && (job.phase.Sampled? ==> job.phase.free <= free + job.phase.landed)
  }

  ghost predicate JobsOk(m: Remainders, free: int, jobs: map<nat, Job>) {
    forall j :: j in jobs ==> JobOk(m, free, j, jobs[j])
  }

  predicate HeldBySome(jobs: map<nat, Job>, r: Reservation) {
    Busy(jobs, r.id) && r == ReservationOf(r.id, jobs[r.id])
  }

  /** No reservation of the filesystem outlives its job. */
  ghost predicate NoneForgotten(m: Remainders, jobs: map<nat, Job>) {
    forall r :: r in m ==> HeldBySome(jobs, r)
  }

  ghost predicate JobsInv(m: Remainders, free: int, jobs: map<nat, Job>) {
    JobsOk(m, free, jobs) && NoneForgotten(m, jobs)
  }

  ghost predicate Balanced(s: State) {
    && s.ledger.reserved == TotalOwed(s.jobs)
    && s.free + s.window >= TotalToWrite(s.jobs)
  }

  ghost predicate Inv(s: State) {
    Balanced(s) && JobsInv(s.ledger.rem, s.free, s.jobs)
  }

  lemma LagNonNegative(m: Remainders, free: int, jobs: map<nat, Job>)
    requires JobsOk(m, free, jobs)
    ensures 0 <= TotalLag(jobs) && 0 <= TotalToWrite(jobs)
  {
    assert forall j :: j in jobs ==> JobOk(m, free, j, jobs[j]);
    TotalNonNegative(LagOf(jobs));
    TotalNonNegative(ToWriteBy(jobs));
  }

  // How each step changes the accounts.

  lemma AdmitBalanced(s: State, j: nat)
    requires Balanced(s) && Enabled(s, Admit(j)) && TotalLag(s.jobs) >= 0
    requires s.jobs[j].written == 0 == s.jobs[j].reported && s.jobs[j].phase.free <= s.free + s.jobs[j].phase.landed
    ensures Balanced(Step(s, Admit(j)))
  {
    JobUpdate(s.jobs, j, s.jobs[j].(phase := Running));
    TotalsSplit(s.jobs);
  }

  /** A job that neither takes up nor gives back a reservation, and writes and reports nothing. */
  lemma QuietBalanced(s: State, j: nat, job: Job, free: int)
    requires Balanced(s) && free >= s.free
    requires Owed(job) == Owed(Before(s.jobs, j)) && ToWrite(job) == ToWrite(Before(s.jobs, j))
    ensures Balanced(s.(free := free, jobs := s.jobs[j := job]))
  {
    JobUpdate(s.jobs, j, job);
  }

  ghost predicate Wrote(s: State, s': State, j: nat, n: nat)
    requires j in s.jobs
  {
    && s'.jobs == Land(s.jobs, n)[j := s.jobs[j].(written := s.jobs[j].written + n)]
    && s'.free == s.free - n && s'.ledger == s.ledger && s'.window == s.window
  }

  lemma WriteBalanced(s: State, s': State, j: nat, n: nat)
    requires Balanced(s) && j in s.jobs && s.jobs[j].phase.Running? && Wrote(s, s', j, n)
    ensures Balanced(s')
  {
    var landed := Land(s.jobs, n);
    assert landed[j] == s.jobs[j];
    LandKeepsTotals(s.jobs, n);
    JobUpdate(landed, j, s.jobs[j].(written := s.jobs[j].written + n));
  }

  lemma ReportBalanced(s: State, j: nat, n: nat, l: Slice)
    requires Balanced(s) && j in s.jobs && s.jobs[j].phase.Running? && l.reserved == s.ledger.reserved - n
    ensures Balanced(s.(ledger := l, jobs := s.jobs[j := s.jobs[j].(reported := s.jobs[j].reported + n)]))
  {
    JobUpdate(s.jobs, j, s.jobs[j].(reported := s.jobs[j].reported + n));
  }

  lemma DropBalanced(s: State, j: nat)
    requires Balanced(s) && Enabled(s, Drop(j)) && s.jobs[j].written <= s.jobs[j].need
    requires ReservationOf(j, s.jobs[j]) in s.ledger.rem
    requires s.ledger.rem[ReservationOf(j, s.jobs[j])] == s.jobs[j].need - s.jobs[j].reported
    ensures Balanced(Step(s, Drop(j)))
  {
    JobUpdate(s.jobs, j, s.jobs[j].(phase := Gone));
  }

  // How each step changes the match between jobs and remainders.

  /** One job changes, the free bytes do not shrink, and remainders change at most for it. */
  lemma JobsKept(m: Remainders, m': Remainders, free: int, free': int, jobs: map<nat, Job>, j: nat, job: Job)
    requires JobsInv(m, free, jobs)
    requires free <= free' && JobOk(m', free', j, job)
    requires forall r :: r in m && r.id != j ==> r in m' && m'[r] == m[r]
    requires forall r :: r in m' ==> if r.id == j then Holding(job) && r == ReservationOf(j, job) else r in m
    ensures JobsInv(m', free', jobs[j := job])
  {
    var jobs' := jobs[j := job];
    forall i | i in jobs' ensures JobOk(m', free', i, jobs'[i]) {
      assert i != j ==> JobOk(m, free, i, jobs[i]);
    }
    forall r | r in m' ensures HeldBySome(jobs', r) {
      assert r.id != j ==> HeldBySome(jobs, r);
    }
  }

  /** What the match says about the reservation numbered j. */
  lemma OwnReservation(m: Remainders, free: int, jobs: map<nat, Job>, j: nat)
    requires JobsInv(m, free, jobs)
    ensures j in jobs ==> JobOk(m, free, j, jobs[j])
    ensures forall r :: r in m && r.id == j ==> Busy(jobs, j) && r == ReservationOf(j, jobs[j])
  {
    forall r | r in m && r.id == j ensures Busy(jobs, j) && r == ReservationOf(j, jobs[j]) {
      assert HeldBySome(jobs, r);
    }
  }

  lemma LandKeepsJobs(m: Remainders, free: int, jobs: map<nat, Job>, n: nat)
    requires JobsInv(m, free, jobs)
    ensures JobsInv(m, free - n, Land(jobs, n))
  {
    forall i | i in Land(jobs, n) ensures JobOk(m, free - n, i, Land(jobs, n)[i]) {
      assert JobOk(m, free, i, jobs[i]);
    }
    forall r | r in m ensures HeldBySome(Land(jobs, n), r) {
      assert HeldBySome(jobs, r);
    }
  }

  lemma WriteKeepsJobs(m: Remainders, free: int, jobs: map<nat, Job>, jobs': map<nat, Job>, j: nat, n: nat)
    requires JobsInv(m, free, jobs)
    requires j in jobs && jobs[j].phase.Running? && jobs[j].written + n <= jobs[j].need
    requires jobs' == Land(jobs, n)[j := jobs[j].(written := jobs[j].written + n)]
    ensures JobsInv(m, free - n, jobs')
  {
    var landed := Land(jobs, n);
    OwnReservation(m, free, jobs, j);
    LandKeepsJobs(m, free, jobs, n);
    JobsKept(m, m, free - n, free - n, landed, j, jobs[j].(written := jobs[j].written + n));
  }

  lemma ChargeKeepsJobs(m: Remainders, free: int, jobs: map<nat, Job>, j: nat, n: nat)
    requires JobsInv(m, free, jobs)
    requires j in jobs && jobs[j].phase.Running? && jobs[j].reported + n <= jobs[j].written
    requires ReservationOf(j, jobs[j]) in m
    ensures var r := ReservationOf(j, jobs[j]);
      JobsInv(m[r := m[r] - n], free, jobs[j := jobs[j].(reported := jobs[j].reported + n)])
  {
    var r := ReservationOf(j, jobs[j]);
    OwnReservation(m, free, jobs, j);
    JobsKept(m, m[r := m[r] - n], free, free, jobs, j, jobs[j].(reported := jobs[j].reported + n));
  }

  lemma AdmitKeepsJobs(m: Remainders, free: int, jobs: map<nat, Job>, j: nat)
    requires JobsInv(m, free, jobs) && j in jobs && jobs[j].phase.Sampled?
    ensures ReservationOf(j, jobs[j]) !in m
    ensures JobsInv(m[ReservationOf(j, jobs[j]) := jobs[j].need], free, jobs[j := jobs[j].(phase := Running)])
  {
    OwnReservation(m, free, jobs, j);
    JobsKept(m, m[ReservationOf(j, jobs[j]) := jobs[j].need], free, free, jobs, j, jobs[j].(phase := Running));
  }

  lemma DropKeepsJobs(m: Remainders, free: int, jobs: map<nat, Job>, j: nat)
    requires JobsInv(m, free, jobs) && j in jobs && jobs[j].phase.Ended?
    ensures JobsInv(m - {ReservationOf(j, jobs[j])}, free, jobs[j := jobs[j].(phase := Gone)])
  {
    OwnReservation(m, free, jobs, j);
    JobsKept(m, m - {ReservationOf(j, jobs[j])}, free, free, jobs, j, jobs[j].(phase := Gone));
  }

  /** With exclusive directories every report is charged to the reporter. */
  lemma ExclusiveDirsOwnCharge(s: State, a: Action)
    requires JobsInv(s.ledger.rem, s.free, s.jobs) && ExclusiveDirs(s) && Enabled(s, a)
    ensures OwnCharge(s, a)
  {
    if a.Report? {
      var r := ReservationOf(a.j, s.jobs[a.j]);
      assert Busy(s.jobs, a.j);
      forall o | o in s.ledger.rem && o != r ensures o.dir != r.dir {
        assert HeldBySome(s.jobs, o);
      }
    }
  }

  lemma AdmitKeepsInv(s: State, j: nat)
    requires Inv(s) && Enabled(s, Admit(j))
    ensures Inv(Step(s, Admit(j)))
  {
    OwnReservation(s.ledger.rem, s.free, s.jobs, j);
    LagNonNegative(s.ledger.rem, s.free, s.jobs);
    AdmitKeepsJobs(s.ledger.rem, s.free, s.jobs, j);
    AdmitBalanced(s, j);
  }

  lemma WriteKeepsInv(s: State, s': State, j: nat, n: nat)
    requires Inv(s) && j in s.jobs && s.jobs[j].phase.Running? && s.jobs[j].written + n <= s.jobs[j].need
    requires Wrote(s, s', j, n)
    ensures Inv(s')
  {
    WriteBalanced(s, s', j, n);
    WriteKeepsJobs(s.ledger.rem, s.free, s.jobs, s'.jobs, j, n);
  }

  /** A report lowers the reporter's remainder, and the total, by exactly what it reports. */
  lemma ReportCharges(s: State, j: nat, n: nat, l: Slice)
    requires JobsInv(s.ledger.rem, s.free, s.jobs) && Enabled(s, Report(j, n, l)) && OwnCharge(s, Report(j, n, l))
    ensures var r := ReservationOf(j, s.jobs[j]);
      r in s.ledger.rem && l == Slice(s.ledger.reserved - n, s.ledger.rem[r := s.ledger.rem[r] - n])
  {
    assert JobOk(s.ledger.rem, s.free, j, s.jobs[j]);
    forall o | o in s.ledger.rem ensures 0 <= s.ledger.rem[o] {
      assert HeldBySome(s.jobs, o) && JobOk(s.ledger.rem, s.free, o.id, s.jobs[o.id]);
    }
    ShrinkSole(s.ledger, l, ReservationOf(j, s.jobs[j]), n);
  }

  ghost predicate TookReport(s: State, s': State, j: nat, n: nat)
    requires j in s.jobs && ReservationOf(j, s.jobs[j]) in s.ledger.rem
  {
    var r := ReservationOf(j, s.jobs[j]);
    && s'.ledger == Slice(s.ledger.reserved - n, s.ledger.rem[r := s.ledger.rem[r] - n])
    && s'.jobs == s.jobs[j := s.jobs[j].(reported := s.jobs[j].reported + n)]
    && s'.free == s.free && s'.window == s.window
  }

  lemma ReportKeepsInv(s: State, s': State, j: nat, n: nat)
    requires Inv(s) && j in s.jobs && s.jobs[j].phase.Running? && s.jobs[j].reported + n <= s.jobs[j].written
    requires ReservationOf(j, s.jobs[j]) in s.ledger.rem && TookReport(s, s', j, n)
    ensures Inv(s')
  {
    ReportBalanced(s, j, n, s'.ledger);
    ChargeKeepsJobs(s.ledger.rem, s.free, s.jobs, j, n);
  }

  lemma DropKeepsInv(s: State, j: nat)
    requires Inv(s) && Enabled(s, Drop(j))
    ensures Inv(Step(s, Drop(j)))
  {
    OwnReservation(s.ledger.rem, s.free, s.jobs, j);
    DropKeepsJobs(s.ledger.rem, s.free, s.jobs, j);
    DropBalanced(s, j);
  }

  /** Steps outside the ledger: nothing held, owed or left to write changes. */
  lemma QuietKeepsInv(s: State, j: nat, job: Job, free: int)
    requires Inv(s) && free >= s.free && JobOk(s.ledger.rem, free, j, job)
    requires Holding(job) == Holding(Before(s.jobs, j))
    requires Holding(job) ==> job == s.jobs[j].(phase := job.phase)
    ensures Inv(s.(free := free, jobs := s.jobs[j := job]))
  {
    var m := s.ledger.rem;
    QuietBalanced(s, j, job, free);
    OwnReservation(m, s.free, s.jobs, j);
    JobsKept(m, m, s.free, free, s.jobs, j, job);
  }

  lemma OutsideKeepsInv(s: State, free: int)
    requires Inv(s) && free >= s.free
    ensures Inv(s.(free := free))
  {
    forall i | i in s.jobs ensures JobOk(s.ledger.rem, free, i, s.jobs[i]) {
      assert JobOk(s.ledger.rem, s.free, i, s.jobs[i]);
    }
  }

  lemma ReportStepKeepsInv(s: State, j: nat, n: nat, l: Slice)
    requires Inv(s) && Enabled(s, Report(j, n, l)) && OwnCharge(s, Report(j, n, l))
    ensures Inv(Step(s, Report(j, n, l)))
  {
    ReportCharges(s, j, n, l);
    ReportKeepsInv(s, Step(s, Report(j, n, l)), j, n);
  }

  lemma StepKeepsInv(s: State, a: Action)
    requires Inv(s) && Enabled(s, a) && OwnCharge(s, a)
    ensures Inv(Step(s, a))
  {
    match a
    case Report(j, n, l) => ReportStepKeepsInv(s, j, n, l);
    case _ => OtherStepKeepsInv(s, a);
  }

  /** Only reports need to be charged to the right job. */
  lemma OtherStepKeepsInv(s: State, a: Action)
    requires Inv(s) && Enabled(s, a) && !a.Report?
    ensures Inv(Step(s, a))
  {
    match a
    case Admit(j) => AdmitKeepsInv(s, j);
    case Write(j, n) => WriteStepKeepsInv(s, j, n);
    case Drop(j) => DropKeepsInv(s, j);
    case OutsideDelete(n) => OutsideKeepsInv(s, s.free + n);
    case _ => JobStepKeepsInv(s, a);
  }

  lemma WriteStepKeepsInv(s: State, j: nat, n: nat)
    requires Inv(s) && Enabled(s, Write(j, n))
    ensures Inv(Step(s, Write(j, n)))
  {
    WriteKeepsInv(s, Step(s, Write(j, n)), j, n);
  }

  lemma JobStepKeepsInv(s: State, a: Action)
    requires Inv(s) && Enabled(s, a) && (a.Arrive? || a.Sample? || a.Refuse? || a.End?)
    ensures Inv(Step(s, a))
  {
    assert a.j in s.jobs ==> JobOk(s.ledger.rem, s.free, a.j, s.jobs[a.j]);
    match a
    case Arrive(j, dir, need) => QuietKeepsInv(s, j, Job(dir, need, Waiting, 0, 0), s.free);
    case Sample(j) => QuietKeepsInv(s, j, s.jobs[j].(phase := Sampled(s.free, 0)), s.free);
    case Refuse(j, retry) => QuietKeepsInv(s, j, s.jobs[j].(phase := if retry then Waiting else Gone), s.free);
    case End(j, freed) => QuietKeepsInv(s, j, s.jobs[j].(phase := Ended), s.free + freed);
  }

  /** So it is with every report among the first n steps of a run. */
  ghost predicate OwnCharges(states: seq<State>, acts: seq<Action>, n: nat)
    requires n <= |acts| < |states|
  {
    forall k :: 0 <= k < n ==> OwnCharge(states[k], acts[k])
  }

  lemma {:induction false} RunKeepsInv(states: seq<State>, acts: seq<Action>, i: nat)
    requires IsRun(states, acts) && i < |states| && OwnCharges(states, acts, i)
    ensures Inv(states[i])
  {
    if i > 0 {
      RunKeepsInv(states, acts, i - 1);
      assert Enabled(states[i - 1], acts[i - 1]);
      StepKeepsInv(states[i - 1], acts[i - 1]);
    }
  }

  lemma {:induction false} ExclusiveDirsOwnCharges(states: seq<State>, acts: seq<Action>, i: nat)
    requires IsRun(states, acts) && i < |states| && forall k :: 0 <= k < i ==> ExclusiveDirs(states[k])
    ensures OwnCharges(states, acts, i)
  {
    if i > 0 {
      ExclusiveDirsOwnCharges(states, acts, i - 1);
      RunKeepsInv(states, acts, i - 1);
      assert Enabled(states[i - 1], acts[i - 1]);
      ExclusiveDirsOwnCharge(states[i - 1], acts[i - 1]);
    }
  }

  // ---- the theorems ------------------------------------------------------------------

  /** Disk no-overrun: in every state of every run whose reports so far each found no other bytes
      reserved in their directory, the free bytes, plus bytes written but not yet reported, plus
      the largest landing window of an admission, cover everything the ledger has reserved; the
      ledger is exactly what the jobs still owe it, each job's remainder is its own need minus its
      own reports; and up to the window the disk never runs out. */
  lemma NoOverrun(states: seq<State>, acts: seq<Action>, i: nat)
    requires IsRun(states, acts) && i < |states| && OwnCharges(states, acts, i)
    ensures var s := states[i];
      && s.free + TotalLag(s.jobs) + s.window >= s.ledger.reserved
      && s.ledger.reserved == TotalOwed(s.jobs)
      && s.free + s.window >= TotalToWrite(s.jobs) >= 0
      && forall j :: j in s.jobs && Holding(s.jobs[j]) ==>
           && ReservationOf(j, s.jobs[j]) in s.ledger.rem
           && s.ledger.rem[ReservationOf(j, s.jobs[j])] == s.jobs[j].need - s.jobs[j].reported
  {
    RunKeepsInv(states, acts, i);
    TotalsSplit(states[i].jobs);
    LagNonNegative(states[i].ledger.rem, states[i].free, states[i].jobs);
    assert forall j :: j in states[i].jobs ==> JobOk(states[i].ledger.rem, states[i].free, j, states[i].jobs[j]);
  }

  /** Every admission reads the free bytes right before it takes the lock. */
  ghost predicate SamplesFresh(acts: seq<Action>) {
    forall i :: 0 <= i < |acts| && acts[i].Admit? ==> i > 0 && acts[i - 1] == Sample(acts[i].j)
  }

  // ---- the steps are the ledger's ----------------------------------------------------------

  /** Admissions and refusals are what the ledger's reserve does on this filesystem, with the free
      bytes as sampled. */
  lemma AdmissionIsReserve(l: Ledger, s: State, j: nat)
    requires SpaceLedger.Valid(l) && SliceOf(l, FILESYSTEM) == s.ledger
    requires j in s.jobs && s.jobs[j].phase.Sampled? && ReservationOf(j, s.jobs[j]) !in s.ledger.rem
    ensures var r, job := ReservationOf(j, s.jobs[j]), s.jobs[j];
      var l' := Apply(l, OpReserve(r, job.phase.free, job.need));
      if Enabled(s, Admit(j)) then SliceOf(l', FILESYSTEM) == Step(s, Admit(j)).ledger
      else l' == l && forall retry :: Enabled(s, Refuse(j, retry)) && Step(s, Refuse(j, retry)).ledger == s.ledger
  {
    var r := ReservationOf(j, s.jobs[j]);
    assert JobsOf(l, FILESYSTEM) == s.ledger.rem && Reserved(l, FILESYSTEM) == s.ledger.reserved;
    SliceAfterAdd(l, r, s.jobs[j].need, FILESYSTEM);
  }

  /** Whatever order the map yields, a report's outcome on the ledger is one this model allows. */
  lemma ReportIsShrink(l: Ledger, s: State, j: nat, n: nat, order: seq<Reservation>)
    requires SpaceLedger.Valid(l) && SliceOf(l, FILESYSTEM) == s.ledger
    requires j in s.jobs && s.jobs[j].phase.Running? && 0 < n <= s.jobs[j].written - s.jobs[j].reported
    requires IterationOrder(order, JobsOf(l, FILESYSTEM).Keys)
    ensures Enabled(s, Report(j, n, SliceOf(Apply(l, OpShrink(FILESYSTEM, order, s.jobs[j].dir, n)), FILESYSTEM)))
  {
    SliceAfterShrink(l, FILESYSTEM, order, s.jobs[j].dir, n, FILESYSTEM);
  }

  lemma DropIsRelease(l: Ledger, s: State, j: nat)
    requires SpaceLedger.Valid(l) && SliceOf(l, FILESYSTEM) == s.ledger && Enabled(s, Drop(j))
    ensures SliceOf(Apply(l, OpRelease(ReservationOf(j, s.jobs[j]))), FILESYSTEM) == Step(s, Drop(j)).ledger
  {
    var r := ReservationOf(j, s.jobs[j]);
    assert JobsOf(l, FILESYSTEM) == s.ledger.rem && Reserved(l, FILESYSTEM) == s.ledger.reserved;
    if r in s.ledger.rem {
      SliceAfterRelease(l, r, FILESYSTEM);
    }
  }

  // ---- waiting jobs, whatever the directories ----------------------------------------

  /** True with or without exclusive directories. */
  ghost predicate RemaindersOwned(s: State) {
    s.ledger.reserved == Total(s.ledger.rem) && NoneForgotten(s.ledger.rem, s.jobs)
  }

  lemma AdmitKeepsOwned(s: State, j: nat)
    requires RemaindersOwned(s) && Enabled(s, Admit(j))
    ensures RemaindersOwned(Step(s, Admit(j)))
  {
    var s', r := Step(s, Admit(j)), ReservationOf(j, s.jobs[j]);
    assert r in s.ledger.rem ==> HeldBySome(s.jobs, r);
    TotalUpdate(s.ledger.rem, r, s.jobs[j].need);
    forall o | o in s'.ledger.rem ensures HeldBySome(s'.jobs, o) {
      assert o != r ==> HeldBySome(s.jobs, o);
    }
  }

  lemma DropKeepsOwned(s: State, j: nat)
    requires RemaindersOwned(s) && Enabled(s, Drop(j))
    ensures RemaindersOwned(Step(s, Drop(j)))
  {
    var s', r := Step(s, Drop(j)), ReservationOf(j, s.jobs[j]);
    if r in s.ledger.rem {
      TotalRemove(s.ledger.rem, r);
    }
    forall o | o in s'.ledger.rem ensures HeldBySome(s'.jobs, o) {
      assert HeldBySome(s.jobs, o);
    }
  }

  lemma StepKeepsOwned(s: State, a: Action)
    requires RemaindersOwned(s) && Enabled(s, a)
    ensures RemaindersOwned(Step(s, a))
  {
    if a.Admit? {
      AdmitKeepsOwned(s, a.j);
    } else if a.Drop? {
      DropKeepsOwned(s, a.j);
    } else {
      var s' := Step(s, a);
      forall o | o in s'.ledger.rem ensures HeldBySome(s'.jobs, o) {
        assert HeldBySome(s.jobs, o);
      }
    }
  }

  lemma {:induction false} RunKeepsOwned(states: seq<State>, acts: seq<Action>, i: nat)
    requires IsRun(states, acts) && i < |states|
    ensures RemaindersOwned(states[i])
  {
    if i > 0 {
      RunKeepsOwned(states, acts, i - 1);
      assert Enabled(states[i - 1], acts[i - 1]);
      StepKeepsOwned(states[i - 1], acts[i - 1]);
    }
  }

  /** A waiting, sampling or refused job has no part in the ledger: with no job between its
      admission and its release nothing is reserved, so a sample taken now lets in exactly the
      needs up to the free bytes. Waiting jobs cannot block one another. */
  lemma WaitersHoldNothing(states: seq<State>, acts: seq<Action>, i: nat, need: nat)
    requires IsRun(states, acts) && i < |states|
    requires forall j :: j in states[i].jobs ==> !Holding(states[i].jobs[j])
    ensures states[i].ledger == Slice(0, map[])
    ensures Admits(states[i].ledger.reserved, states[i].free, need) <==> need <= states[i].free
  {
    RunKeepsOwned(states, acts, i);
    var s := states[i];
    assert forall r :: r in s.ledger.rem ==> HeldBySome(s.jobs, r);
    assert s.ledger.rem == map[];
  }
}
