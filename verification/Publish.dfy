/** The tmp-verify-rename protocol of many workers over one file tree, with crashes after any
    step, users adding, replacing and deleting files at any time, and startup sweeps. */
module Publish {
  import opened Options
  import opened Paths
  import opened Probe
  import opened Outcomes

  /** A file's bytes, by identity, with what a probe of them reads (None: the probe fails). */
  datatype Content = Content(id: int, probed: Option<Info>)

  /** One conversion: the source is probed, and the worker waits for room or prepares; the tmp is
      being written; its verified bytes await the rename; or only the deferred removal of the tmp
      is left. */
  datatype Worker = Probed(src: Info) | Writing(src: Info) | Checked(src: Info, bytes: Content) | Leaving

  /** Why a path holds published bytes: the source converted, its probe, and the bytes verified. */
  datatype Certificate = Certificate(source: string, src: Info, bytes: Content)

  /** `users` is what users last put at each path; `published` certifies the paths a rename has
      written since; `litter` names temporaries that no live worker answers for. */
  datatype State = State(
    files: map<string, Content>,
    workers: map<string, Worker>,
    users: map<string, Content>,
    published: map<string, Certificate>,
    litter: set<string>)

  datatype Step =
    | Put(path: string, bytes: Content)
    | Delete(path: string)
    | Begin(path: string, st: Settings)
    | GiveUp(path: string)
    | Start(path: string)
    | WriteTmp(path: string, bytes: Content)
    | Check(path: string)
    | Fail(path: string)
    | Rename(path: string)
    | RemoveTmp(path: string)
    | Crash
    | Sweep(path: string)

  predicate Good(src: Info, c: Content) {
    c.probed.Some? && Faithful(src, c.probed.value)
  }

  predicate Converts(st: Settings, c: Content) {
    c.probed.Some? && Conversion(st, c.probed.value).Some?
  }

  ghost predicate Possible(cfg: Config, s: State, a: Step) {
    match a
    case Put(p, _) => !IsTemp(p)
    case Delete(p) => !IsTemp(p)
    case Begin(p, st) => Eligible(cfg, p) && p !in s.workers && p in s.files && Converts(st, s.files[p])
    case GiveUp(p) => p in s.workers && s.workers[p].Probed?
    case Start(p) => p in s.workers && s.workers[p].Probed?
    case WriteTmp(p, _) => p in s.workers && s.workers[p].Writing?
    case Check(p) =>
      && p in s.workers && s.workers[p].Writing?
      && TmpPath(p) in s.files && Good(s.workers[p].src, s.files[TmpPath(p)])
    case Fail(p) => p in s.workers && (s.workers[p].Writing? || s.workers[p].Checked?)
    case Rename(p) => p in s.workers && s.workers[p].Checked? && TmpPath(p) in s.files
    case RemoveTmp(p) => p in s.workers && s.workers[p].Leaving?
    case Crash => true
    case Sweep(p) => IsTemp(p)
  }

  ghost function After(cfg: Config, s: State, a: Step): State
    requires Possible(cfg, s, a)
  {
    match a
    case Put(p, c) => s.(files := s.files[p := c], users := s.users[p := c], published := s.published - {p})
    case Delete(p) => s.(files := s.files - {p}, users := s.users - {p}, published := s.published - {p})
    case Begin(p, _) => s.(workers := s.workers[p := Probed(s.files[p].probed.value)])
    case GiveUp(p) => s.(workers := s.workers - {p})
    case Start(p) => s.(workers := s.workers[p := Writing(s.workers[p].src)])
    case WriteTmp(p, c) => s.(files := s.files[TmpPath(p) := c])
    case Check(p) => s.(workers := s.workers[p := Checked(s.workers[p].src, s.files[TmpPath(p)])])
    case Fail(p) => s.(workers := s.workers[p := Leaving])
    case Rename(p) =>
      var t, f := TmpPath(p), FinalPath(cfg, p);
      s.(files := (s.files - {t})[f := s.files[t]],
         published := s.published[f := Certificate(p, s.workers[p].src, s.workers[p].bytes)],
         workers := s.workers[p := Leaving])
    case RemoveTmp(p) =>
      s.(files := s.files - {TmpPath(p)}, workers := s.workers - {p}, litter := s.litter - {TmpPath(p)})
    case Crash => s.(workers := map[], litter := s.litter + set p | p in s.workers :: TmpPath(p))
    case Sweep(p) => s.(files := s.files - {p}, litter := s.litter - {p})
  }

  // ---- what every state keeps ----------------------------------------------------------

  ghost predicate Setting(cfg: Config) {
    Sane(cfg) && OutputsStayApart(cfg)
  }

  /** A certified path holds the certified bytes, which passed verification against the probed
      source and were published for it. */
  ghost predicate Certified(cfg: Config, files: map<string, Content>, path: string, c: Certificate) {
    && path in files && files[path] == c.bytes && Good(c.src, c.bytes)
    && Eligible(cfg, c.source) && path == FinalPath(cfg, c.source)
  }

  /** Path p, unless it names a temporary, holds what its user left there or certified bytes. */
  ghost predicate Intact(cfg: Config, s: State, p: string) {
    if p in s.published then Certified(cfg, s.files, p, s.published[p])
    else (p in s.files <==> p in s.users) && (p in s.files ==> s.files[p] == s.users[p])
  }

  /** A worker's tmp, if still there, holds the bytes it verified, until it renames them. */
  ghost predicate WorkerOk(cfg: Config, s: State, p: string)
    requires p in s.workers
  {
    && Eligible(cfg, p)
    && (s.workers[p].Checked? ==>
      && Good(s.workers[p].src, s.workers[p].bytes)
      && (TmpPath(p) in s.files ==> s.files[TmpPath(p)] == s.workers[p].bytes))
  }

  ghost predicate Answers(s: State, p: string) {
    p in s.workers && !s.workers[p].Probed?
  }

  ghost predicate HasOwner(s: State, t: string) {
    exists p :: Answers(s, p) && TmpPath(p) == t
  }

  ghost predicate AllIntact(cfg: Config, s: State) {
    forall p :: !IsTemp(p) ==> Intact(cfg, s, p)
  }

  ghost predicate WorkersOk(cfg: Config, s: State) {
    forall p :: p in s.workers ==> WorkerOk(cfg, s, p)
  }

  ghost predicate TempsAccounted(s: State) {
    forall t :: t in s.files && IsTemp(t) ==> t in s.litter || HasOwner(s, t)
  }

  ghost predicate Inv(cfg: Config, s: State) {
    AllIntact(cfg, s) && WorkersOk(cfg, s) && TempsAccounted(s)
  }

  /** Before the first step: the users' files and whatever temporaries an earlier crash left. */
  ghost predicate Initial(s: State) {
    && s.workers == map[] && s.published == map[]
    && (forall p :: p in s.files && IsTemp(p) ==> p in s.litter)
    && forall p :: !IsTemp(p) ==>
      (p in s.files <==> p in s.users) && (p in s.files ==> s.files[p] == s.users[p])
  }

  lemma InitialInv(cfg: Config, s: State)
    requires Initial(s)
    ensures Inv(cfg, s)
  {
    forall p | !IsTemp(p) ensures Intact(cfg, s, p) {}
  }

  ghost predicate SameAt(s: State, s': State, p: string) {
    && (p in s'.files <==> p in s.files) && (p in s.files ==> s'.files[p] == s.files[p])
    && (p in s'.users <==> p in s.users) && (p in s.users ==> s'.users[p] == s.users[p])
    && (p in s'.published <==> p in s.published) && (p in s.published ==> s'.published[p] == s.published[p])
  }

  lemma IntactSame(cfg: Config, s: State, s': State, p: string)
    requires Intact(cfg, s, p) && SameAt(s, s', p)
    ensures Intact(cfg, s', p)
  {
  }

  /** The only paths a step changes. */
  ghost predicate Touched(cfg: Config, a: Step, p: string) {
    match a
    case Put(q, _) => p == q
    case Delete(q) => p == q
    case WriteTmp(q, _) => p == TmpPath(q)
    case Rename(q) => p == TmpPath(q) || p == FinalPath(cfg, q)
    case RemoveTmp(q) => p == TmpPath(q)
    case Sweep(q) => p == q
    case _ => false
  }

  lemma UntouchedSame(cfg: Config, s: State, a: Step, p: string)
    requires Possible(cfg, s, a) && !Touched(cfg, a, p)
    ensures SameAt(s, After(cfg, s, a), p)
  {
  }

  lemma OwnTmp(cfg: Config, s: State, q: string)
    requires WorkersOk(cfg, s) && q in s.workers
    ensures Eligible(cfg, q) && IsTemp(TmpPath(q))
  {
    assert WorkerOk(cfg, s, q);
    TmpBeside(q);
  }

  /** A path touched by a step is a temporary, or the user's own doing, or the final name. */
  lemma TouchedIsTemp(cfg: Config, s: State, a: Step, p: string)
    requires WorkersOk(cfg, s) && Possible(cfg, s, a) && Touched(cfg, a, p)
    ensures IsTemp(p) || ((a.Put? || a.Delete?) && p == a.path) || (a.Rename? && p == FinalPath(cfg, a.path))
  {
    if a.WriteTmp? || a.Rename? || a.RemoveTmp? {
      OwnTmp(cfg, s, a.path);
    }
  }

  lemma RenameIntact(cfg: Config, s: State, q: string)
    requires WorkersOk(cfg, s) && Possible(cfg, s, Rename(q))
    ensures Intact(cfg, After(cfg, s, Rename(q)), FinalPath(cfg, q))
  {
    assert WorkerOk(cfg, s, q);
  }

  lemma StepKeepsIntact(cfg: Config, s: State, a: Step)
    requires Setting(cfg) && Inv(cfg, s) && Possible(cfg, s, a)
    ensures AllIntact(cfg, After(cfg, s, a))
  {
    var s' := After(cfg, s, a);
    forall p | !IsTemp(p) ensures Intact(cfg, s', p) {
      if Touched(cfg, a, p) {
        TouchedIsTemp(cfg, s, a, p);
        if a.Rename? {
          RenameIntact(cfg, s, a.path);
        }
      } else {
        UntouchedSame(cfg, s, a, p);
        IntactSame(cfg, s, s', p);
      }
    }
  }

  /** A worker whose own record and tmp a step leaves alone, or removes, stays as it was. */
  lemma WorkerSame(cfg: Config, s: State, s': State, p: string)
    requires p in s.workers && WorkerOk(cfg, s, p) && p in s'.workers && s'.workers[p] == s.workers[p]
    requires TmpPath(p) in s'.files ==> SameAt(s, s', TmpPath(p))
    ensures WorkerOk(cfg, s', p)
  {
  }

  lemma NotTheirTmp(cfg: Config, q: string, p: string)
    requires Setting(cfg) && Eligible(cfg, q) && Eligible(cfg, p) && q != p
    ensures TmpPath(q) != TmpPath(p) && FinalPath(cfg, q) != TmpPath(p)
  {
    NonInterference(cfg, q, p);
  }

  lemma WorkersTmpTouched(cfg: Config, s: State, a: Step, p: string)
    requires Setting(cfg) && WorkersOk(cfg, s) && Possible(cfg, s, a) && Eligible(cfg, p)
    requires (a.WriteTmp? || a.Rename? || a.RemoveTmp?) && a.path != p
    ensures !Touched(cfg, a, TmpPath(p))
  {
    OwnTmp(cfg, s, a.path);
    NotTheirTmp(cfg, a.path, p);
  }

  lemma OthersTmpUntouched(cfg: Config, s: State, a: Step, p: string)
    requires Setting(cfg) && WorkersOk(cfg, s) && Possible(cfg, s, a) && p in s.workers
    requires a.WriteTmp? || a.Rename? || a.RemoveTmp? ==> a.path != p
    ensures Touched(cfg, a, TmpPath(p)) <==> a == Sweep(TmpPath(p))
  {
    OwnTmp(cfg, s, p);
    if a.WriteTmp? || a.Rename? || a.RemoveTmp? {
      WorkersTmpTouched(cfg, s, a, p);
    }
  }

  lemma StepKeepsWorker(cfg: Config, s: State, a: Step, p: string)
    requires Setting(cfg) && WorkersOk(cfg, s) && Possible(cfg, s, a) && p in s.workers
    requires p in After(cfg, s, a).workers && After(cfg, s, a).workers[p] == s.workers[p]
    requires a.WriteTmp? ==> a.path != p
    ensures WorkerOk(cfg, After(cfg, s, a), p)
  {
    assert WorkerOk(cfg, s, p);
    assert a.Rename? || a.RemoveTmp? ==> a.path != p;
    OthersTmpUntouched(cfg, s, a, p);
    if a != Sweep(TmpPath(p)) {
      UntouchedSame(cfg, s, a, TmpPath(p));
    }
    WorkerSame(cfg, s, After(cfg, s, a), p);
  }

  /** A worker that has just begun, moved on, or written to its unverified tmp. */
  lemma OwnStepOk(cfg: Config, s: State, a: Step, p: string)
    requires WorkersOk(cfg, s) && Possible(cfg, s, a) && p in After(cfg, s, a).workers
    requires (a.WriteTmp? && a.path == p) || p !in s.workers || After(cfg, s, a).workers[p] != s.workers[p]
    ensures WorkerOk(cfg, After(cfg, s, a), p)
  {
    assert p in s.workers ==> WorkerOk(cfg, s, p);
  }

  lemma StepKeepsWorkers(cfg: Config, s: State, a: Step)
    requires Setting(cfg) && Inv(cfg, s) && Possible(cfg, s, a)
    ensures WorkersOk(cfg, After(cfg, s, a))
  {
    var s' := After(cfg, s, a);
    forall p | p in s'.workers ensures WorkerOk(cfg, s', p) {
      if p in s.workers && s'.workers[p] == s.workers[p] && !(a.WriteTmp? && a.path == p) {
        StepKeepsWorker(cfg, s, a, p);
      } else {
        OwnStepOk(cfg, s, a, p);
      }
    }
  }

  lemma AnswersStays(cfg: Config, s: State, a: Step, p: string)
    requires Possible(cfg, s, a) && Answers(s, p) && !a.Crash? && a != RemoveTmp(p)
    ensures Answers(After(cfg, s, a), p)
  {
  }

  lemma OwnerStays(cfg: Config, s: State, a: Step, t: string)
    requires Possible(cfg, s, a) && HasOwner(s, t)
    requires !a.Crash? && !(a.RemoveTmp? && TmpPath(a.path) == t)
    ensures HasOwner(After(cfg, s, a), t)
  {
    var p :| Answers(s, p) && TmpPath(p) == t;
    AnswersStays(cfg, s, a, p);
  }

  /** A file that is new after a step and temporary is the tmp of the worker that wrote it. */
  lemma NewTempIsWritten(cfg: Config, s: State, a: Step, t: string)
    requires Setting(cfg) && WorkersOk(cfg, s) && Possible(cfg, s, a)
    requires t in After(cfg, s, a).files && t !in s.files && IsTemp(t)
    ensures a.WriteTmp? && t == TmpPath(a.path)
  {
    if a.Rename? {
      OwnTmp(cfg, s, a.path);
      FinalNotTemp(cfg, a.path);
    }
  }

  lemma StepKeepsTemps(cfg: Config, s: State, a: Step)
    requires Setting(cfg) && Inv(cfg, s) && Possible(cfg, s, a)
    ensures TempsAccounted(After(cfg, s, a))
  {
    var s' := After(cfg, s, a);
    forall t | t in s'.files && IsTemp(t) ensures t in s'.litter || HasOwner(s', t) {
      if t !in s.files {
        NewTempIsWritten(cfg, s, a, t);
        assert Answers(s', a.path);
      } else if t !in s.litter && !a.Crash? {
        OwnerStays(cfg, s, a, t);
      }
    }
  }

  ghost predicate RunOf(cfg: Config, s: State, steps: seq<Step>)
    decreases |steps|
  {
    steps == [] || (Possible(cfg, s, steps[0]) && RunOf(cfg, After(cfg, s, steps[0]), steps[1..]))
  }

  ghost function EndOf(cfg: Config, s: State, steps: seq<Step>): State
    requires RunOf(cfg, s, steps)
    decreases |steps|
  {
    if steps == [] then s else EndOf(cfg, After(cfg, s, steps[0]), steps[1..])
  }

  lemma {:induction false} RunKeepsInv(cfg: Config, s: State, steps: seq<Step>)
    requires Setting(cfg) && Inv(cfg, s) && RunOf(cfg, s, steps)
    ensures Inv(cfg, EndOf(cfg, s, steps))
    decreases |steps|
  {
    if steps != [] {
      StepKeepsIntact(cfg, s, steps[0]);
      StepKeepsWorkers(cfg, s, steps[0]);
      StepKeepsTemps(cfg, s, steps[0]);
      RunKeepsInv(cfg, After(cfg, s, steps[0]), steps[1..]);
    }
  }

  /** What that means for a path that is no temporary: it holds what its user left there, or bytes
      that passed verification and were published there, for itself in replace mode; in side-by-side
      mode no file the program takes up is ever written or removed by it. */
  ghost predicate Kept(cfg: Config, s: State, p: string) {
    && Intact(cfg, s, p)
    && (!cfg.replace && Eligible(cfg, p) ==> p !in s.published)
    && (cfg.replace && p in s.published ==> s.published[p].source == p)
  }

  lemma InvKeeps(cfg: Config, s: State, p: string)
    requires Sane(cfg) && Inv(cfg, s) && !IsTemp(p)
    ensures Kept(cfg, s, p)
  {
    assert Intact(cfg, s, p);
    if !cfg.replace && p in s.published {
      FinalNeverEligible(cfg, s.published[p].source);
    }
  }

  /** So it is whatever the interleaving and wherever it crashes. */
  lemma EveryFileIntact(cfg: Config, start: State, steps: seq<Step>, p: string)
    requires Setting(cfg) && Initial(start) && RunOf(cfg, start, steps) && !IsTemp(p)
    ensures Kept(cfg, EndOf(cfg, start, steps), p)
  {
    InitialInv(cfg, start);
    RunKeepsInv(cfg, start, steps);
    InvKeeps(cfg, EndOf(cfg, start, steps), p);
  }

  /** In every reachable state the bytes at a published path have the width of the source they were
      made from, no Dolby Vision, the marker, and HDR10+ if that source had it. */
  lemma PublishedBytesFaithful(cfg: Config, start: State, steps: seq<Step>, p: string)
    requires Setting(cfg) && Initial(start) && RunOf(cfg, start, steps) && !IsTemp(p)
    ensures var s := EndOf(cfg, start, steps);
      p in s.published ==>
        && p in s.files && s.files[p].probed.Some?
        && var src, out := s.published[p].src, s.files[p].probed.value;
           && out.width == src.width && !out.hasDV && out.processed
           && (src.hasHDR10Plus ==> out.hasHDR10Plus)
  {
    EveryFileIntact(cfg, start, steps, p);
  }

  /** The bytes a rename publishes are exactly the bytes its worker verified. */
  lemma RenamePublishesVerified(cfg: Config, start: State, steps: seq<Step>, p: string)
    requires Setting(cfg) && Initial(start) && RunOf(cfg, start, steps)
    requires Possible(cfg, EndOf(cfg, start, steps), Rename(p))
    ensures var s := EndOf(cfg, start, steps);
      && FinalPath(cfg, p) in After(cfg, s, Rename(p)).files
      && After(cfg, s, Rename(p)).files[FinalPath(cfg, p)] == s.workers[p].bytes
      && Good(s.workers[p].src, s.workers[p].bytes)
  {
    InitialInv(cfg, start);
    RunKeepsInv(cfg, start, steps);
    assert WorkerOk(cfg, EndOf(cfg, start, steps), p);
  }

  lemma TmpKept(cfg: Config, s: State, a: Step, p: string)
    requires Setting(cfg) && WorkersOk(cfg, s) && Possible(cfg, s, a) && p in s.workers && TmpPath(p) in s.files
    requires a.WriteTmp? || a.Rename? || a.RemoveTmp? ==> a.path != p
    ensures TmpPath(p) in After(cfg, s, a).files <==> a != Sweep(TmpPath(p))
  {
    OthersTmpUntouched(cfg, s, a, p);
    if a != Sweep(TmpPath(p)) {
      UntouchedSame(cfg, s, a, TmpPath(p));
    }
  }

  lemma CheckedActs(cfg: Config, s: State, a: Step, p: string)
    requires Possible(cfg, s, a) && p in s.workers && s.workers[p].Checked?
    requires p in After(cfg, s, a).workers && After(cfg, s, a).workers[p].Checked?
    ensures a.WriteTmp? || a.Rename? || a.RemoveTmp? ==> a.path != p
  {
  }

  /** A verified tmp awaits its rename through everything else that may happen, except a sweep of
      that very file: sweeping while a conversion is in flight is all that can make it fail. */
  lemma OnlySweepsTakeTmps(cfg: Config, s: State, a: Step, p: string)
    requires Setting(cfg) && Inv(cfg, s) && Possible(cfg, s, a)
    requires Possible(cfg, s, Rename(p)) && p in After(cfg, s, a).workers && After(cfg, s, a).workers[p].Checked?
    ensures Possible(cfg, After(cfg, s, a), Rename(p)) <==> a != Sweep(TmpPath(p))
  {
    CheckedActs(cfg, s, a, p);
    TmpKept(cfg, s, a, p);
  }

  lemma {:induction false} NoCrashNoLitter(cfg: Config, s: State, steps: seq<Step>)
    requires RunOf(cfg, s, steps) && s.litter == {} && Crash !in steps
    ensures EndOf(cfg, s, steps).litter == {}
    decreases |steps|
  {
    if steps != [] {
      NoCrashNoLitter(cfg, After(cfg, s, steps[0]), steps[1..]);
    }
  }

  /** Without a crash nothing is left behind: once no conversion runs, no temporary exists. */
  lemma QuietTreeHasNoTemps(cfg: Config, start: State, steps: seq<Step>, t: string)
    requires Setting(cfg) && Initial(start) && RunOf(cfg, start, steps)
    requires start.litter == {} && Crash !in steps && EndOf(cfg, start, steps).workers == map[]
    ensures IsTemp(t) ==> t !in EndOf(cfg, start, steps).files
  {
    InitialInv(cfg, start);
    RunKeepsInv(cfg, start, steps);
    NoCrashNoLitter(cfg, start, steps);
  }

  // ---- no feedback ---------------------------------------------------------------------

  predicate CarriesDV(c: Content) {
    c.probed.Some? && c.probed.value.hasDV
  }

  /** There is Dolby Vision content at p, or a conversion of some on its way to a rename. */
  predicate Pending(s: State, p: string) {
    (p in s.files && CarriesDV(s.files[p])) || (p in s.workers && !s.workers[p].Leaving?)
  }

  ghost function Arrivals(steps: seq<Step>, p: string): nat
    decreases |steps|
  {
    if steps == [] then 0
    else (if steps[0].Put? && steps[0].path == p && CarriesDV(steps[0].bytes) then 1 else 0) + Arrivals(steps[1..], p)
  }

  ghost function Conversions(steps: seq<Step>, p: string): nat
    decreases |steps|
  {
    if steps == [] then 0
    else (if steps[0] == Rename(p) then 1 else 0) + Conversions(steps[1..], p)
  }

  lemma RenameSpends(cfg: Config, s: State, s': State, p: string)
    requires cfg.replace && p in s.workers && s.workers[p].Checked? && WorkerOk(cfg, s, p)
    requires TmpPath(p) in s.files && p in s'.files && s'.files[p] == s.files[TmpPath(p)]
    requires p in s'.workers && s'.workers[p] == Leaving
    ensures Pending(s, p) && !Pending(s', p)
  {
  }

  lemma PendingStays(cfg: Config, s: State, a: Step, p: string)
    requires Possible(cfg, s, a) && SameAt(s, After(cfg, s, a), p) && Pending(After(cfg, s, a), p)
    ensures Pending(s, p)
  {
  }

  /** In replace mode the program changes a file it takes up only by the rename onto it. */
  lemma TouchedEligible(cfg: Config, s: State, a: Step, p: string)
    requires cfg.replace && WorkersOk(cfg, s) && Possible(cfg, s, a) && Eligible(cfg, p) && Touched(cfg, a, p)
    ensures (a.Put? || a.Delete? || a.Rename?) && a.path == p
  {
    TouchedIsTemp(cfg, s, a, p);
  }

  lemma ArrivalPends(cfg: Config, s: State, a: Step, p: string)
    requires (a.Put? || a.Delete?) && a.path == p && Possible(cfg, s, a)
    requires Pending(After(cfg, s, a), p) && !Pending(s, p)
    ensures a.Put? && CarriesDV(a.bytes)
  {
  }

  lemma RenamePends(cfg: Config, s: State, p: string)
    requires cfg.replace && WorkersOk(cfg, s) && Possible(cfg, s, Rename(p))
    ensures Pending(s, p) && !Pending(After(cfg, s, Rename(p)), p)
  {
    assert WorkerOk(cfg, s, p);
    RenameSpends(cfg, s, After(cfg, s, Rename(p)), p);
  }

  /** A rename uses up what was pending, and only an arrival makes a path pending. */
  lemma StepSpendsArrival(cfg: Config, s: State, a: Step, p: string)
    requires cfg.replace && WorkersOk(cfg, s) && Possible(cfg, s, a) && Eligible(cfg, p)
    ensures a == Rename(p) ==> Pending(s, p) && !Pending(After(cfg, s, a), p)
    ensures Pending(After(cfg, s, a), p) && !Pending(s, p) ==> a.Put? && a.path == p && CarriesDV(a.bytes)
  {
    if a == Rename(p) {
      RenamePends(cfg, s, p);
    } else if Pending(After(cfg, s, a), p) && !Pending(s, p) {
      if Touched(cfg, a, p) {
        TouchedEligible(cfg, s, a, p);
        ArrivalPends(cfg, s, a, p);
      } else {
        UntouchedSame(cfg, s, a, p);
        PendingStays(cfg, s, a, p);
      }
    }
  }

  /** In replace mode a file is converted at most as often as Dolby Vision content arrived at its
      path, the file it held at the start included: the program never feeds on its own output,
      whatever settings each conversion runs under. */
  lemma {:induction false} NoFeedback(cfg: Config, s: State, steps: seq<Step>, p: string)
    requires cfg.replace && Sane(cfg) && Inv(cfg, s) && RunOf(cfg, s, steps) && Eligible(cfg, p)
    ensures Conversions(steps, p) + (if Pending(EndOf(cfg, s, steps), p) then 1 else 0)
         <= Arrivals(steps, p) + (if Pending(s, p) then 1 else 0)
    decreases |steps|
  {
    if steps != [] {
      StepKeepsIntact(cfg, s, steps[0]);
      StepKeepsWorkers(cfg, s, steps[0]);
      StepKeepsTemps(cfg, s, steps[0]);
      StepSpendsArrival(cfg, s, steps[0], p);
      NoFeedback(cfg, After(cfg, s, steps[0]), steps[1..], p);
    }
  }

  /** In side-by-side mode no published file is ever taken up, so no run starts on an output. */
  lemma OutputsNeverTakenUp(cfg: Config, s: State, p: string, q: string, st: Settings)
    requires Sane(cfg) && !cfg.replace && Eligible(cfg, q) && p == FinalPath(cfg, q)
    ensures !Possible(cfg, s, Begin(p, st))
  {
    FinalNeverEligible(cfg, q);
  }
}
