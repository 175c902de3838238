/** The conversions themselves, StripDV and P5, on one file tree and one space guard: reserve,
    run the foreign tools, verify, rename, and the deferred clean-up on every way out. */
module Convert {
  import opened Options
  import opened SpaceLedger
  import opened Paths
  import opened Probe
  import opened Progress
  import G = SpaceGuards
  import O = Outcomes
  import P = Publish

  /** What the space check of one conversion meets: the first attempt, the polls of a waiting
      one, and the bytes needed. */
  datatype Room = Room(first: G.Probe, polls: seq<G.Poll>, need: nat)

  /** One run of a foreign tool: what it leaves in its output file, write by write, its progress
      lines, and whether it succeeds. */
  datatype ToolRun = ToolRun(writes: seq<P.Content>, lines: seq<string>, ok: bool)

  /** `Waiting` is no error: the space check has not come to an end within the given polls. */
  datatype Failure =
    | MissingTool | SourceGone | NoRoom | Interrupted | Waiting | NotPrepared
    | ToolFailed | NotVerified | RenameFailed

  datatype Result = Published(final: string) | Failed(why: Failure)

  /** The failures that come before the output is begun. */
  predicate Early(why: Failure) {
    !(why.ToolFailed? || why.NotVerified? || why.RenameFailed?)
  }

  /** Probes of one directory that name a filesystem all name the same one. */
  ghost predicate KeyIs(key: Option<string>, fs: string) {
    fs != "" && (key.Some? ==> key.value == fs)
  }

  ghost predicate RoomOk(l: Ledger, room: Room, fs: string) {
    && KeyIs(room.first.key, fs) && G.LegalPolls(l, room.polls)
    && forall i :: 0 <= i < |room.polls| && room.polls[i].event.Tick? ==> KeyIs(room.polls[i].event.probe.key, fs)
  }

  /** The failures of the space check. */
  function Refusal(r: Result): Option<Failure> {
    if r.Failed? && (r.why.SourceGone? || r.why.NoRoom? || r.why.Interrupted? || r.why.Waiting?) then Some(r.why)
    else None
  }

  /** How the space check ends, from ledger l: without a source at once; with room at once; without
      room at once in side-by-side mode, which never waits; otherwise by the first poll that finds
      room or the context cancelled. */
  ghost predicate Admission(l: Ledger, here: bool, room: Room, replace: bool, used: nat, why: Option<Failure>) {
    if !here then why == Some(SourceGone) && used == 0
    else if G.Fits(l, room.first, room.need) then why == None && used == 0
    else if !replace then why == Some(NoRoom) && used == 0
    else used <= |room.polls| && Decided(l, room, used, why)
  }

  lemma NothingTaken(l: Ledger, fs: string, dir: string)
    ensures GaveBack(l, l, fs, dir)
  {
  }

  ghost predicate Decided(l: Ledger, room: Room, used: nat, why: Option<Failure>)
    requires used <= |room.polls|
  {
    && (forall i :: 0 <= i < used - 1 ==> G.Passes(l, room.polls, i, room.need))
    && match why
       case None =>
         && used > 0 && room.polls[used - 1].event.Tick?
         && G.Fits(G.LedgerAt(l, room.polls, used), room.polls[used - 1].event.probe, room.need)
       case Some(Interrupted) => used > 0 && room.polls[used - 1].event.Cancel?
       case Some(Waiting) => used == |room.polls| && (used > 0 ==> G.Passes(l, room.polls, used - 1, room.need))
       case _ => false
  }

  // ---- the ledger over one conversion ----------------------------------------------------

  /** A conversion that met ledger l in its admission and left l' holds nothing any more; where
      no other job had bytes reserved in its directory, every filesystem's share is as before. */
  ghost predicate GaveBack(l: Ledger, l': Ledger, fs: string, dir: string) {
    && SliceOf(l', fs).rem.Keys == SliceOf(l, fs).rem.Keys
    && (forall k :: k != fs ==> SliceOf(l', k) == SliceOf(l, k))
    && (QuietDir(JobsOf(l, fs), dir) ==> SliceOf(l', fs) == SliceOf(l, fs))
  }

  ghost predicate SameSlices(l: Ledger, l': Ledger) {
    forall k :: SliceOf(l', k) == SliceOf(l, k)
  }

  /** An admitted conversion's ledger before it, after admission, after its reports. */
  ghost predicate Held(l: Ledger, l1: Ledger, probe: G.Probe, fs: string, dir: string, need: nat, r: Reservation) {
    KeyIs(probe.key, fs) && SpaceLedger.Valid(l) && G.Grants(l, l1, probe, dir, need, r)
  }

  lemma KeylessGivesBack(l: Ledger, l2: Ledger, fs: string, dir: string, key: Option<string>, n: nat)
    requires KeyIs(key, fs) && Accounted(l, l2, key, dir, n)
    ensures GaveBack(l, l2, fs, dir)
  {
    if QuietDir(JobsOf(l, fs), dir) && key.Some? {
      ElsewhereUntouched(SliceOf(l, fs), SliceOf(l2, fs), dir, n);
    }
  }

  lemma HeldToTheEnd(l: Ledger, l1: Ledger, l2: Ledger, r: Reservation, need: nat, key: Option<string>, n: nat)
    requires SpaceLedger.Valid(l) && r.key != "" && !Holds(l, r) && l1 == Add(l, r, need)
    requires KeyIs(key, r.key) && Accounted(l1, l2, key, r.dir, n)
    ensures JobsOf(l2, r.key).Keys == JobsOf(l, r.key).Keys + {r}
    ensures forall k :: k != r.key ==> SliceOf(l2, k) == SliceOf(l, k)
  {
    SliceAfterAdd(l, r, need, r.key);
    assert SliceOf(l2, r.key).rem.Keys == SliceOf(l1, r.key).rem.Keys;
    forall k | k != r.key ensures SliceOf(l2, k) == SliceOf(l, k) {
      SliceAfterAdd(l, r, need, k);
      assert key != Some(k);
    }
  }

  lemma SoleSliceGivesBack(s: Slice, s2: Slice, r: Reservation, need: nat, reported: bool, n: nat)
    requires NonNegative(s.rem) && r !in s.rem && QuietDir(s.rem, r.dir)
    requires var s1 := Slice(s.reserved + need, s.rem[r := need]);
      if reported then ShrinksTo(s1, s2, r.dir, n) else s2 == s1
    ensures r in s2.rem && Slice(s2.reserved - s2.rem[r], s2.rem - {r}) == s
  {
    if reported {
      ShrinkSole(Slice(s.reserved + need, s.rem[r := need]), s2, r, n);
    }
    assert s2.rem - {r} == s.rem;
  }

  lemma SoleGivesBack(l: Ledger, l1: Ledger, l2: Ledger, r: Reservation, need: nat, key: Option<string>, n: nat)
    requires SpaceLedger.Valid(l) && r.key != "" && !Holds(l, r) && l1 == Add(l, r, need)
    requires KeyIs(key, r.key) && Accounted(l1, l2, key, r.dir, n) && QuietDir(JobsOf(l, r.key), r.dir)
    ensures r in JobsOf(l2, r.key)
    ensures Slice(Reserved(l2, r.key) - JobsOf(l2, r.key)[r], JobsOf(l2, r.key) - {r}) == SliceOf(l, r.key)
  {
    SliceAfterAdd(l, r, need, r.key);
    assert KeyOk(l, r.key);
    SoleSliceGivesBack(SliceOf(l, r.key), SliceOf(l2, r.key), r, need, key.Some?, n);
  }

  lemma SlicesReleased(l: Ledger, r: Reservation)
    requires SpaceLedger.Valid(l) && r.key != "" && Holds(l, r)
    ensures SliceOf(Release(l, r), r.key) == Slice(Reserved(l, r.key) - JobsOf(l, r.key)[r], JobsOf(l, r.key) - {r})
    ensures forall k :: k != r.key ==> SliceOf(Release(l, r), k) == SliceOf(l, k)
  {
    forall k ensures k != r.key ==> SliceOf(Release(l, r), k) == SliceOf(l, k) {
      SliceAfterRelease(l, r, k);
    }
    SliceAfterRelease(l, r, r.key);
  }

  lemma KeyedGivesBack(l: Ledger, l1: Ledger, l2: Ledger, r: Reservation, need: nat, key: Option<string>, n: nat)
    requires SpaceLedger.Valid(l) && SpaceLedger.Valid(l2) && r.key != "" && !Holds(l, r) && l1 == Add(l, r, need)
    requires KeyIs(key, r.key) && Accounted(l1, l2, key, r.dir, n)
    ensures GaveBack(l, Release(l2, r), r.key, r.dir)
  {
    HeldToTheEnd(l, l1, l2, r, need, key, n);
    SlicesReleased(l2, r);
    if QuietDir(JobsOf(l, r.key), r.dir) {
      SoleGivesBack(l, l1, l2, r, need, key, n);
    }
  }

  /** Whatever the conversion reported, releasing gives back what admission took. */
  lemma ConversionGivesBack(l: Ledger, l1: Ledger, l2: Ledger, probe: G.Probe, fs: string, dir: string,
                            need: nat, r: Reservation, key: Option<string>, n: nat)
    requires Held(l, l1, probe, fs, dir, need, r)
    requires SpaceLedger.Valid(l2) && KeyIs(key, fs) && Accounted(l1, l2, key, dir, n)
    ensures GaveBack(l, Release(l2, r), fs, dir)
  {
    if G.Keyless(probe) {
      KeylessGivesBack(l, l2, fs, dir, key, n);
    } else {
      KeyedGivesBack(l, l1, l2, r, need, key, n);
    }
  }

  lemma {:induction false} LedgerAtValid(l: Ledger, polls: seq<G.Poll>, i: nat)
    requires SpaceLedger.Valid(l) && i <= |polls|
    ensures SpaceLedger.Valid(G.LedgerAt(l, polls, i))
    decreases i
  {
    if i > 0 {
      LedgerAtValid(l, polls, i - 1);
      if LegalRun(G.LedgerAt(l, polls, i - 1), polls[i - 1].others) {
        LedgerAlwaysConsistent(G.LedgerAt(l, polls, i - 1), polls[i - 1].others);
      }
    }
  }

  /** The ledger the deciding attempt meets. */
  ghost function Met(l: Ledger, room: Room, used: nat): Ledger
    requires used <= |room.polls|
  {
    if used == 0 then l else G.LedgerAt(l, room.polls, used)
  }

  ghost function Deciding(room: Room, used: nat): G.Probe
    requires used <= |room.polls|
  {
    if used > 0 && room.polls[used - 1].event.Tick? then room.polls[used - 1].event.probe else room.first
  }

  /** reserveOutput: with no guard configured there is nothing to check; replace mode never fails
      for lack of room; a conversion that is not admitted leaves no trace in the ledger. */
  method ReserveOutput(g: G.SpaceGuard?, here: bool, room: Room, fs: string, dir: string, replace: bool)
    returns (r: Option<Reservation>, why: Option<Failure>, ghost used: nat)
    requires g != null ==> g.Valid() && RoomOk(g.View(), room, fs)
    modifies g
    ensures used <= |room.polls|
    ensures g == null ==> r.None? && why.None?
    ensures g != null ==> g.Valid() && (why.None? <==> r.Some?)
    ensures g != null && r.Some? ==>
      here && Held(Met(old(g.View()), room, used), g.View(), Deciding(room, used), fs, dir, room.need, r.value)
    ensures g != null && r.None? ==> g.View() == Met(old(g.View()), room, used)
    ensures g != null ==> Admission(old(g.View()), here, room, replace, used, why)
    ensures why.Some? ==> Refusal(Failed(why.value)) == why
    ensures g != null && here && !replace && !G.Fits(old(g.View()), room.first, room.need) ==>
      why == Some(NoRoom) && used == 0 && g.View() == old(g.View())
  {
    used := 0;
    if g == null {
      return None, None, 0;
    }
    if !here {
      return None, Some(SourceGone), 0;
    }
    ghost var was := g.View();
    var out;
    out, used := g.Acquire(room.first, room.polls, dir, room.need, replace);
    LedgerAtValid(was, room.polls, used);
    match out {
      case Acquired(a) => return Some(a), None, used;
      case NoSpace => return None, Some(NoRoom), used;
      case Cancelled => return None, Some(Interrupted), used;
      case StillWaiting => return None, Some(Waiting), used;
    }
  }

  /** No job has bytes reserved for writing into dir, on any filesystem. */
  ghost predicate Unreserved(l: Ledger, dir: string) {
    forall k :: QuietDir(JobsOf(l, k), dir)
  }

  lemma UnreservedAfterGrant(l: Ledger, l1: Ledger, probe: G.Probe, fs: string, dir: string, need: nat,
                             r: Reservation, scratch: string)
    requires Held(l, l1, probe, fs, dir, need, r) && Unreserved(l, scratch) && scratch != dir
    ensures Unreserved(l1, scratch)
  {
    if !G.Keyless(probe) {
      forall k ensures QuietDir(JobsOf(l1, k), scratch) {
        SliceAfterAdd(l, r, need, k);
        assert QuietDir(JobsOf(l, k), scratch);
        assert SliceOf(l1, k).rem == JobsOf(l1, k);
      }
    }
  }

  /** Bytes extracted into a scratch directory leave every reservation as it was. */
  lemma ScratchUnaccounted(l1: Ledger, l1': Ledger, l2: Ledger, scratch: string, key': Option<string>, m: nat,
                           key: Option<string>, dir: string, n: nat)
    requires Unreserved(l1, scratch) && Accounted(l1, l1', key', scratch, m) && Accounted(l1', l2, key, dir, n)
    ensures SameSlices(l1, l1') && Accounted(l1, l2, key, dir, n)
  {
    if key'.Some? {
      assert QuietDir(JobsOf(l1, key'.value), scratch);
      ElsewhereUntouched(SliceOf(l1, key'.value), SliceOf(l1', key'.value), scratch, m);
    }
    forall k ensures SliceOf(l1', k) == SliceOf(l1, k) {
      assert key' != Some(k) ==> SliceOf(l1', k) == SliceOf(l1, k);
    }
  }

  // ---- the files over one conversion -----------------------------------------------------

  /** What is in the output file once the tool has ended: its last write, or what was there. */
  function Output(files: map<string, P.Content>, tmp: string, run: ToolRun): Option<P.Content> {
    if run.writes != [] then Some(run.writes[|run.writes| - 1])
    else if tmp in files then Some(files[tmp])
    else None
  }

  lemma {:induction false} RunExtends(cfg: Config, s: P.State, steps: seq<P.Step>, a: P.Step)
    requires P.RunOf(cfg, s, steps) && P.Possible(cfg, P.EndOf(cfg, s, steps), a)
    ensures P.RunOf(cfg, s, steps + [a])
    ensures P.EndOf(cfg, s, steps + [a]) == P.After(cfg, P.EndOf(cfg, s, steps), a)
    decreases |steps|
  {
    if steps == [] {
      assert [] + [a] == [a];
    } else {
      assert (steps + [a])[1..] == steps[1..] + [a];
      RunExtends(cfg, P.After(cfg, s, steps[0]), steps[1..], a);
    }
  }

  ghost predicate Reached(cfg: Config, start: P.State, history: seq<P.Step>, s: P.State) {
    P.RunOf(cfg, start, history) && s == P.EndOf(cfg, start, history)
  }

  /** A file tree whose every change is a step of the publish protocol: `history` is the run that
      led from `start` to the state it is in. */
  class FileTree {
    const cfg: Config
    ghost const start: P.State
    ghost var history: seq<P.Step>
    ghost var model: P.State
    var files: map<string, P.Content>

    ghost predicate Valid()
      reads this
    {
      Reached(cfg, start, history, model) && files == model.files
    }

    constructor (cfg: Config, files: map<string, P.Content>)
      ensures Valid() && P.Initial(start) && this.cfg == cfg && this.files == files && history == []
    {
      this.cfg, this.files, history := cfg, files, [];
      var users := map p | p in files && !IsTemp(p) :: files[p];
      var temps := set p | p in files && IsTemp(p);
      var s := P.State(files, map[], users, map[], temps);
      start, model := s, s;
    }

    ghost method Note(a: P.Step)
      requires Reached(cfg, start, history, model) && P.Possible(cfg, model, a)
      modifies this`history, this`model
      ensures Reached(cfg, start, history, model) && model == P.After(cfg, old(model), a)
      ensures history == old(history) + [a]
    {
      RunExtends(cfg, start, history, a);
      model := P.After(cfg, model, a);
      history := history + [a];
    }

    /** handle's probe, before a conversion. */
    method Begin(path: string, st: O.Settings) returns (src: Info)
      requires Valid() && P.Possible(cfg, model, P.Begin(path, st))
      modifies this`history, this`model
      ensures Valid() && model == P.After(cfg, old(model), P.Begin(path, st))
      ensures model.workers[path] == P.Probed(src)
    {
      src := files[path].probed.value;
      Note(P.Begin(path, st));
    }

    /** The tool fills its output file write by write. */
    method Fill(path: string, run: ToolRun)
      requires Valid() && path in model.workers && model.workers[path].Writing?
      modifies this`files, this`history, this`model
      ensures Valid() && model.workers == old(model.workers)
      ensures files - {TmpPath(path)} == old(files) - {TmpPath(path)}
      ensures Output(old(files), TmpPath(path), run) == At(files, TmpPath(path))
    {
      var tmp := TmpPath(path);
      for i := 0 to |run.writes|
        invariant Valid() && model.workers == old(model.workers)
        invariant files - {tmp} == old(files) - {tmp}
        invariant i > 0 ==> tmp in files && files[tmp] == run.writes[i - 1]
        invariant i == 0 ==> files == old(files)
      {
        Note(P.WriteTmp(path, run.writes[i]));
        files := files[tmp := run.writes[i]];
      }
    }

    /** runFFmpeg with the tmp as its output: the file fills up while progress is accounted. */
    method RunFFmpeg(path: string, src: Info, g: G.SpaceGuard?, key: Option<string>, run: ToolRun)
      requires Valid() && path in model.workers && model.workers[path] == P.Probed(src)
      requires g != null ==> g.Valid()
      modifies this`files, this`history, this`model, g
      ensures Valid() && model.workers == old(model.workers)[path := P.Writing(src)]
      ensures files - {TmpPath(path)} == old(files) - {TmpPath(path)}
      ensures Output(old(files), TmpPath(path), run) == At(files, TmpPath(path))
      ensures g != null ==>
        g.Valid() && Accounted(old(g.View()), g.View(), key, Dir(TmpPath(path)), Reported(Sizes(run.lines)))
    {
      Note(P.Start(path));
      Fill(path, run);
      ReadProgress(g, key, Dir(TmpPath(path)), run.lines);
    }

    /** publish: probe and verify the tmp, then rename it over the final name. */
    method Publish(path: string, src: Info, renameOk: bool) returns (r: Result)
      requires Valid() && path in model.workers && model.workers[path] == P.Writing(src)
      modifies this`files, this`history, this`model
      ensures Valid() && model.workers == old(model.workers)[path := P.Leaving]
      ensures r.Failed? ==> files == old(files)
      ensures r == Failed(NotVerified) <==> !(TmpPath(path) in old(files) && P.Good(src, old(files)[TmpPath(path)]))
      ensures r.Published? <==> r != Failed(NotVerified) && renameOk
      ensures r.Failed? ==> r.why == NotVerified || r.why == RenameFailed
      ensures r.Published? ==>
        && r.final == FinalPath(cfg, path)
        && files == (old(files) - {TmpPath(path)})[r.final := old(files)[TmpPath(path)]]
    {
      var tmp, final := TmpPath(path), FinalPath(cfg, path);
      var good := CheckTmp(path, src);
      if !good {
        return Failed(NotVerified);
      }
      if !renameOk {
        Note(P.Fail(path));
        return Failed(RenameFailed);
      }
      Note(P.Rename(path));
      files := (files - {tmp})[final := files[tmp]];
      return Published(final);
    }

    method CheckTmp(path: string, src: Info) returns (good: bool)
      requires Valid() && path in model.workers && model.workers[path] == P.Writing(src)
      modifies this`history, this`model
      ensures Valid() && good == (TmpPath(path) in files && P.Good(src, files[TmpPath(path)]))
      ensures model.workers ==
        old(model.workers)[path := if good then P.Checked(src, files[TmpPath(path)]) else P.Leaving]
    {
      var tmp := TmpPath(path);
      good := tmp in files && files[tmp].probed.Some? && VerifyOutput(src, files[tmp].probed.value) == Verified;
      if tmp in files && files[tmp].probed.Some? {
        VerifyIff(src, files[tmp].probed.value);
      }
      Note(if good then P.Check(path) else P.Fail(path));
    }

    /** After the tool: publish if it succeeded, and remove the tmp in any case. */
    method Finish(path: string, src: Info, toolOk: bool, renameOk: bool) returns (r: Result)
      requires Valid() && path in model.workers && model.workers[path] == P.Writing(src)
      requires FinalPath(cfg, path) != TmpPath(path)
      modifies this`files, this`history, this`model
      ensures Valid() && model.workers == old(model.workers) - {path}
      ensures Finished(cfg, old(files), files, path, src, toolOk, renameOk, r)
    {
      var tmp := TmpPath(path);
      if toolOk {
        r := Publish(path, src, renameOk);
      } else {
        Note(P.Fail(path));
        r := Failed(ToolFailed);
      }
      Note(P.RemoveTmp(path));
      files := files - {tmp};
    }

    /** The tail both conversions share: run the last tool into the tmp while its progress is
        accounted, publish, and remove the tmp on every way out. */
    method Remux(path: string, src: Info, g: G.SpaceGuard?, key: Option<string>, run: ToolRun, renameOk: bool)
      returns (r: Result)
      requires Valid() && FinalPath(cfg, path) != TmpPath(path)
      requires path in model.workers && model.workers[path] == P.Probed(src)
      requires g != null ==> g.Valid()
      modifies this`files, this`history, this`model, g
      ensures Valid() && model.workers == old(model.workers) - {path}
      ensures g != null ==>
        g.Valid() && Accounted(old(g.View()), g.View(), key, Dir(TmpPath(path)), Reported(Sizes(run.lines)))
      ensures FilesAfter(cfg, old(files), files, path, src, run, renameOk, r)
      ensures r.Failed? ==> !Early(r.why)
    {
      RunFFmpeg(path, src, g, key, run);
      ghost var filled := files;
      r := Finish(path, src, run.ok, renameOk);
      RemuxEnds(cfg, old(files), filled, files, path, src, run, renameOk, r);
    }

    /** StripDV. Either nothing was begun and no file changed; or the conversion failed and the tmp
        is gone and nothing else changed; or the verified output stands under the final name and
        the tmp is gone. On every way out the space it reserved is given back. */
    method StripDV(path: string, src: Info, g: G.SpaceGuard?, fs: string, key: Option<string>,
                   room: Room, run: ToolRun, renameOk: bool)
      returns (r: Result, ghost used: nat)
      requires Valid() && P.Setting(cfg) && Eligible(cfg, path)
      requires path in model.workers && model.workers[path] == P.Probed(src)
      requires g != null ==> g.Valid() && RoomOk(g.View(), room, fs) && KeyIs(key, fs)
      modifies this`files, this`history, this`model, g
      ensures Valid() && model.workers == old(model.workers) - {path}
      ensures FilesAfter(cfg, old(files), files, path, src, run, renameOk, r)
      ensures used <= |room.polls|
      ensures g != null ==> g.Valid() && GaveBack(Met(old(g.View()), room, used), g.View(), fs, Dir(path))
      ensures g == null ==> Refusal(r) == None
      ensures g != null ==> Admission(old(g.View()), path in old(files), room, cfg.replace, used, Refusal(r))
      ensures g != null && Refusal(r).Some? ==> g.View() == Met(old(g.View()), room, used)
      ensures r.Failed? && Early(r.why) ==> Refusal(r).Some?
      ensures r == Failed(NoRoom) <==>
        g != null && path in old(files) && !cfg.replace && !G.Fits(old(g.View()), room.first, room.need)
    {
      var res, why;
      res, why, used := ReserveOutput(g, path in files, room, fs, Dir(path), cfg.replace);
      if why.Some? {
        r := Refuse(path, why.value);
        return;
      }
      r := StripAdmitted(path, src, g, fs, key, res, run, renameOk,
                         if g != null then Met(old(g.View()), room, used) else EMPTY, Deciding(room, used), room.need);
    }

    method Refuse(path: string, why: Failure) returns (r: Result)
      requires Valid() && path in model.workers && model.workers[path].Probed?
      modifies this`history, this`model
      ensures Valid() && model.workers == old(model.workers) - {path} && r == Failed(why)
    {
      Note(P.GiveUp(path));
      return Failed(why);
    }

    /** Once admitted, with l the ledger before that: remux, and release on every way out. */
    method StripAdmitted(path: string, src: Info, g: G.SpaceGuard?, fs: string, key: Option<string>,
                         res: Option<Reservation>, run: ToolRun, renameOk: bool,
                         ghost l: Ledger, ghost probe: G.Probe, ghost need: nat)
      returns (r: Result)
      requires Valid() && P.Setting(cfg) && Eligible(cfg, path)
      requires path in model.workers && model.workers[path] == P.Probed(src)
      requires g != null ==>
        g.Valid() && KeyIs(key, fs) && res.Some? && Held(l, g.View(), probe, fs, Dir(path), need, res.value)
      modifies this`files, this`history, this`model, g
      ensures Valid() && model.workers == old(model.workers) - {path}
      ensures FilesAfter(cfg, old(files), files, path, src, run, renameOk, r)
      ensures r.Failed? ==> !Early(r.why)
      ensures g != null ==> g.Valid() && GaveBack(l, g.View(), fs, Dir(path))
    {
      ghost var held := if g != null then g.View() else EMPTY;
      RemuxFiles(cfg, path);
      r := Remux(path, src, g, key, run, renameOk);
      if g != null {
        ConversionGivesBack(l, held, g.View(), probe, fs, Dir(path), need, res.value, key, Reported(Sizes(run.lines)));
        g.ReleaseReservation(res);
      }
    }

    /** The stages before the final remux, all outside the tree. */
    method Prepare(src: Info, g: G.SpaceGuard?, prep: Preparation) returns (ok: bool, ghost reported: nat)
      requires g != null ==> g.Valid()
      requires prep.tools
      modifies g
      ensures ok <==> Prepared(src, prep)
      ensures ok <==>
        && prep.scratch.Some? && prep.extract.ok && prep.reshapeOk
        && (prep.autoOk || (prep.explicitOk && src.frameRate !in ["", "0/0"]))
      ensures g != null ==> g.Valid()
      ensures g != null && prep.scratch.None? ==> g.View() == old(g.View())
      ensures g != null && prep.scratch.Some? ==>
        Accounted(old(g.View()), g.View(), prep.key, prep.scratch.value, reported)
    {
      ok, reported := false, 0;
      if prep.scratch.None? {
        return;
      }
      reported := Reported(Sizes(prep.extract.lines));
      ReadProgress(g, prep.key, prep.scratch.value, prep.extract.lines);
      if !prep.extract.ok || !prep.reshapeOk {
        return;
      }
      if src.frameRate == "" || src.frameRate == "0/0" {
        ok := prep.autoOk;
      } else {
        ok := prep.explicitOk;
        if !ok {
          ok := prep.autoOk;
        }
      }
    }

    method P5Admitted(path: string, src: Info, g: G.SpaceGuard?, key: Option<string>, prep: Preparation,
                      run: ToolRun, renameOk: bool)
      returns (r: Result, ghost mid: Ledger, ghost m: nat, ghost n: nat)
      requires Valid() && FinalPath(cfg, path) != TmpPath(path) && prep.tools
      requires path in model.workers && model.workers[path] == P.Probed(src)
      requires g != null ==> g.Valid()
      modifies this`files, this`history, this`model, g
      ensures Valid() && model.workers == old(model.workers) - {path}
      ensures FilesAfter(cfg, old(files), files, path, src, run, renameOk, r)
      ensures if Prepared(src, prep) then !(r.Failed? && Early(r.why)) else r == Failed(NotPrepared)
      ensures g != null ==> g.Valid() && Accounted(mid, g.View(), key, Dir(TmpPath(path)), n)
      ensures g != null && prep.scratch.None? ==> mid == old(g.View())
      ensures g != null && prep.scratch.Some? ==> Accounted(old(g.View()), mid, prep.key, prep.scratch.value, m)
    {
      var ok;
      ok, m := Prepare(src, g, prep);
      mid := if g != null then g.View() else EMPTY;
      n := 0;
      if ok {
        r := Remux(path, src, g, key, run, renameOk);
        n := Reported(Sizes(run.lines));
      } else {
        Note(P.GiveUp(path));
        r := Failed(NotPrepared);
        if g != null {
          NothingAccounted(mid, key, Dir(TmpPath(path)));
        }
      }
    }

    /** P5: as StripDV, with the preparation in between; its bytes land in a scratch directory, so
        with that directory no job's destination the space comes back here, too. */
    method P5(path: string, src: Info, g: G.SpaceGuard?, fs: string, key: Option<string>,
              room: Room, prep: Preparation, run: ToolRun, renameOk: bool)
      returns (r: Result, ghost used: nat)
      requires Valid() && P.Setting(cfg) && Eligible(cfg, path)
      requires path in model.workers && model.workers[path] == P.Probed(src)
      requires g != null ==> g.Valid() && RoomOk(g.View(), room, fs) && KeyIs(key, fs)
      modifies this`files, this`history, this`model, g
      ensures Valid() && model.workers == old(model.workers) - {path}
      ensures FilesAfter(cfg, old(files), files, path, src, run, renameOk, r)
      ensures r == Failed(MissingTool) <==> !prep.tools
      ensures prep.tools && g == null ==> Refusal(r) == None
      ensures prep.tools && g != null ==>
        Admission(old(g.View()), path in old(files), room, cfg.replace, used, Refusal(r))
      ensures g != null && Refusal(r).Some? ==> g.View() == Met(old(g.View()), room, used)
      ensures r == Failed(NotPrepared) <==> prep.tools && Refusal(r) == None && !Prepared(src, prep)
      ensures r.Failed? && Early(r.why) ==> Refusal(r).Some? || r.why == MissingTool || r.why == NotPrepared
      ensures r == Failed(NoRoom) <==>
        && prep.tools && g != null && path in old(files) && !cfg.replace
        && !G.Fits(old(g.View()), room.first, room.need)
      ensures used <= |room.polls|
      ensures g != null ==> g.Valid()
      ensures g != null && ScratchApart(Met(old(g.View()), room, used), prep, Dir(path)) ==>
        GaveBack(Met(old(g.View()), room, used), g.View(), fs, Dir(path))
    {
      if !prep.tools {
        Note(P.GiveUp(path));
        return Failed(MissingTool), 0;
      }
      r, used := P5WithTools(path, src, g, fs, key, room, prep, run, renameOk);
      if g != null {
        NothingTaken(Met(old(g.View()), room, used), fs, Dir(path));
      }
    }

    method P5WithTools(path: string, src: Info, g: G.SpaceGuard?, fs: string, key: Option<string>,
                       room: Room, prep: Preparation, run: ToolRun, renameOk: bool)
      returns (r: Result, ghost used: nat)
      requires Valid() && P.Setting(cfg) && Eligible(cfg, path) && prep.tools
      requires path in model.workers && model.workers[path] == P.Probed(src)
      requires g != null ==> g.Valid() && RoomOk(g.View(), room, fs) && KeyIs(key, fs)
      modifies this`files, this`history, this`model, g
      ensures Valid() && model.workers == old(model.workers) - {path}
      ensures FilesAfter(cfg, old(files), files, path, src, run, renameOk, r)
      ensures g == null ==> Refusal(r) == None
      ensures g != null ==> Admission(old(g.View()), path in old(files), room, cfg.replace, used, Refusal(r))
      ensures g != null && Refusal(r).Some? ==> g.View() == Met(old(g.View()), room, used)
      ensures Refusal(r) == None ==>
        if Prepared(src, prep) then !(r.Failed? && Early(r.why)) else r == Failed(NotPrepared)
      ensures used <= |room.polls|
      ensures g != null ==> g.Valid()
      ensures g != null && Refusal(r) == None && ScratchApart(Met(old(g.View()), room, used), prep, Dir(path)) ==>
        GaveBack(Met(old(g.View()), room, used), g.View(), fs, Dir(path))
    {
      var res, why;
      res, why, used := ReserveOutput(g, path in files, room, fs, Dir(path), cfg.replace);
      if why.Some? {
        r := Refuse(path, why.value);
        return;
      }
      r := P5Released(path, src, g, fs, key, res, prep, run, renameOk,
                      if g != null then Met(old(g.View()), room, used) else EMPTY, Deciding(room, used), room.need);
    }

    /** Once admitted, with l the ledger before that: prepare, remux, and release on every way out. */
    method P5Released(path: string, src: Info, g: G.SpaceGuard?, fs: string, key: Option<string>,
                      res: Option<Reservation>, prep: Preparation, run: ToolRun, renameOk: bool,
                      ghost l: Ledger, ghost probe: G.Probe, ghost need: nat)
      returns (r: Result)
      requires Valid() && P.Setting(cfg) && Eligible(cfg, path) && prep.tools
      requires path in model.workers && model.workers[path] == P.Probed(src)
      requires g != null ==>
        g.Valid() && KeyIs(key, fs) && res.Some? && Held(l, g.View(), probe, fs, Dir(path), need, res.value)
      modifies this`files, this`history, this`model, g
      ensures Valid() && model.workers == old(model.workers) - {path}
      ensures FilesAfter(cfg, old(files), files, path, src, run, renameOk, r)
      ensures if Prepared(src, prep) then !(r.Failed? && Early(r.why)) else r == Failed(NotPrepared)
      ensures g != null ==> g.Valid()
      ensures g != null && ScratchApart(l, prep, Dir(path)) ==> GaveBack(l, g.View(), fs, Dir(path))
    {
      ghost var held := if g != null then g.View() else EMPTY;
      ghost var mid, m, n;
      RemuxFiles(cfg, path);
      r, mid, m, n := P5Admitted(path, src, g, key, prep, run, renameOk);
      if g != null {
        P5GivesBack(l, held, mid, g.View(), probe, fs, Dir(path), need, res.value, prep, m, key, n);
        g.ReleaseReservation(res);
      }
    }
  }

  /** So whatever sequence of conversions a tree has been through, every path that is no temporary
      still holds its user's bytes or verified ones. */
  lemma TreeIntact(tree: FileTree, p: string)
    requires tree.Valid() && P.Setting(tree.cfg) && P.Initial(tree.start) && !IsTemp(p)
    ensures P.Kept(tree.cfg, tree.model, p) && tree.files == tree.model.files
  {
    P.EveryFileIntact(tree.cfg, tree.start, tree.history, p);
  }

  lemma P5GivesBack(l: Ledger, l1: Ledger, mid: Ledger, l2: Ledger, probe: G.Probe, fs: string, dir: string,
                    need: nat, r: Reservation, prep: Preparation, m: nat, key: Option<string>, n: nat)
    requires Held(l, l1, probe, fs, dir, need, r)
    requires SpaceLedger.Valid(l2) && KeyIs(key, fs) && Accounted(mid, l2, key, dir, n)
    requires prep.scratch.None? ==> mid == l1
    requires prep.scratch.Some? ==> Accounted(l1, mid, prep.key, prep.scratch.value, m)
    ensures ScratchApart(l, prep, dir) ==> GaveBack(l, Release(l2, r), fs, dir)
  {
    if ScratchApart(l, prep, dir) {
      if prep.scratch.Some? {
        UnreservedAfterGrant(l, l1, probe, fs, dir, need, r, prep.scratch.value);
        ScratchUnaccounted(l1, mid, l2, prep.scratch.value, prep.key, m, key, dir, n);
      }
      ConversionGivesBack(l, l1, l2, probe, fs, dir, need, r, key, n);
    }
  }

  /** The scratch directory is nobody's destination. */
  ghost predicate ScratchApart(l: Ledger, prep: Preparation, dir: string) {
    prep.scratch.Some? ==> prep.scratch.value != dir && Unreserved(l, prep.scratch.value)
  }

  /** The stages of P5 before the final remux: the tools are looked up, a scratch directory is
      made, the base layer is extracted into it under progress, its RPU reshaped, and its timing
      recovered with the probed rate or, failing that, automatically. */
  datatype Preparation = Preparation(tools: bool, scratch: Option<string>, key: Option<string>, extract: ToolRun,
                                     reshapeOk: bool, explicitOk: bool, autoOk: bool)

  predicate TimingOk(rate: string, prep: Preparation) {
    (rate != "" && rate != "0/0" && prep.explicitOk) || prep.autoOk
  }

  predicate Prepared(src: Info, prep: Preparation) {
    prep.tools && prep.scratch.Some? && prep.extract.ok && prep.reshapeOk && TimingOk(src.frameRate, prep)
  }

  /** The three ways a conversion of path can leave the files. */
  ghost predicate FilesAfter(cfg: Config, before: map<string, P.Content>, after: map<string, P.Content>, path: string,
                             src: Info, run: ToolRun, renameOk: bool, r: Result)
  {
    var tmp := TmpPath(path);
    var out := Output(before, tmp, run);
    var good := out.Some? && P.Good(src, out.value);
    match r
    case Published(final) =>
      && run.ok && good && renameOk
      && final == FinalPath(cfg, path) && after == (before - {tmp})[final := out.value]
    case Failed(why) =>
      if Early(why) then after == before
      else after == before - {tmp} && why == LateFailure(run.ok, good) && !(run.ok && good && renameOk)
  }

  function LateFailure(toolOk: bool, good: bool): Failure {
    if !toolOk then ToolFailed else if !good then NotVerified else RenameFailed
  }

  lemma RemuxFiles(cfg: Config, path: string)
    requires P.Setting(cfg) && Eligible(cfg, path)
    ensures FinalPath(cfg, path) != TmpPath(path) && Dir(TmpPath(path)) == Dir(path)
  {
    TmpBeside(path);
    FinalNotTemp(cfg, path);
  }

  ghost function At(files: map<string, P.Content>, p: string): Option<P.Content> {
    if p in files then Some(files[p]) else None
  }

  ghost predicate Finished(cfg: Config, filled: map<string, P.Content>, after: map<string, P.Content>, path: string,
                           src: Info, toolOk: bool, renameOk: bool, r: Result)
  {
    var tmp := TmpPath(path);
    var good := tmp in filled && P.Good(src, filled[tmp]);
    && (r.Failed? ==> after == filled - {tmp} && r.why == LateFailure(toolOk, good))
    && (r.Published? <==> toolOk && good && renameOk)
    && (r.Published? ==> r.final == FinalPath(cfg, path) && after == (filled - {tmp})[r.final := filled[tmp]])
  }

  /** From the tool's output to the files at the end. */
  lemma RemuxEnds(cfg: Config, before: map<string, P.Content>, filled: map<string, P.Content>,
                  after: map<string, P.Content>, path: string, src: Info, run: ToolRun, renameOk: bool, r: Result)
    requires filled - {TmpPath(path)} == before - {TmpPath(path)}
    requires Output(before, TmpPath(path), run) == At(filled, TmpPath(path))
    requires Finished(cfg, filled, after, path, src, run.ok, renameOk, r)
    ensures FilesAfter(cfg, before, after, path, src, run, renameOk, r)
  {
  }
}
