/** What becomes of each queued file: the decision of handle and strip, the counters and the
    failure list, and the tallies of many workers at once. */
module Outcomes {
  import opened Options
  import opened Probe

  datatype Settings = Settings(force: bool, dryRun: bool, p5Skip: bool)

  datatype Kind = KindStrip | KindP5

  datatype Bucket = Skipped | Marked | HDR10Only | Stripped | Failed | DryRun

  /** Everything handle learns from outside: the probe's answer and, should a conversion be
      started, whether it succeeds. */
  datatype Case = Case(probed: Option<Info>, conversionOk: bool)

  /** The conversion handle starts for a probed file, if any. */
  function Conversion(st: Settings, i: Info): Option<Kind> {
    if i.processed && !st.force then None
    else if !Is4K(i) || (!IsHDR10(i) && !IsDVP5(i)) || !i.hasDV then None
    else if st.dryRun || !StripSupported(i) then None
    else if IsDVP5(i) then (if st.p5Skip || IsAV1(i) then None else Some(KindP5))
    else if DVHDR10Compatible(i) then Some(KindStrip)
    else None
  }

  /** The one counter each file ends up in (a dry run ends in none of the printed ones). */
  function BucketOf(st: Settings, c: Case): Bucket {
    match c.probed
    case None => Failed
    case Some(i) =>
      if i.processed && !st.force then Marked
      else if !Is4K(i) || (!IsHDR10(i) && !IsDVP5(i)) then Skipped
      else if !i.hasDV then HDR10Only
      else if st.dryRun then DryRun
      else if Conversion(st, i).Some? then (if c.conversionOk then Stripped else Failed)
      else if !StripSupported(i) || (IsDVP5(i) && !st.p5Skip) then Failed
      else Skipped
  }

  // ---- the decision and the advertised action ------------------------------------------

  /** A conversion is started exactly when the advertised action, marker aside if forced, is that
      conversion, this is no dry run, and the codec and the profile-5 mode allow it. */
  lemma ConversionAgreesWithAction(st: Settings, i: Info)
    ensures var a := ActionOf(if st.force then i.(processed := false) else i);
      && (Conversion(st, i) == Some(KindStrip) <==> !st.dryRun && a == StripDV && StripSupported(i))
      && (Conversion(st, i) == Some(KindP5) <==> !st.dryRun && !st.p5Skip && a == ConvertP5 && i.codec == "hevc")
  {
  }

  /** A published file is never converted again, even with force: without force it is marked,
      with force it is at most reported as plain HDR10. */
  lemma PublishedNeverConverted(st: Settings, again: Settings, src: Info, out: Info)
    requires Conversion(st, src).Some? && VerifyOutput(src, out) == Verified
    ensures Conversion(again, out) == None
    ensures forall ok ::
      BucketOf(again, Case(Some(out), ok)) ==
      (if !again.force then Marked else if IsHDR10(out) then HDR10Only else Skipped)
  {
  }

  /** When each conversion is started, from the probed fields alone. */
  lemma ConversionStartsIff(st: Settings, i: Info)
    ensures var on := (i.processed ==> st.force) && !st.dryRun && i.width >= 3840 && i.hasDV;
      && (Conversion(st, i) == Some(KindStrip) <==>
            on && i.transfer == "smpte2084" && i.primaries == "bt2020" && i.dvProfile != 5
            && i.dvCompat in [1, 6] && i.codec in ["hevc", "av1"])
      && (Conversion(st, i) == Some(KindP5) <==> on && i.dvProfile == 5 && !st.p5Skip && i.codec == "hevc")
  {
  }

  /** Where each probed file ends up, from its fields and whether its conversion succeeds. */
  lemma BucketMeaning(st: Settings, i: Info, ok: bool)
    ensures var b := BucketOf(st, Case(Some(i), ok));
      var open := (i.processed ==> st.force) && i.width >= 3840;
      var pq := i.transfer == "smpte2084" && i.primaries == "bt2020";
      var p5 := i.hasDV && i.dvProfile == 5;
      var candidate := open && i.hasDV && (pq || p5);
      var known := i.codec in ["hevc", "av1"];
      var stripped := i.dvProfile != 5 && i.dvCompat in [1, 6] && known;
      var reshaped := p5 && !st.p5Skip && i.codec == "hevc";
      && (b == Marked <==> (i.processed && !st.force))
      && (b == HDR10Only <==> (open && pq && !i.hasDV))
      && (b == DryRun <==> (candidate && st.dryRun))
      && (b == Stripped <==> (candidate && !st.dryRun && (stripped || reshaped) && ok))
      && (b == Failed <==> (candidate && !st.dryRun &&
            (!known || (p5 && i.codec == "av1" && !st.p5Skip) || ((stripped || reshaped) && !ok))))
      && (b == Skipped <==> ((i.processed ==> st.force) &&
            (i.width < 3840 || (!pq && !p5) ||
             (candidate && !st.dryRun && known && (if p5 then st.p5Skip else i.dvCompat !in [1, 6])))))
  {
  }

  /** What the program advertises it would do, from the fields alone. */
  lemma ActionMeaning(i: Info)
    ensures var wide := !i.processed && i.width >= 3840;
      var p5 := i.hasDV && i.dvProfile == 5;
      var pq := i.transfer == "smpte2084" && i.primaries == "bt2020";
      && (ActionOf(i) == SkipMarked <==> i.processed)
      && (ActionOf(i) == SkipNot4K <==> (!i.processed && i.width < 3840))
      && (ActionOf(i) == ConvertP5 <==> (wide && p5))
      && (ActionOf(i) == SkipNotHDR10 <==> (wide && !p5 && !pq))
      && (ActionOf(i) == NoAction <==> (wide && pq && !i.hasDV))
      && (ActionOf(i) == StripDV <==> (wide && pq && i.hasDV && !p5 && i.dvCompat in [1, 6]))
      && (ActionOf(i) == Manual <==> (wide && pq && i.hasDV && !p5 && i.dvCompat !in [1, 6]))
  {
  }

  /** Failing to probe is the one other way to fail. */
  lemma UnprobedFails(st: Settings, c: Case)
    requires c.probed.None?
    ensures BucketOf(st, c) == Failed
  {
  }

  // ---- counters ------------------------------------------------------------------------

  datatype Counts = Counts(scanned: nat, skipped: nat, marked: nat, hdr10Only: nat, stripped: nat, failed: nat)

  function Bump(c: Counts, b: Bucket): Counts {
    match b
    case Skipped => c.(skipped := c.skipped + 1)
    case Marked => c.(marked := c.marked + 1)
    case HDR10Only => c.(hdr10Only := c.hdr10Only + 1)
    case Stripped => c.(stripped := c.stripped + 1)
    case Failed => c.(failed := c.failed + 1)
    case DryRun => c
  }

  class Stats {
    var scanned: nat
    var skipped: nat
    var marked: nat
    var hdr10Only: nat
    var stripped: nat
    var failed: nat
    var failures: map<string, string>

    function View(): Counts
      reads this
    {
      Counts(scanned, skipped, marked, hdr10Only, stripped, failed)
    }

    constructor ()
      ensures View() == Counts(0, 0, 0, 0, 0, 0) && failures == map[]
    {
      scanned, skipped, marked, hdr10Only, stripped, failed, failures := 0, 0, 0, 0, 0, 0, map[];
    }

    method RecordFailure(path: string, reason: string)
      modifies this`failed, this`failures
      ensures View() == Bump(old(View()), Failed)
      ensures failures == old(failures)[path := reason]
    {
      failures := failures[path := reason];
      failed := failed + 1;
    }

    /** handle and strip: the file is scanned, ends in exactly one bucket, and is listed as a
        failure exactly when that bucket is the failed one. */
    method Handle(path: string, st: Settings, c: Case) returns (started: Option<Kind>)
      modifies this
      ensures View() == Bump(old(View()).(scanned := old(scanned) + 1), BucketOf(st, c))
      ensures var b := BucketOf(st, c);
        && scanned == old(scanned) + 1
        && skipped == old(skipped) + (if b == Skipped then 1 else 0)
        && marked == old(marked) + (if b == Marked then 1 else 0)
        && hdr10Only == old(hdr10Only) + (if b == HDR10Only then 1 else 0)
        && stripped == old(stripped) + (if b == Stripped then 1 else 0)
        && failed == old(failed) + (if b == Failed then 1 else 0)
      ensures failures.Keys == old(failures).Keys + (if BucketOf(st, c) == Failed then {path} else {})
      ensures forall p :: p in old(failures) && p != path ==> failures[p] == old(failures)[p]
      ensures started == if c.probed.None? then None else Conversion(st, c.probed.value)
    {
      started := None;
      scanned := scanned + 1;
      if c.probed.None? {
        RecordFailure(path, "probe failed");
        return;
      }
      var info := c.probed.value;
      if info.processed && !st.force {
        marked := marked + 1;
        return;
      }
      if !Is4K(info) {
        skipped := skipped + 1;
      } else if !IsHDR10(info) && !IsDVP5(info) {
        skipped := skipped + 1;
      } else if !info.hasDV {
        hdr10Only := hdr10Only + 1;
      } else {
        started := Strip(path, info, st, c.conversionOk);
      }
    }

    method Strip(path: string, info: Info, st: Settings, conversionOk: bool) returns (started: Option<Kind>)
      requires Is4K(info) && info.hasDV && (IsHDR10(info) || IsDVP5(info)) && (info.processed ==> st.force)
      modifies this
      ensures View() == Bump(old(View()), BucketOf(st, Case(Some(info), conversionOk)))
      ensures failures.Keys == old(failures).Keys
        + (if BucketOf(st, Case(Some(info), conversionOk)) == Failed then {path} else {})
      ensures forall p :: p in old(failures) && p != path ==> failures[p] == old(failures)[p]
      ensures started == Conversion(st, info)
    {
      started := None;
      if st.dryRun {
        return;
      }
      if !StripSupported(info) {
        RecordFailure(path, "unsupported codec for DV processing: " + info.codec);
        return;
      }
      if IsDVP5(info) {
        if st.p5Skip {
          skipped := skipped + 1;
          return;
        }
        if IsAV1(info) {
          RecordFailure(path, "DV profile 5 in AV1 is not supported");
          return;
        }
        started := Some(KindP5);
      } else if DVHDR10Compatible(info) {
        started := Some(KindStrip);
      } else {
        skipped := skipped + 1;
        return;
      }
      if !conversionOk {
        RecordFailure(path, "conversion failed");
        return;
      }
      stripped := stripped + 1;
    }
  }

  // ---- many workers --------------------------------------------------------------------

  /** A handler between its scan count and its end; one that fails first lists its file and then
      counts it, two steps that others may interleave with. */
  datatype Phase = Working(path: string) | Listed(path: string)

  datatype Tally = Tally(counts: Counts, dryRuns: nat, failures: set<string>, active: map<nat, Phase>)

  datatype Event =
    | Scan(w: nat, path: string)
    | End(w: nat, st: Settings, c: Case) // a handler that does not fail
    | ListFailure(w: nat, st: Settings, c: Case)
    | CountFailure(w: nat)

  const START := Tally(Counts(0, 0, 0, 0, 0, 0), 0, {}, map[])

  predicate Enabled(t: Tally, e: Event) {
    match e
    case Scan(w, _) => w !in t.active
    case End(w, st, c) => w in t.active && t.active[w].Working? && BucketOf(st, c) != Failed
    case ListFailure(w, st, c) => w in t.active && t.active[w].Working? && BucketOf(st, c) == Failed
    case CountFailure(w) => w in t.active && t.active[w].Listed?
  }

  function Next(t: Tally, e: Event): Tally
    requires Enabled(t, e)
  {
    match e
    case Scan(w, path) =>
      t.(counts := t.counts.(scanned := t.counts.scanned + 1), active := t.active[w := Working(path)])
    case End(w, st, c) =>
      t.(counts := Bump(t.counts, BucketOf(st, c)),
         dryRuns := t.dryRuns + (if BucketOf(st, c) == DryRun then 1 else 0),
         active := t.active - {w})
    case ListFailure(w, _, _) =>
      var path := t.active[w].path;
      t.(failures := t.failures + {path}, active := t.active[w := Listed(path)])
    case CountFailure(w) =>
      t.(counts := Bump(t.counts, Failed), active := t.active - {w})
  }

  predicate Legal(t: Tally, es: seq<Event>)
    decreases |es|
  {
    es == [] || (Enabled(t, es[0]) && Legal(Next(t, es[0]), es[1..]))
  }

  function Run(t: Tally, es: seq<Event>): Tally
    requires Legal(t, es)
    decreases |es|
  {
    if es == [] then t else Run(Next(t, es[0]), es[1..])
  }

  function Ended(t: Tally): nat {
    t.counts.skipped + t.counts.marked + t.counts.hdr10Only + t.counts.stripped + t.counts.failed + t.dryRuns
  }

  ghost function ListedBy(t: Tally): set<nat> {
    set w | w in t.active && t.active[w].Listed?
  }

  /** Every scanned file is in one bucket or still being handled. */
  ghost predicate Conserved(t: Tally) {
    t.counts.scanned == Ended(t) + |t.active|
  }

  /** The failure list holds no more files than were counted or are about to be, every file
      about to be counted, and something once any was counted. */
  ghost predicate FailuresTold(t: Tally) {
    && |t.failures| <= t.counts.failed + |ListedBy(t)|
    && (t.counts.failed > 0 ==> t.failures != {})
    && (forall w :: w in t.active && t.active[w].Listed? ==> t.active[w].path in t.failures)
  }

  lemma CountActive(m: map<nat, Phase>, w: nat, ph: Phase)
    ensures |m[w := ph]| == |m| + (if w in m then 0 else 1)
    ensures w in m ==> |m - {w}| == |m| - 1
  {
    assert m[w := ph].Keys == m.Keys + {w};
    assert (m - {w}).Keys == m.Keys - {w};
    assert |m[w := ph]| == |m[w := ph].Keys| && |m| == |m.Keys| && |m - {w}| == |(m - {w}).Keys|;
  }

  lemma NextConserved(t: Tally, e: Event)
    requires Conserved(t) && Enabled(t, e)
    ensures Conserved(Next(t, e))
  {
    match e
    case Scan(w, path) => CountActive(t.active, w, Working(path));
    case ListFailure(w, _, _) => CountActive(t.active, w, Listed(t.active[w].path));
    case End(w, st, c) => CountActive(t.active, w, t.active[w]);
    case CountFailure(w) => CountActive(t.active, w, t.active[w]);
  }

  lemma NextFailuresTold(t: Tally, e: Event)
    requires FailuresTold(t) && Enabled(t, e)
    ensures FailuresTold(Next(t, e))
  {
    match e
    case Scan(_, _) => assert ListedBy(Next(t, e)) == ListedBy(t);
    case End(_, _, _) => assert ListedBy(Next(t, e)) == ListedBy(t);
    case ListFailure(_, _, _) => ListingTold(t, e);
    case CountFailure(_) => CountingTold(t, e);
  }

  lemma ListingTold(t: Tally, e: Event)
    requires FailuresTold(t) && Enabled(t, e) && e.ListFailure?
    ensures FailuresTold(Next(t, e))
  {
    var t' := Next(t, e);
    assert ListedBy(t') == ListedBy(t) + {e.w} && e.w !in ListedBy(t);
    assert |ListedBy(t')| == |ListedBy(t)| + 1;
  }

  lemma CountingTold(t: Tally, e: Event)
    requires FailuresTold(t) && Enabled(t, e) && e.CountFailure?
    ensures FailuresTold(Next(t, e))
  {
    var t' := Next(t, e);
    assert t.active[e.w].path in t.failures;
    assert ListedBy(t) == ListedBy(t') + {e.w} && e.w !in ListedBy(t');
    assert |ListedBy(t)| == |ListedBy(t')| + 1;
  }

  /** Whatever the interleaving, the counters account for every scanned file. */
  lemma {:induction false} RunAccounts(t: Tally, es: seq<Event>)
    requires Conserved(t) && FailuresTold(t) && Legal(t, es)
    ensures Conserved(Run(t, es)) && FailuresTold(Run(t, es))
    decreases |es|
  {
    if es != [] {
      NextConserved(t, es[0]);
      NextFailuresTold(t, es[0]);
      RunAccounts(Next(t, es[0]), es[1..]);
    }
  }

  /** One handler on its own goes through the interleaved steps to what Stats.Handle does. */
  lemma HandleIsTheseSteps(t: Tally, w: nat, path: string, st: Settings, c: Case)
    requires w !in t.active
    ensures var es := if BucketOf(st, c) == Failed
        then [Scan(w, path), ListFailure(w, st, c), CountFailure(w)]
        else [Scan(w, path), End(w, st, c)];
      && Legal(t, es)
      && Run(t, es).counts == Bump(t.counts.(scanned := t.counts.scanned + 1), BucketOf(st, c))
      && Run(t, es).failures == t.failures + (if BucketOf(st, c) == Failed then {path} else {})
      && Run(t, es).active == t.active
  {
    var t1 := Next(t, Scan(w, path));
    if BucketOf(st, c) == Failed {
      var t2 := Next(t1, ListFailure(w, st, c));
      RunFirst(t2, CountFailure(w), []);
      RunFirst(t1, ListFailure(w, st, c), [CountFailure(w)]);
      RunFirst(t, Scan(w, path), [ListFailure(w, st, c), CountFailure(w)]);
    } else {
      RunFirst(t1, End(w, st, c), []);
      RunFirst(t, Scan(w, path), [End(w, st, c)]);
    }
  }

  lemma RunFirst(t: Tally, e: Event, rest: seq<Event>)
    requires Enabled(t, e) && Legal(Next(t, e), rest)
    ensures Legal(t, [e] + rest) && Run(t, [e] + rest) == Run(Next(t, e), rest)
  {
    assert ([e] + rest)[1..] == rest;
  }

  /** The printed summary of a drained run adds up, and lists failed files exactly when it counts
      any. */
  lemma SummaryAddsUp(start: Tally, es: seq<Event>)
    requires start == START && Legal(start, es) && Run(start, es).active == map[]
    ensures var t := Run(start, es);
      && t.counts.scanned == Ended(t)
      && |t.failures| <= t.counts.failed
      && (t.failures == {} <==> t.counts.failed == 0)
  {
    assert ListedBy(start) == {};
    RunAccounts(start, es);
    var t := Run(start, es);
    assert ListedBy(t) == {};
  }
}
