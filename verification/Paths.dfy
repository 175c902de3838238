/** File naming: where a conversion writes, what it publishes as, and which paths the walks and
    the event loop accept. Paths are clean file paths with '/' as separator. */
module Paths {
  import opened Text

  const MARKER := ".swp.dvstrip."
  const LEGACY := ".dvstrip.tmp"

  datatype Config = Config(suffix: string, replace: bool, exts: seq<string>)

  // ---- the path functions of the standard library ------------------------------------

  /** Everything up to and including the last separator. */
  function DirPart(path: string): string {
    path[..LastIndex(path, '/') + 1]
  }

  function Base(path: string): string {
    path[LastIndex(path, '/') + 1..]
  }

  function Dir(path: string): string {
    var d := DirPart(path);
    if d == "" then "." else if d == "/" then "/" else d[..|d| - 1]
  }

  /** Joining a clean directory and a file name. */
  function Join(dir: string, name: string): string {
    if dir == "." then name else if dir == "/" then "/" + name else dir + "/" + name
  }

  /** The suffix of a file name that begins at its last dot. */
  function ExtOf(base: string): string {
    var i := LastIndex(base, '.');
    if i < 0 then "" else base[i..]
  }

  function StemOf(base: string): string {
    var i := LastIndex(base, '.');
    if i < 0 then base else base[..i]
  }

  function Ext(path: string): string {
    ExtOf(Base(path))
  }

  // ---- the program's own naming ------------------------------------------------------

  function TmpPath(path: string): string {
    Join(Dir(path), MARKER + Base(path))
  }

  function FinalPath(cfg: Config, path: string): string {
    if cfg.replace then path
    else TrimSuffix(path, Ext(path)) + cfg.suffix + Ext(path)
  }

  predicate IsTemp(path: string) {
    MARKER <= Base(path) || HasSuffix(path, LEGACY)
  }

  predicate AllowsExt(cfg: Config, ext: string) {
    exists i :: 0 <= i < |cfg.exts| && Lower(ext) == Lower(cfg.exts[i])
  }

  predicate IsVideo(cfg: Config, path: string) {
    AllowsExt(cfg, Ext(path))
  }

  predicate IsOwnOutput(cfg: Config, path: string) {
    IsTemp(path) || Contains(TrimSuffix(Base(path), Ext(path)), cfg.suffix)
  }

  /** A clean path of a file: no empty or "." elements at its end. */
  predicate CleanFile(path: string) {
    var d := DirPart(path);
    Base(path) != "" && d != "./" && (|d| >= 2 ==> d[|d| - 2] != '/')
  }

  /** What the walks visit and the event loop schedules. */
  predicate Eligible(cfg: Config, path: string) {
    CleanFile(path) && IsVideo(cfg, path) && !IsOwnOutput(cfg, path)
  }

  /** The configuration names extensions, and the output suffix stays inside the file name. */
  predicate Sane(cfg: Config) {
    '/' !in cfg.suffix && forall i :: 0 <= i < |cfg.exts| ==> cfg.exts[i] != ""
  }

  // ---- splitting ---------------------------------------------------------------------

  /** path reads as directory, stem and extension, each piece being what its name says. */
  predicate Parts(path: string, d: string, stem: string, ext: string) {
    && path == d + (stem + ext)
    && (d == "" || d[|d| - 1] == '/')
    && '/' !in stem && '/' !in ext
    && (if ext == "" then '.' !in stem else ext[0] == '.' && '.' !in ext[1..])
  }

  lemma BaseIs(d: string, b: string)
    requires (d == "" || d[|d| - 1] == '/') && '/' !in b
    ensures DirPart(d + b) == d && Base(d + b) == b
  {
    if d != "" {
      assert (d + b)[|d|..] == b;
      LastIndexIs(d + b, '/', |d| - 1);
    } else {
      assert d + b == b;
    }
  }

  lemma ExtIs(stem: string, ext: string)
    requires if ext == "" then '.' !in stem else ext[0] == '.' && '.' !in ext[1..]
    ensures ExtOf(stem + ext) == ext && StemOf(stem + ext) == stem
  {
    if ext != "" {
      assert (stem + ext)[|stem| + 1..] == ext[1..];
      LastIndexIs(stem + ext, '.', |stem|);
    } else {
      assert stem + ext == stem;
    }
  }

  lemma Regroup(d: string, a: string, b: string, c: string)
    ensures d + a + b + c == d + (a + b + c)
  {
  }

  /** A path has these parts and no others. */
  lemma PartsUnique(path: string, d: string, stem: string, ext: string)
    requires Parts(path, d, stem, ext)
    ensures DirPart(path) == d && Base(path) == stem + ext
    ensures Ext(path) == ext && StemOf(Base(path)) == stem
  {
    BaseIs(d, stem + ext);
    ExtIs(stem, ext);
  }

  lemma PartsTrimmed(path: string, d: string, stem: string, ext: string)
    requires Parts(path, d, stem, ext)
    ensures TrimSuffix(stem + ext, ext) == stem && TrimSuffix(path, ext) == d + stem
  {
    TrimJoin(stem, ext);
    TrimJoin(d + stem, ext);
    assert path == d + stem + ext;
  }

  /** Being an output depends on the stem alone. */
  lemma OwnOutputOf(cfg: Config, path: string, d: string, stem: string, ext: string)
    requires Parts(path, d, stem, ext)
    ensures IsOwnOutput(cfg, path) <==> IsTemp(path) || Contains(stem, cfg.suffix)
  {
    PartsUnique(path, d, stem, ext);
    PartsTrimmed(path, d, stem, ext);
  }

  lemma PartsOf(path: string)
    ensures Parts(path, DirPart(path), StemOf(Base(path)), Ext(path))
  {
    var b := Base(path);
    assert path == DirPart(path) + b && '/' !in b;
    assert b == StemOf(b) + ExtOf(b);
  }

  // ---- where a worker writes -----------------------------------------------------------

  lemma JoinDir(d: string, path: string, name: string)
    requires d == DirPart(path) && CleanFile(path)
    ensures Join(Dir(path), name) == d + name
  {
    assert d != "" && d != "/" ==> d == d[..|d| - 1] + "/";
  }

  /** The temporary file sits beside its source, under the marked name. */
  lemma TmpBeside(path: string)
    requires CleanFile(path)
    ensures DirPart(TmpPath(path)) == DirPart(path) && Base(TmpPath(path)) == MARKER + Base(path)
    ensures TmpPath(path) == DirPart(path) + (".swp.dvstrip." + Base(path))
    ensures IsTemp(TmpPath(path))
  {
    JoinDir(DirPart(path), path, MARKER + Base(path));
    BaseIs(DirPart(path), MARKER + Base(path));
  }

  /** The published file sits beside its source; stem, suffix and extension stay apart. */
  lemma FinalParts(cfg: Config, path: string, d: string, stem: string, ext: string)
    requires Sane(cfg) && !cfg.replace && Parts(path, d, stem, ext) && ext != ""
    ensures FinalPath(cfg, path) == d + (stem + cfg.suffix + ext)
    ensures Parts(FinalPath(cfg, path), d, stem + cfg.suffix, ext)
  {
    PartsUnique(path, d, stem, ext);
    PartsTrimmed(path, d, stem, ext);
    Regroup(d, stem, cfg.suffix, ext);
  }

  /** Where a conversion ends up, in the parts of its source's path. */
  lemma FinalMeaning(cfg: Config, path: string, d: string, stem: string, ext: string)
    requires Parts(path, d, stem, ext)
    ensures FinalPath(cfg, path) == if cfg.replace then path else d + stem + cfg.suffix + ext
  {
    PartsUnique(path, d, stem, ext);
    PartsTrimmed(path, d, stem, ext);
  }

  /** Which files are taken up, in the parts of the path: a configured extension in any letter case,
      neither of the temporary schemes, and no output suffix anywhere in the stem. */
  lemma EligibleIff(cfg: Config, path: string, d: string, stem: string, ext: string)
    requires Parts(path, d, stem, ext) && CleanFile(path)
    ensures Eligible(cfg, path) <==>
      && (exists i :: 0 <= i < |cfg.exts| && SameText(ext, cfg.exts[i]))
      && !(".swp.dvstrip." <= stem + ext)
      && !(exists a: string :: path == a + ".dvstrip.tmp")
      && !(exists a: string, b: string :: stem == a + cfg.suffix + b)
  {
    PartsUnique(path, d, stem, ext);
    OwnOutputOf(cfg, path, d, stem, ext);
    ExtAllowedIff(cfg, ext);
    HasSuffixIff(path, LEGACY);
    ContainsIff(stem, cfg.suffix);
  }

  lemma ExtAllowedIff(cfg: Config, ext: string)
    ensures AllowsExt(cfg, ext) <==> exists i :: 0 <= i < |cfg.exts| && SameText(ext, cfg.exts[i])
  {
    forall i | 0 <= i < |cfg.exts| ensures Lower(ext) == Lower(cfg.exts[i]) <==> SameText(ext, cfg.exts[i]) {
      LowerIff(ext, cfg.exts[i]);
    }
  }

  /** The case of the extension decides nothing, except that the retired scheme is written in lower
      case only. */
  lemma ExtensionCase(cfg: Config, d: string, stem: string, ext: string, ext': string)
    requires Parts(d + (stem + ext), d, stem, ext) && Parts(d + (stem + ext'), d, stem, ext') && SameText(ext, ext')
    ensures IsVideo(cfg, d + (stem + ext)) <==> IsVideo(cfg, d + (stem + ext'))
    ensures !IsTemp(d + (stem + ext)) && !IsTemp(d + (stem + ext')) ==>
      (IsOwnOutput(cfg, d + (stem + ext)) <==> IsOwnOutput(cfg, d + (stem + ext')))
  {
    PartsUnique(d + (stem + ext), d, stem, ext);
    PartsUnique(d + (stem + ext'), d, stem, ext');
    LowerIff(ext, ext');
    OwnOutputOf(cfg, d + (stem + ext), d, stem, ext);
    OwnOutputOf(cfg, d + (stem + ext'), d, stem, ext');
  }

  lemma TmpInjective(p: string, q: string)
    requires CleanFile(p) && CleanFile(q) && TmpPath(p) == TmpPath(q)
    ensures p == q
  {
    TmpBeside(p);
    TmpBeside(q);
    assert p == DirPart(p) + Base(p) && q == DirPart(q) + Base(q);
    assert Base(p) == (MARKER + Base(p))[|MARKER|..];
    assert Base(q) == (MARKER + Base(q))[|MARKER|..];
  }

  lemma VideoHasExt(cfg: Config, path: string)
    requires Sane(cfg) && IsVideo(cfg, path)
    ensures Ext(path) != ""
  {
  }

  lemma SuffixedIsOwn(cfg: Config, f: string, d: string, stem: string, ext: string)
    requires Parts(f, d, stem + cfg.suffix, ext)
    ensures IsOwnOutput(cfg, f)
  {
    OwnOutputOf(cfg, f, d, stem + cfg.suffix, ext);
    assert OccursAt(stem + cfg.suffix, cfg.suffix, |stem|);
  }

  lemma SameExtVideo(cfg: Config, p: string, f: string)
    requires IsVideo(cfg, p) && Ext(f) == Ext(p)
    ensures IsVideo(cfg, f)
  {
  }

  /** A side-by-side output is a video file that is never taken up again. */
  lemma FinalNeverEligible(cfg: Config, path: string)
    requires Sane(cfg) && !cfg.replace && IsVideo(cfg, path)
    ensures IsVideo(cfg, FinalPath(cfg, path)) && IsOwnOutput(cfg, FinalPath(cfg, path))
  {
    VideoHasExt(cfg, path);
    PartsOf(path);
    var d, stem, ext := DirPart(path), StemOf(Base(path)), Ext(path);
    FinalParts(cfg, path, d, stem, ext);
    SuffixedIsOwn(cfg, FinalPath(cfg, path), d, stem, ext);
    PartsUnique(FinalPath(cfg, path), d, stem + cfg.suffix, ext);
    SameExtVideo(cfg, path, FinalPath(cfg, path));
  }

  lemma SameParts(f: string, suffix: string, d: string, s: string, e: string, d': string, s': string, e': string)
    requires Parts(f, d, s + suffix, e) && Parts(f, d', s' + suffix, e')
    ensures d == d' && s == s' && e == e'
  {
    PartsUnique(f, d, s + suffix, e);
    PartsUnique(f, d', s' + suffix, e');
    assert s == (s + suffix)[..|s|] && s' == (s' + suffix)[..|s'|];
  }

  lemma FinalInjective(cfg: Config, p: string, q: string)
    requires Sane(cfg) && IsVideo(cfg, p) && IsVideo(cfg, q) && FinalPath(cfg, p) == FinalPath(cfg, q)
    ensures p == q
  {
    if !cfg.replace {
      VideoHasExt(cfg, p);
      VideoHasExt(cfg, q);
      PartsOf(p);
      PartsOf(q);
      FinalParts(cfg, p, DirPart(p), StemOf(Base(p)), Ext(p));
      FinalParts(cfg, q, DirPart(q), StemOf(Base(q)), Ext(q));
      SameParts(FinalPath(cfg, p), cfg.suffix,
                DirPart(p), StemOf(Base(p)), Ext(p), DirPart(q), StemOf(Base(q)), Ext(q));
    }
  }

  // ---- which suffixes keep outputs and temporaries apart -------------------------------

  /** The suffix can complete a stem to the temporary marker: the rest of the marker from k on,
      the final dot being either the suffix's own or the extension's. */
  predicate CompletesMarker(suffix: string, k: int) {
    && 0 <= k <= 11
    && (MARKER[k..] <= suffix || suffix == MARKER[k..12])
    && !Contains(MARKER[..k], suffix)
  }

  /** The suffix can complete a stem to ".dvstrip", which before ".tmp" is the retired scheme. */
  predicate CompletesLegacy(suffix: string) {
    || HasSuffix(suffix, LEGACY[..8])
    || (1 <= |suffix| <= 7 && suffix == LEGACY[8 - |suffix|..8] && !Contains(LEGACY[..8 - |suffix|], suffix))
  }

  predicate SuffixCollides(cfg: Config) {
    || (exists k :: 0 <= k <= 11 && CompletesMarker(cfg.suffix, k))
    || (CompletesLegacy(cfg.suffix) && AllowsExt(cfg, LEGACY[8..]))
  }

  predicate ProperExt(ext: string) {
    |ext| >= 2 && ext[0] == '.' && '.' !in ext[1..] && '/' !in ext
  }

  lemma MarkerShort(suffix: string, stem: string, ext: string)
    requires ext != "" && ext[0] == '.' && MARKER <= stem + suffix + ext
    ensures |stem| >= 12 ==> MARKER <= stem + ext
  {
    var f := stem + suffix + ext;
    assert forall i :: 0 <= i < 13 ==> MARKER[i] == f[i];
    if |stem| >= 12 {
      assert forall i :: 0 <= i < |stem| ==> f[i] == stem[i] == (stem + ext)[i];
      assert (stem + ext)[|stem|] == '.';
      assert forall i :: 0 <= i < 13 ==> MARKER[i] == (stem + ext)[i];
    }
  }

  /** If adding the suffix turns a name into a marked one, the suffix is a colliding one. */
  lemma MarkerForward(suffix: string, stem: string, ext: string)
    requires ext != "" && ext[0] == '.' && '.' !in ext[1..]
    requires MARKER <= stem + suffix + ext && !(MARKER <= stem + ext) && !Contains(stem, suffix)
    ensures CompletesMarker(suffix, |stem|)
  {
    var f, n, m := stem + suffix + ext, |stem|, |stem| + |suffix|;
    MarkerShort(suffix, stem, ext);
    assert forall i :: 0 <= i < n ==> f[i] == stem[i];
    assert OccursAt(stem, "", 0);
    assert forall i :: 0 <= i < 13 ==> MARKER[i] == f[i];
    assert stem == MARKER[..n];
    assert forall i :: 0 <= i < |suffix| ==> f[n + i] == suffix[i];
    if m >= 13 {
      assert MARKER[n..] == suffix[..13 - n];
    } else {
      assert forall i :: 1 <= i < |ext| ==> f[m + i] == ext[i] && ext[i] == ext[1..][i - 1];
      assert f[12] == ext[12 - m];
      assert m == 12;
      assert suffix == MARKER[n..12];
    }
  }

  /** Conversely, for a colliding suffix the bare piece of the marker is such a name. */
  lemma MarkerBackward(suffix: string, k: int, ext: string)
    requires CompletesMarker(suffix, k) && ProperExt(ext)
    ensures MARKER <= MARKER[..k] + suffix + ext && !(MARKER <= MARKER[..k] + ext)
  {
    var stem := MARKER[..k];
    var f := stem + suffix + ext;
    if |stem + ext| >= 13 {
      assert (stem + ext)[12] == ext[1..][11 - k];
    }
    if MARKER[k..] <= suffix {
      assert forall i :: k <= i < 13 ==> MARKER[i] == MARKER[k..][i - k] == suffix[i - k] == f[i];
    } else {
      assert forall i :: k <= i < 12 ==> MARKER[i] == MARKER[k..12][i - k] == f[i];
      assert f[12] == ext[0];
    }
  }

  /** If adding the suffix makes a path end like a retired temporary, it completes ".dvstrip". */
  lemma LegacyForward(suffix: string, d: string, stem: string, ext: string)
    requires Parts(d + (stem + suffix + ext), d, stem + suffix, ext) && ext != ""
    requires HasSuffix(d + (stem + suffix + ext), LEGACY) && !Contains(stem, suffix)
    ensures CompletesLegacy(suffix) && ext == LEGACY[8..]
  {
    var h := d + (stem + suffix);
    Regroup(d, stem, suffix, ext);
    assert d + stem + suffix == h;
    LegacyExt(d + (stem + suffix + ext), h, ext);
    assert OccursAt(stem, "", 0);
    LegacyStem(suffix, d, stem);
    var w := 8 - |suffix|;
    if 0 < w {
      ContainsEnd(stem, LEGACY[..w], suffix);
    }
  }

  lemma LegacyStem(suffix: string, d: string, stem: string)
    requires HasSuffix(d + (stem + suffix), LEGACY[..8]) && suffix != ""
    requires d == "" || d[|d| - 1] == '/'
    ensures if |suffix| >= 8 then HasSuffix(suffix, LEGACY[..8])
            else suffix == LEGACY[8 - |suffix|..8] && HasSuffix(stem, LEGACY[..8 - |suffix|])
  {
    var h, n := d + (stem + suffix), |suffix|;
    assert forall i :: 0 <= i < 8 ==> h[|h| - 8 + i] == h[|h| - 8..][i] == LEGACY[..8][i] == LEGACY[i];
    assert forall i :: 0 <= i < n ==> h[|h| - n + i] == suffix[i];
    if n >= 8 {
      assert suffix[n - 8..] == LEGACY[..8];
    } else {
      assert suffix == LEGACY[8 - n..8];
      var w := 8 - n;
      assert forall i :: 0 <= i < |stem| ==> h[|d| + i] == stem[i];
      assert d != "" ==> h[|d| - 1] == '/';
      assert |stem| >= w;
      assert stem[|stem| - w..] == LEGACY[..w];
    }
  }

  lemma LegacyExt(f: string, h: string, ext: string)
    requires f == h + ext && ext != "" && ext[0] == '.' && '.' !in ext[1..] && HasSuffix(f, LEGACY)
    ensures ext == LEGACY[8..] && HasSuffix(h, LEGACY[..8])
  {
    assert f[|f| - 12..] == LEGACY;
    assert f[|f| - 4..] == LEGACY[8..];
    LastIndexIs(f, '.', |f| - 4);
    assert f[|h| + 1..] == ext[1..];
    LastIndexIs(f, '.', |h|);
    assert f[|h|..] == ext;
    assert forall i :: 0 <= i < 12 ==> f[|f| - 12 + i] == LEGACY[i];
    assert h[|h| - 8..] == LEGACY[..8];
  }

  /** Conversely, for a colliding suffix one file name is fit to be taken up and becomes a
      retired temporary by being published. */
  lemma LegacyBackward(cfg: Config, ext: string)
    requires CompletesLegacy(cfg.suffix) && ext == LEGACY[8..]
    ensures exists stem :: LegacyStemFor(cfg.suffix, stem)
  {
    var n := |cfg.suffix|;
    if HasSuffix(cfg.suffix, LEGACY[..8]) {
      var f := "m" + cfg.suffix + ext;
      assert cfg.suffix[n - 8..] == LEGACY[..8];
      assert forall i :: 0 <= i < 8 ==> f[|f| - 12 + i] == cfg.suffix[n - 8..][i] == LEGACY[..8][i];
      assert f[|f| - 12..] == LEGACY;
      assert LegacyStemFor(cfg.suffix, "m");
    } else {
      var stem := LEGACY[..8 - n];
      assert stem + cfg.suffix + ext == LEGACY;
      assert LegacyStemFor(cfg.suffix, stem);
    }
  }

  predicate LegacyStemFor(suffix: string, stem: string) {
    && 1 <= |stem| <= 7 && stem[0] in "m." && '/' !in stem
    && !Contains(stem, suffix) && HasSuffix(stem + suffix + LEGACY[8..], LEGACY)
  }

  /** A file in the working directory that the walks accept, and the name it publishes as. */
  lemma Exemplar(cfg: Config, stem: string, ext: string)
    requires Sane(cfg) && !cfg.replace && ProperExt(ext) && AllowsExt(cfg, ext)
    requires '/' !in stem && !Contains(stem, cfg.suffix)
    requires !(MARKER <= stem + ext) && !HasSuffix(stem + ext, LEGACY)
    ensures Eligible(cfg, stem + ext)
    ensures FinalPath(cfg, stem + ext) == stem + cfg.suffix + ext
    ensures Base(stem + cfg.suffix + ext) == stem + cfg.suffix + ext
  {
    var path, f := stem + ext, stem + cfg.suffix + ext;
    assert path == "" + (stem + ext) && f == "" + (stem + cfg.suffix + ext);
    PartsUnique(path, "", stem, ext);
    FinalParts(cfg, path, "", stem, ext);
    PartsUnique(f, "", stem + cfg.suffix, ext);
    OwnOutputOf(cfg, path, "", stem, ext);
  }

  lemma MarkerPieceEnd(k: int)
    requires 0 <= k <= 11
    ensures !HasSuffix(MARKER[..k], LEGACY[..8])
  {
    assert LEGACY[..8][0] == '.' && LEGACY[..8][1] == 'd';
    if k >= 8 {
      assert MARKER[..k][k - 8..][0] == MARKER[k - 8];
      assert MARKER[..k][k - 8..][1] == MARKER[k - 7];
    }
  }

  lemma MarkerPieceNotLegacy(k: int, ext: string)
    requires 0 <= k <= 11 && ProperExt(ext)
    ensures !HasSuffix(MARKER[..k] + ext, LEGACY)
  {
    MarkerPieceEnd(k);
    if HasSuffix(MARKER[..k] + ext, LEGACY) {
      LegacyExt(MARKER[..k] + ext, MARKER[..k], ext);
    }
  }

  lemma MarkerVictim(cfg: Config, k: int, ext: string)
    requires Sane(cfg) && !cfg.replace && ProperExt(ext) && AllowsExt(cfg, ext) && CompletesMarker(cfg.suffix, k)
    ensures Eligible(cfg, MARKER[..k] + ext) && IsTemp(FinalPath(cfg, MARKER[..k] + ext))
  {
    MarkerBackward(cfg.suffix, k, ext);
    MarkerPieceNotLegacy(k, ext);
    Exemplar(cfg, MARKER[..k], ext);
  }

  lemma LegacyVictim(cfg: Config, stem: string)
    requires Sane(cfg) && !cfg.replace && AllowsExt(cfg, LEGACY[8..]) && LegacyStemFor(cfg.suffix, stem)
    ensures Eligible(cfg, stem + LEGACY[8..]) && IsTemp(FinalPath(cfg, stem + LEGACY[8..]))
  {
    assert |stem + LEGACY[8..]| < 12;
    Exemplar(cfg, stem, LEGACY[8..]);
  }

  lemma CollidingHasVictim(cfg: Config, ext: string) returns (q: string)
    requires Sane(cfg) && !cfg.replace && ProperExt(ext) && AllowsExt(cfg, ext) && SuffixCollides(cfg)
    ensures Eligible(cfg, q) && IsTemp(FinalPath(cfg, q))
  {
    if k :| 0 <= k <= 11 && CompletesMarker(cfg.suffix, k) {
      MarkerVictim(cfg, k, ext);
      q := MARKER[..k] + ext;
    } else {
      LegacyBackward(cfg, LEGACY[8..]);
      var stem :| LegacyStemFor(cfg.suffix, stem);
      LegacyVictim(cfg, stem);
      q := stem + LEGACY[8..];
    }
  }

  /** For example: with the suffix ".dvstrip.x" the film ".swp.mkv" would be published under a
      temporary's name. */
  lemma CollidingSuffixExample(cfg: Config)
    requires cfg.suffix == ".dvstrip.x" && !cfg.replace && Sane(cfg) && AllowsExt(cfg, ".mkv")
    ensures SuffixCollides(cfg)
    ensures Eligible(cfg, ".swp" + ".mkv") && IsTemp(FinalPath(cfg, ".swp" + ".mkv"))
  {
    assert MARKER[4..] <= cfg.suffix && MARKER[..4] == ".swp";
    assert !Contains(".swp", cfg.suffix);
    assert CompletesMarker(cfg.suffix, 4);
    MarkerVictim(cfg, 4, ".mkv");
  }

  lemma TempByParts(f: string, d: string, stem: string, ext: string)
    requires Parts(f, d, stem, ext)
    ensures IsTemp(f) <==> MARKER <= stem + ext || HasSuffix(d + (stem + ext), LEGACY)
  {
    PartsUnique(f, d, stem, ext);
  }

  lemma CollidesByParts(cfg: Config, d: string, stem: string, ext: string)
    requires Parts(d + (stem + cfg.suffix + ext), d, stem + cfg.suffix, ext) && ext != "" && AllowsExt(cfg, ext)
    requires !(MARKER <= stem + ext) && !Contains(stem, cfg.suffix)
    requires MARKER <= stem + cfg.suffix + ext || HasSuffix(d + (stem + cfg.suffix + ext), LEGACY)
    ensures SuffixCollides(cfg)
  {
    if MARKER <= stem + cfg.suffix + ext {
      MarkerForward(cfg.suffix, stem, ext);
    } else {
      LegacyForward(cfg.suffix, d, stem, ext);
    }
  }

  lemma FinalTempOnlyIf(cfg: Config, q: string)
    requires Sane(cfg) && !cfg.replace && Eligible(cfg, q) && IsTemp(FinalPath(cfg, q))
    ensures SuffixCollides(cfg)
  {
    VideoHasExt(cfg, q);
    PartsOf(q);
    var d, stem, ext := DirPart(q), StemOf(Base(q)), Ext(q);
    OwnOutputOf(cfg, q, d, stem, ext);
    TempByParts(q, d, stem, ext);
    FinalParts(cfg, q, d, stem, ext);
    TempByParts(FinalPath(cfg, q), d, stem + cfg.suffix, ext);
    CollidesByParts(cfg, d, stem, ext);
  }

  /** Side-by-side outputs never pass for temporary files, which sweeps delete, exactly when the
      suffix does not collide with either temporary scheme. */
  lemma FinalsNeverTempIff(cfg: Config, ext: string)
    requires Sane(cfg) && !cfg.replace && ProperExt(ext) && AllowsExt(cfg, ext)
    ensures (forall q | Eligible(cfg, q) :: !IsTemp(FinalPath(cfg, q))) <==> !SuffixCollides(cfg)
  {
    if SuffixCollides(cfg) {
      var q := CollidingHasVictim(cfg, ext);
    } else {
      forall q | Eligible(cfg, q) ensures !IsTemp(FinalPath(cfg, q)) {
        if IsTemp(FinalPath(cfg, q)) {
          FinalTempOnlyIf(cfg, q);
        }
      }
    }
  }

  lemma DefaultSuffixSafe(cfg: Config)
    requires cfg.suffix == ".hdr10"
    ensures !SuffixCollides(cfg)
  {
    forall k | 0 <= k <= 11 ensures !CompletesMarker(cfg.suffix, k) {
      assert |MARKER[k..]| == 13 - k && MARKER[k..][0] == MARKER[k];
      assert |MARKER[k..12]| == 12 - k;
      if k == 6 {
        assert MARKER[k..12][0] == 'v';
      }
    }
    assert LEGACY[2..8][0] == 'v';
  }

  // ---- workers on different files ------------------------------------------------------

  ghost predicate OutputsStayApart(cfg: Config) {
    cfg.replace || !SuffixCollides(cfg)
  }

  /** Whatever p's worker writes, renames or removes is none of q's source, temporary or output. */
  lemma NonInterference(cfg: Config, p: string, q: string)
    requires Sane(cfg) && OutputsStayApart(cfg)
    requires Eligible(cfg, p) && Eligible(cfg, q) && p != q
    ensures {TmpPath(p), FinalPath(cfg, p)} !! {q, TmpPath(q), FinalPath(cfg, q)}
  {
    TmpNotOther(cfg, p, q);
    FinalNotOther(cfg, p, q);
  }

  lemma TmpNotOther(cfg: Config, p: string, q: string)
    requires Sane(cfg) && OutputsStayApart(cfg) && Eligible(cfg, p) && Eligible(cfg, q) && p != q
    ensures TmpPath(p) !in {q, TmpPath(q), FinalPath(cfg, q)}
  {
    TmpBeside(p);
    FinalNotTemp(cfg, q);
    if TmpPath(p) == TmpPath(q) {
      TmpInjective(p, q);
    }
  }

  lemma FinalNotTemp(cfg: Config, p: string)
    requires Sane(cfg) && OutputsStayApart(cfg) && Eligible(cfg, p)
    ensures !IsTemp(FinalPath(cfg, p))
  {
    if !cfg.replace && IsTemp(FinalPath(cfg, p)) {
      FinalTempOnlyIf(cfg, p);
    }
  }

  lemma FinalNotOther(cfg: Config, p: string, q: string)
    requires Sane(cfg) && OutputsStayApart(cfg) && Eligible(cfg, p) && Eligible(cfg, q) && p != q
    ensures FinalPath(cfg, p) !in {q, TmpPath(q), FinalPath(cfg, q)}
  {
    FinalNotTemp(cfg, p);
    TmpBeside(q);
    if !cfg.replace {
      FinalNeverEligible(cfg, p);
    }
    if FinalPath(cfg, p) == FinalPath(cfg, q) {
      FinalInjective(cfg, p, q);
    }
  }

  /** A plain name with an allowed extension is taken up, whenever the suffix begins with a dot. */
  lemma PlainNameEligible(cfg: Config, stem: string, ext: string)
    requires cfg.suffix != "" && cfg.suffix[0] == '.' && AllowsExt(cfg, ext) && ProperExt(ext)
    requires stem != "" && '.' !in stem && '/' !in stem
    ensures Eligible(cfg, stem + ext)
  {
    var path := stem + ext;
    assert path == "" + (stem + ext);
    PartsUnique(path, "", stem, ext);
    OwnOutputOf(cfg, path, "", stem, ext);
    DotNotContained(stem, cfg.suffix);
    assert path[0] == stem[0];
    assert LEGACY[..8][0] == '.';
    assert |stem| >= 8 ==> stem[|stem| - 8..][0] == stem[|stem| - 8];
    if HasSuffix(path, LEGACY) {
      LegacyExt(path, stem, ext);
    }
  }

  lemma DotNotContained(s: string, t: string)
    requires '.' !in s && t != "" && t[0] == '.'
    ensures !Contains(s, t)
  {
    forall i | 0 <= i <= |s| ensures !OccursAt(s, t, i) {
      if i + |t| <= |s| {
        assert s[i..i + |t|][0] == s[i];
      }
    }
  }

  const DEFAULTS := Config(".hdr10", false, [".mkv", ".mp4", ".ts", ".m2ts"])

  lemma DefaultsAreSane(cfg: Config)
    requires cfg.suffix == DEFAULTS.suffix && cfg.exts == DEFAULTS.exts
    ensures Sane(cfg) && OutputsStayApart(cfg) && cfg.suffix[0] == '.'
    ensures forall i :: 0 <= i < |cfg.exts| ==> ProperExt(cfg.exts[i])
  {
    DefaultSuffixSafe(cfg);
  }

  /** The default configuration, in either mode, is one all this applies to. */
  lemma DefaultsApply(cfg: Config, stem: string, ext: string)
    requires cfg.suffix == DEFAULTS.suffix && cfg.exts == DEFAULTS.exts && ext in cfg.exts
    requires stem != "" && '.' !in stem && '/' !in stem
    ensures Sane(cfg) && OutputsStayApart(cfg) && Eligible(cfg, stem + ext)
  {
    DefaultsAreSane(cfg);
    PlainNameEligible(cfg, stem, ext);
  }
}
