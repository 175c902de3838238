/** What a probe says about a file, how it is read off ffprobe's report, and the checks a
    conversion's result must pass. */
module Probe {
  import opened Text
  import opened Options

  const KEY := "dvstrip"
  const COMMENT := "comment"
  const DOVI := "dovi configuration record"
  const PLUS := "hdr10+"

  datatype SideData = SideData(kind: string, profile: int, compat: int)

  datatype Stream = Stream(codec: string, width: int, height: int, pixFmt: string, transfer: string,
                           primaries: string, frameRate: string, sideData: seq<SideData>)

  datatype Report = Report(streams: seq<Stream>, tags: map<string, string>)

  datatype Info = Info(codec: string, width: int, height: int, pixFmt: string, transfer: string,
                       primaries: string, frameRate: string, hasDV: bool, dvProfile: int, dvCompat: int,
                       hasHDR10Plus: bool, processed: bool, note: string)

  datatype Parsed = Parsed(info: Info) | Undecodable | NoVideoStream

  // ---- reading a report --------------------------------------------------------------

  /** The Dolby Vision entry, in any letter case. */
  predicate IsDovi(sd: SideData) {
    SameText(sd.kind, "dovi configuration record")
  }

  /** An entry that names HDR10+, in any letter case. */
  predicate IsPlus(sd: SideData) {
    Mentions(sd.kind, "hdr10+")
  }

  /** The marker tag, or a comment that mentions it, in any letter case. */
  predicate Marks(key: string, value: string) {
    SameText(key, "dvstrip") || (SameText(key, "comment") && Mentions(value, "dvstrip"))
  }

  predicate MarksAt(tags: map<string, string>, key: string) {
    key in tags && Marks(key, tags[key])
  }

  /** Entry i is the last Dolby Vision configuration record of the list. */
  ghost predicate LastDovi(list: seq<SideData>, i: int) {
    0 <= i < |list| && IsDovi(list[i]) && forall j :: i < j < |list| ==> !IsDovi(list[j])
  }

  /** The Dolby Vision and HDR10+ fields say what the side data list says. */
  ghost predicate SideDataRead(list: seq<SideData>, info: Info) {
    && (info.hasDV <==> exists i :: 0 <= i < |list| && IsDovi(list[i]))
    && (!info.hasDV ==> info.dvProfile == 0 && info.dvCompat == 0)
    && (forall i :: LastDovi(list, i) ==> info.dvProfile == list[i].profile && info.dvCompat == list[i].compat)
    && (info.hasHDR10Plus <==> exists i :: 0 <= i < |list| && IsPlus(list[i]))
  }

  /** The marker fields say what the tags with the given keys say. */
  ghost predicate TagsRead(tags: map<string, string>, keys: set<string>, info: Info)
    requires keys <= tags.Keys
  {
    && (info.processed <==> exists k :: k in keys && MarksAt(tags, k))
    && (info.processed ==> exists k :: k in keys && MarksAt(tags, k) && info.note == tags[k])
    && (!info.processed ==> info.note == "")
  }

  predicate Copied(s: Stream, info: Info) {
    && info.codec == s.codec && info.width == s.width && info.height == s.height
    && info.pixFmt == s.pixFmt && info.transfer == s.transfer && info.primaries == s.primaries
    && info.frameRate == s.frameRate
  }

  ghost predicate Describes(p: Report, info: Info)
    requires p.streams != []
  {
    Copied(p.streams[0], info) && SideDataRead(p.streams[0].sideData, info) && TagsRead(p.tags, p.tags.Keys, info)
  }

  /** What the program compares, lower-cased, is what is meant. */
  lemma KindsRead(sd: SideData)
    ensures Lower(sd.kind) == DOVI <==> IsDovi(sd)
    ensures Contains(Lower(sd.kind), PLUS) <==> IsPlus(sd)
  {
    LowerIs(sd.kind, DOVI);
    LowerContains(sd.kind, PLUS);
  }

  lemma TagsCompared(key: string, value: string)
    ensures Lower(key) == KEY || (Lower(key) == COMMENT && Contains(Lower(value), KEY)) <==> Marks(key, value)
  {
    LowerIs(key, KEY);
    LowerIs(key, COMMENT);
    LowerContains(value, KEY);
  }

  lemma DoviIsNotPlus(sd: SideData)
    ensures !(IsDovi(sd) && IsPlus(sd))
  {
    KindsRead(sd);
    forall i | 0 <= i <= |DOVI| ensures !OccursAt(DOVI, PLUS, i) {
      if i + 6 <= |DOVI| {
        assert DOVI[i..i + 6][5] == DOVI[i + 5];
      }
    }
  }

  /** The names ffprobe prints are recognised. */
  lemma PrintedDoviRecognised(profile: int, compat: int)
    ensures IsDovi(SideData("DOVI configuration record", profile, compat))
  {
  }

  lemma PrintedPlusRecognised(profile: int, compat: int)
    ensures IsPlus(SideData("HDR10+ Metadata", profile, compat))
  {
    var name := "HDR10+ Metadata";
    assert name[0..6] == "HDR10+";
    assert MentionedAt(name, "hdr10+", 0);
  }

  /** The marker tag counts as Matroska keeps it and as others write it; other tags do not count. */
  lemma PrintedTagsRecognised(value: string)
    ensures Marks("dvstrip", value) && Marks("DVSTRIP", value)
    ensures !Marks("title", value) && !Marks("comment", "x265")
  {
    assert |"x265"| < |"dvstrip"|;
  }

  method ReadSideData(list: seq<SideData>, start: Info) returns (info: Info)
    requires !start.hasDV && start.dvProfile == 0 && start.dvCompat == 0 && !start.hasHDR10Plus
    ensures SideDataRead(list, info)
    ensures info == start.(hasDV := info.hasDV, dvProfile := info.dvProfile, dvCompat := info.dvCompat,
                           hasHDR10Plus := info.hasHDR10Plus)
  {
    info := start;
    for i := 0 to |list|
      invariant SideDataRead(list[..i], info)
      invariant info == start.(hasDV := info.hasDV, dvProfile := info.dvProfile, dvCompat := info.dvCompat,
                               hasHDR10Plus := info.hasHDR10Plus)
    {
      var sd := list[i];
      ghost var was := info;
      var t := Lower(sd.kind);
      DoviIsNotPlus(sd);
      KindsRead(sd);
      if t == DOVI {
        info := info.(hasDV := true, dvProfile := sd.profile, dvCompat := sd.compat);
      } else if Contains(t, PLUS) {
        info := info.(hasHDR10Plus := true);
      }
      SideDataNext(list[..i], sd, was, info);
      assert list[..i] + [sd] == list[..i + 1];
    }
    assert list[..|list|] == list;
  }

  lemma SideDataNext(list: seq<SideData>, sd: SideData, was: Info, info: Info)
    requires SideDataRead(list, was)
    requires info.hasDV == (was.hasDV || IsDovi(sd)) && info.hasHDR10Plus == (was.hasHDR10Plus || IsPlus(sd))
    requires if IsDovi(sd) then info.dvProfile == sd.profile && info.dvCompat == sd.compat
             else info.dvProfile == was.dvProfile && info.dvCompat == was.dvCompat
    ensures SideDataRead(list + [sd], info)
  {
    var longer := list + [sd];
    assert longer[|list|] == sd;
    assert forall i :: 0 <= i < |list| ==> longer[i] == list[i];
    forall i | LastDovi(longer, i) ensures info.dvProfile == longer[i].profile && info.dvCompat == longer[i].compat {
      if !IsDovi(sd) {
        assert LastDovi(list, i);
      } else {
        assert i == |list|;
      }
    }
  }

  /** The tags come in any order; with several marking tags the note is one of theirs. */
  method ReadTags(tags: map<string, string>, start: Info) returns (info: Info)
    requires !start.processed && start.note == ""
    ensures TagsRead(tags, tags.Keys, info)
    ensures info == start.(processed := info.processed, note := info.note)
  {
    info := start;
    var todo := tags.Keys;
    while todo != {}
      invariant todo <= tags.Keys
      invariant TagsRead(tags, tags.Keys - todo, info)
      invariant info == start.(processed := info.processed, note := info.note)
      decreases todo
    {
      var k :| k in todo;
      var v := tags[k];
      ghost var seen := tags.Keys - todo;
      todo := todo - {k};
      TagsCompared(k, v);
      if Lower(k) == KEY || (Lower(k) == COMMENT && Contains(Lower(v), KEY)) {
        info := info.(processed := true, note := v);
      }
      assert tags.Keys - todo == seen + {k};
    }
    assert tags.Keys - todo == tags.Keys;
  }

  /** Parse, after JSON decoding. */
  method Parse(raw: Option<Report>) returns (r: Parsed)
    ensures raw.None? ==> r == Undecodable
    ensures raw.Some? && raw.value.streams == [] ==> r == NoVideoStream
    ensures raw.Some? && raw.value.streams != [] ==> r.Parsed? && Describes(raw.value, r.info)
  {
    if raw.None? {
      return Undecodable;
    }
    if raw.value.streams == [] {
      return NoVideoStream;
    }
    var s := raw.value.streams[0];
    var info := Info(s.codec, s.width, s.height, s.pixFmt, s.transfer, s.primaries, s.frameRate,
                     false, 0, 0, false, false, "");
    info := ReadSideData(s.sideData, info);
    info := ReadTags(raw.value.tags, info);
    return Parsed(info);
  }

  /** Containers may change the case of tag keys and values: recognition does not depend on it. */
  lemma CaseDoesNotMatter(p: Report, q: Report, a: Info, b: Info)
    requires p.streams != [] && q.streams != [] && Describes(p, a) && Describes(q, b)
    requires forall k :: k in p.tags ==>
      exists k' :: k' in q.tags && SameText(k', k) && SameText(q.tags[k'], p.tags[k])
    ensures a.processed ==> b.processed
  {
    if a.processed {
      var k :| k in p.tags.Keys && MarksAt(p.tags, k);
      var k' :| k' in q.tags && SameText(k', k) && SameText(q.tags[k'], p.tags[k]);
      LowerIff(k', k);
      LowerIff(q.tags[k'], p.tags[k]);
      TagsCompared(k, p.tags[k]);
      TagsCompared(k', q.tags[k']);
      assert MarksAt(q.tags, k');
    }
  }

  /** Two readings of one report agree on everything but which marking tag is quoted. */
  lemma ReadingIsDetermined(p: Report, a: Info, b: Info)
    requires p.streams != [] && Describes(p, a) && Describes(p, b)
    ensures a == b.(note := a.note)
  {
    var list := p.streams[0].sideData;
    if a.hasDV {
      var i :| 0 <= i < |list| && IsDovi(list[i]);
      var last := FindLastDovi(list, i);
    }
  }

  lemma {:induction false} FindLastDovi(list: seq<SideData>, i: nat) returns (last: nat)
    requires i < |list| && IsDovi(list[i])
    ensures LastDovi(list, last)
    decreases |list| - i
  {
    if j :| i < j < |list| && IsDovi(list[j]) {
      last := FindLastDovi(list, j);
    } else {
      last := i;
    }
  }

  // ---- classification ----------------------------------------------------------------

  predicate Is4K(i: Info) {
    i.width >= 3840
  }

  predicate IsHDR10(i: Info) {
    i.transfer == "smpte2084" && i.primaries == "bt2020"
  }

  predicate IsDVP5(i: Info) {
    i.hasDV && i.dvProfile == 5
  }

  predicate IsAV1(i: Info) {
    i.codec == "av1"
  }

  predicate DVHDR10Compatible(i: Info) {
    i.dvCompat == 1 || i.dvCompat == 6
  }

  predicate StripSupported(i: Info) {
    i.codec == "hevc" || i.codec == "av1"
  }

  datatype Action = SkipMarked | SkipNot4K | SkipNotHDR10 | NoAction | StripDV | ConvertP5 | Manual

  function ActionOf(i: Info): Action {
    if i.processed then SkipMarked
    else if !Is4K(i) then SkipNot4K
    else if IsDVP5(i) then ConvertP5
    else if !IsHDR10(i) then SkipNotHDR10
    else if !i.hasDV then NoAction
    else if DVHDR10Compatible(i) then StripDV
    else Manual
  }

  // ---- verification of a result ------------------------------------------------------

  datatype Verification = Verified | WidthChanged | StillDV | LostHDR10Plus | MarkerMissing

  function VerifyOutput(src: Info, out: Info): Verification {
    if out.width != src.width then WidthChanged
    else if out.hasDV then StillDV
    else if src.hasHDR10Plus && !out.hasHDR10Plus then LostHDR10Plus
    else if !out.processed then MarkerMissing
    else Verified
  }

  /** The result of converting src may take its place: same width, no Dolby Vision, the marker, and
      HDR10+ if the source had it. */
  predicate Faithful(src: Info, out: Info) {
    out.width == src.width && !out.hasDV && out.processed && (src.hasHDR10Plus ==> out.hasHDR10Plus)
  }

  /** Verification passes exactly such results, and otherwise names the first thing wrong. */
  lemma VerifyIff(src: Info, out: Info)
    ensures VerifyOutput(src, out) == Verified <==> Faithful(src, out)
    ensures VerifyOutput(src, out) == WidthChanged <==> out.width != src.width
    ensures VerifyOutput(src, out) == StillDV <==> out.width == src.width && out.hasDV
    ensures VerifyOutput(src, out) == LostHDR10Plus <==>
      out.width == src.width && !out.hasDV && src.hasHDR10Plus && !out.hasHDR10Plus
    ensures VerifyOutput(src, out) == MarkerMissing <==>
      out.width == src.width && !out.hasDV && (src.hasHDR10Plus ==> out.hasHDR10Plus) && !out.processed
  {
  }
}
