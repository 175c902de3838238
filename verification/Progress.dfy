/** The progress stream of a conversion: which lines carry a byte count, what the reading loop
    reports of them, and what that does to the space ledger. */
module Progress {
  import opened Options
  import opened Sums
  import opened SpaceLedger
  import opened SpaceGuards

  const TOTAL_SIZE := "total_size"

  // ---- one line ------------------------------------------------------------------------

  predicate IsSpace(c: char) {
    || '\t' <= c <= '\r' || c in " \U{85}\U{A0}\U{1680}\U{2028}\U{2029}\U{202F}\U{205F}\U{3000}"
    || '\U{2000}' <= c <= '\U{200A}'
  }

  function TrimLeft(s: string): string {
    if s != "" && IsSpace(s[0]) then TrimLeft(s[1..]) else s
  }

  function TrimRight(s: string): string {
    if s != "" && IsSpace(s[|s| - 1]) then TrimRight(s[..|s| - 1]) else s
  }

  function TrimSpace(s: string): string {
    TrimRight(TrimLeft(s))
  }

  predicate IsDigit(c: char) {
    '0' <= c <= '9'
  }

  predicate Digits(s: string) {
    s != "" && forall i :: 0 <= i < |s| ==> IsDigit(s[i])
  }

  function Magnitude(s: string): nat
    requires s == "" || Digits(s)
  {
    if s == "" then 0
    else
      assert IsDigit(s[|s| - 1]);
      10 * Magnitude(s[..|s| - 1]) + (s[|s| - 1] as int - '0' as int)
  }

  predicate FitsInt64(n: int) {
    -0x8000_0000_0000_0000 <= n < 0x8000_0000_0000_0000
  }

  /** A decimal integer with an optional sign, if it fits 64 bits. */
  function ParseInt(s: string): Option<int> {
    var negative := s != "" && s[0] == '-';
    var digits := if s != "" && s[0] in "+-" then s[1..] else s;
    if !Digits(digits) then None
    else
      var m: int := Magnitude(digits);
      var n := if negative then -m else m;
      if FitsInt64(n) then Some(n) else None
  }

  /** The text before and after the first '=', if there is one. */
  function Cut(line: string): Option<(string, string)>
  {
    if line == "" then None
    else if line[0] == '=' then Some(("", line[1..]))
    else match Cut(line[1..])
      case None => None
      case Some((k, v)) => Some(([line[0]] + k, v))
  }

  function ParseProgress(line: string): Option<int> {
    match Cut(line)
    case None => None
    case Some((k, v)) => if k != TOTAL_SIZE then None else ParseInt(TrimSpace(v))
  }

  function Decimal(n: nat): string {
    if n < 10 then [('0' as int + n) as char] else Decimal(n / 10) + [('0' as int + n % 10) as char]
  }

  lemma {:induction false} DecimalReads(n: nat)
    ensures Digits(Decimal(n)) && Magnitude(Decimal(n)) == n
  {
    if n < 10 {
      assert Decimal(n)[..0] == "";
    } else {
      DecimalReads(n / 10);
      assert Decimal(n)[..|Decimal(n)| - 1] == Decimal(n / 10);
    }
  }

  lemma {:induction false} CutAtKey(k: string, v: string)
    requires '=' !in k
    ensures Cut(k + "=" + v) == Some((k, v))
  {
    var line := k + "=" + v;
    if k == "" {
      assert line[1..] == v;
    } else {
      assert line[1..] == k[1..] + "=" + v;
      CutAtKey(k[1..], v);
      assert k == [k[0]] + k[1..];
    }
  }

  lemma {:induction false} CutJoins(line: string)
    requires Cut(line).Some?
    ensures var (k, v) := Cut(line).value; line == k + "=" + v && '=' !in k
  {
    if line[0] != '=' {
      CutJoins(line[1..]);
      assert line == [line[0]] + line[1..];
    }
  }

  predicate Blank(s: string) {
    forall i :: 0 <= i < |s| ==> IsSpace(s[i])
  }

  lemma {:induction false} TrimLeftBlank(a: string, s: string)
    requires Blank(a) && (s != "" ==> !IsSpace(s[0]))
    ensures TrimLeft(a + s) == s
  {
    if a == "" {
      assert a + s == s;
    } else {
      assert (a + s)[1..] == a[1..] + s;
      TrimLeftBlank(a[1..], s);
    }
  }

  lemma {:induction false} TrimRightBlank(s: string, b: string)
    requires Blank(b) && (s != "" ==> !IsSpace(s[|s| - 1]))
    ensures TrimRight(s + b) == s
  {
    if b == "" {
      assert s + b == s;
    } else {
      assert (s + b)[..|s + b| - 1] == s + b[..|b| - 1];
      TrimRightBlank(s, b[..|b| - 1]);
    }
  }

  lemma TrimBlanks(before: string, s: string, after: string)
    requires Blank(before) && Blank(after) && s != "" && !IsSpace(s[0]) && !IsSpace(s[|s| - 1])
    ensures TrimSpace(before + s + after) == s
  {
    assert before + s + after == before + (s + after);
    TrimLeftBlank(before, s + after);
    TrimRightBlank(s, after);
  }

  /** Decimal notation, digit by digit. */
  lemma DecimalDigits(n: nat)
    ensures n < 10 ==> Decimal(n) == ["0123456789"[n]]
    ensures n >= 10 ==> Decimal(n) == Decimal(n / 10) + ["0123456789"[n % 10]]
  {
    DigitChar(n % 10);
  }

  lemma DigitChar(d: nat)
    requires d < 10
    ensures "0123456789"[d] == ('0' as int + d) as char
  {
  }

  /** A number written out is read as that number if it fits 64 bits. */
  lemma ParseIntDecimal(n: nat)
    ensures ParseInt(Decimal(n)) == (if n <= 9223372036854775807 then Some(n as int) else None)
    ensures Digits(Decimal(n))
  {
    DecimalReads(n);
    assert IsDigit(Decimal(n)[0]);
  }

  /** So it is with a sign. */
  lemma ParseIntSigned(n: nat)
    ensures ParseInt(['+'] + Decimal(n)) == (if n <= 9223372036854775807 then Some(n as int) else None)
    ensures ParseInt(['-'] + Decimal(n)) == (if n <= 9223372036854775808 then Some(-(n as int)) else None)
  {
    DecimalReads(n);
    ParseSign('+', Decimal(n), n);
    ParseSign('-', Decimal(n), n);
  }

  lemma ParseSign(sign: char, d: string, m: int)
    requires sign in "+-" && Digits(d) && Magnitude(d) == m
    ensures var n := if sign == '-' then -m else m;
      ParseInt([sign] + d) == if FitsInt64(n) then Some(n) else None
  {
    assert ([sign] + d)[1..] == d;
  }

  /** White space in the sense of ASCII is trimmed. */
  lemma WhiteIsBlank(s: string)
    requires forall i :: 0 <= i < |s| ==> s[i] in " \t\n\r\U{B}\U{C}"
    ensures Blank(s)
  {
  }

  /** A byte count printed as total_size, whatever blanks surround it, is read back exactly if it
      fits 64 bits, and ignored if it does not. */
  lemma ProgressRoundTrip(n: nat, before: string, after: string)
    requires Blank(before) && Blank(after)
    ensures ParseProgress("total_size=" + (before + Decimal(n) + after))
         == if n <= 9223372036854775807 then Some(n as int) else None
  {
    var d := Decimal(n);
    ParseIntDecimal(n);
    assert IsDigit(d[0]) && IsDigit(d[|d| - 1]);
    TrimBlanks(before, d, after);
    CutAtKey(TOTAL_SIZE, before + d + after);
    assert "total_size=" == TOTAL_SIZE + "=";
  }

  /** Nothing but a total_size line with a 64-bit number is ever taken for a byte count. */
  lemma OnlyTotalSizeParses(line: string)
    requires ParseProgress(line).Some?
    ensures "total_size=" <= line
    ensures -9223372036854775808 <= ParseProgress(line).value <= 9223372036854775807
  {
    CutJoins(line);
    assert "total_size=" == TOTAL_SIZE + "=";
  }

  // ---- the whole stream ----------------------------------------------------------------

  /** The byte counts a stream carries, in order. */
  function Sizes(lines: seq<string>): seq<int> {
    if lines == [] then []
    else
      var rest := Sizes(lines[..|lines| - 1]);
      var p := ParseProgress(lines[|lines| - 1]);
      if p.Some? then rest + [p.value] else rest
  }

  function Last(sizes: seq<int>): int {
    if sizes == [] then 0 else sizes[|sizes| - 1]
  }

  /** The sum of the positive increments, counted from 0. */
  function Reported(sizes: seq<int>): nat {
    if sizes == [] then 0
    else
      var before := sizes[..|sizes| - 1];
      var step := Last(sizes) - Last(before);
      Reported(before) + if step > 0 then step else 0
  }

  predicate NonDecreasing(sizes: seq<int>) {
    && (sizes != [] ==> 0 <= sizes[0])
    && forall i :: 0 <= i < |sizes| - 1 ==> sizes[i] <= sizes[i + 1]
  }

  /** The reports never fall short of the last size, and telescope to it exactly when the sizes
      never decrease. */
  lemma {:induction false} ReportsTelescope(sizes: seq<int>)
    ensures Reported(sizes) >= Last(sizes)
    ensures Reported(sizes) == Last(sizes) <==> NonDecreasing(sizes)
  {
    if sizes != [] {
      var before := sizes[..|sizes| - 1];
      ReportsTelescope(before);
      assert before != [] ==> sizes[0] == before[0] && Last(before) == sizes[|sizes| - 2];
      assert NonDecreasing(sizes) ==> NonDecreasing(before) && Last(before) <= Last(sizes);
      assert NonDecreasing(before) && Last(before) <= Last(sizes) ==> NonDecreasing(sizes) by {
        assert forall i :: 0 <= i < |before| ==> sizes[i] == before[i];
      }
    }
  }

  lemma SizesNext(lines: seq<string>, i: nat)
    requires i < |lines|
    ensures var p := ParseProgress(lines[i]);
      Sizes(lines[..i + 1]) == if p.Some? then Sizes(lines[..i]) + [p.value] else Sizes(lines[..i])
  {
    assert lines[..i + 1][..i] == lines[..i];
  }

  lemma ReportedNext(sizes: seq<int>, n: int)
    ensures Last(sizes + [n]) == n
    ensures Reported(sizes + [n]) == Reported(sizes) + if n > Last(sizes) then n - Last(sizes) else 0
  {
    assert (sizes + [n])[..|sizes|] == sizes;
  }

  /** A printed byte count adds itself to what a stream carries, any line of another key nothing. */
  lemma PrintedSize(lines: seq<string>, n: nat)
    requires n <= 9223372036854775807
    ensures Sizes(lines + ["total_size=" + Decimal(n)]) == Sizes(lines) + [n as int]
  {
    ProgressRoundTrip(n, "", "");
    assert "" + Decimal(n) + "" == Decimal(n);
    var longer := lines + ["total_size=" + Decimal(n)];
    assert longer[..|longer| - 1] == lines;
  }

  lemma OtherLine(lines: seq<string>, line: string)
    requires !("total_size=" <= line)
    ensures Sizes(lines + [line]) == Sizes(lines)
  {
    if ParseProgress(line).Some? {
      OnlyTotalSizeParses(line);
    }
    assert (lines + [line])[..|lines|] == lines;
  }

  // ---- reports and the ledger ------------------------------------------------------------

  lemma ShrinksToNothing(s: Slice, dir: string)
    requires NonNegative(s.rem)
    ensures ShrinksTo(s, s, dir, 0)
  {
    DirTotalBound(s.rem, dir);
  }

  /** Two reports take together what one of their sum would. */
  lemma ShrinksToCompose(s: Slice, s1: Slice, s2: Slice, dir: string, m: nat, n: nat)
    requires NonNegative(s.rem) && ShrinksTo(s, s1, dir, m) && ShrinksTo(s1, s2, dir, n)
    ensures ShrinksTo(s, s2, dir, m + n)
  {
    DirTotalBound(s.rem, dir);
    DirTotalBound(s1.rem, dir);
    DirShare(s.rem, s1.rem, dir);
  }

  ghost function OutsideDir(m: Remainders, dir: string): Remainders {
    map r | r in m && r.dir != dir :: m[r]
  }

  lemma TotalSplit(m: Remainders, dir: string)
    ensures Total(m) == DirTotal(m, dir) + Total(OutsideDir(m, dir))
  {
    var inside := map r | r in m :: if r.dir == dir then m[r] else 0;
    var outside := map r | r in m :: if r.dir == dir then 0 else m[r];
    TotalPad(InDir(m, dir), inside);
    TotalPad(OutsideDir(m, dir), outside);
    TotalAdd(inside, outside, m);
  }

  /** What leaves the sum leaves the directory, when nothing else changes. */
  lemma DirShare(m: Remainders, m': Remainders, dir: string)
    requires m'.Keys == m.Keys && forall r :: r in m && r.dir != dir ==> m'[r] == m[r]
    ensures DirTotal(m, dir) - DirTotal(m', dir) == Total(m) - Total(m')
  {
    TotalSplit(m, dir);
    TotalSplit(m', dir);
    assert OutsideDir(m', dir) == OutsideDir(m, dir);
  }

  ghost predicate QuietDir(m: Remainders, dir: string) {
    forall r :: r in m && r.dir == dir ==> m[r] == 0
  }

  /** Bytes written where no job of the filesystem has any reserved change nothing. */
  lemma ElsewhereUntouched(s: Slice, s': Slice, dir: string, n: nat)
    requires QuietDir(s.rem, dir) && ShrinksTo(s, s', dir, n)
    ensures s' == s
  {
    TotalZero(InDir(s.rem, dir));
    assert s'.rem == s.rem;
  }

  /** The stream from l to l' took n bytes out of dir on filesystem key and nothing elsewhere. */
  ghost predicate Accounted(l: Ledger, l': Ledger, key: Option<string>, dir: string, n: nat) {
    && (key.Some? ==> ShrinksTo(SliceOf(l, key.value), SliceOf(l', key.value), dir, n))
    && forall k :: key != Some(k) ==> SliceOf(l', k) == SliceOf(l, k)
  }

  lemma NothingAccounted(l: Ledger, key: Option<string>, dir: string)
    requires SpaceLedger.Valid(l)
    ensures Accounted(l, l, key, dir, 0)
  {
    if key.Some? {
      assert KeyOk(l, key.value);
      ShrinksToNothing(SliceOf(l, key.value), dir);
    }
  }

  lemma AccountedMore(l: Ledger, l1: Ledger, l2: Ledger, key: Option<string>, dir: string, m: nat, n: nat)
    requires SpaceLedger.Valid(l) && Accounted(l, l1, key, dir, m) && Accounted(l1, l2, key, dir, n)
    ensures Accounted(l, l2, key, dir, m + n)
  {
    if key.Some? {
      assert KeyOk(l, key.value);
      ShrinksToCompose(SliceOf(l, key.value), SliceOf(l1, key.value), SliceOf(l2, key.value), dir, m, n);
    }
  }

  lemma ReportAccounted(l: Ledger, l': Ledger, key: Option<string>, order: seq<Reservation>, dir: string, n: nat)
    requires SpaceLedger.Valid(l)
    requires key.None? ==> l' == l
    requires key.Some? ==> IterationOrder(order, JobsOf(l, key.value).Keys) && l' == Shrink(l, key.value, order, dir, n)
    ensures Accounted(l, l', key, dir, n)
  {
    if key.Some? {
      forall k ensures if k == key.value then ShrinksTo(SliceOf(l, k), SliceOf(l', k), dir, n)
                       else SliceOf(l', k) == SliceOf(l, k) {
        SliceAfterShrink(l, key.value, order, dir, n, k);
      }
    }
  }

  /** accountWritten: only growth is reported, and only when a guard is configured. */
  method AccountWritten(g: SpaceGuard?, key: Option<string>, dir: string, n: int)
    requires g != null ==> g.Valid()
    modifies g
    ensures g != null ==> g.Valid() && Accounted(old(g.View()), g.View(), key, dir, if n > 0 then n else 0)
  {
    if g == null {
      return;
    }
    ghost var was := g.View();
    if n <= 0 {
      NothingAccounted(was, key, dir);
      return;
    }
    ghost var order := g.ShrinkDir(key, dir, n);
    ReportAccounted(was, g.View(), key, order, dir, n);
  }

  /** End to end: a job alone in its directory, whose stream never decreases, keeps of its need
      what the last size has left of it, and nothing once that exceeds the need. */
  lemma SoleJobEnds(l: Ledger, l': Ledger, r: Reservation, lines: seq<string>)
    requires SpaceLedger.Valid(l) && Holds(l, r) && SoleHolder(JobsOf(l, r.key), r)
    requires Accounted(l, l', Some(r.key), r.dir, Reported(Sizes(lines))) && NonDecreasing(Sizes(lines))
    ensures var need, last := JobsOf(l, r.key)[r], Last(Sizes(lines));
      Holds(l', r) && JobsOf(l', r.key)[r] == if last < need then need - last else 0
  {
    assert KeyOk(l, r.key);
    ReportsTelescope(Sizes(lines));
    ShrinkSole(SliceOf(l, r.key), SliceOf(l', r.key), r, Reported(Sizes(lines)));
  }

  /** What is to be accounted for the first i lines, and what line i adds to it. */
  ghost function ReportedBy(lines: seq<string>, i: nat): nat
    requires i <= |lines|
  {
    Reported(Sizes(lines[..i]))
  }

  lemma LineAccounted(was: Ledger, mid: Ledger, now: Ledger, key: Option<string>, dir: string,
                      lines: seq<string>, i: nat, written: int, more: nat)
    requires i < |lines| && SpaceLedger.Valid(was) && written == Last(Sizes(lines[..i]))
    requires Accounted(was, mid, key, dir, ReportedBy(lines, i)) && Accounted(mid, now, key, dir, more)
    requires ParseProgress(lines[i]).Some?
    requires more == if ParseProgress(lines[i]).value > written then ParseProgress(lines[i]).value - written else 0
    ensures Accounted(was, now, key, dir, ReportedBy(lines, i + 1))
  {
    SizesNext(lines, i);
    ReportedNext(Sizes(lines[..i]), ParseProgress(lines[i]).value);
    AccountedMore(was, mid, now, key, dir, ReportedBy(lines, i), more);
  }

  /** The reading loop of runFFmpeg: over the whole stream the ledger loses the sum of the
      positive increments, as far as the directory has that much reserved. */
  method ReadProgress(g: SpaceGuard?, key: Option<string>, dir: string, lines: seq<string>)
    requires g != null ==> g.Valid()
    modifies g
    ensures g != null ==> g.Valid() && Accounted(old(g.View()), g.View(), key, dir, Reported(Sizes(lines)))
  {
    var written := 0;
    ghost var was := if g != null then g.View() else EMPTY;
    if g != null {
      NothingAccounted(was, key, dir);
    }
    for i := 0 to |lines|
      invariant written == Last(Sizes(lines[..i]))
      invariant g != null ==> g.Valid() && Accounted(was, g.View(), key, dir, ReportedBy(lines, i))
    {
      SizesNext(lines, i);
      var p := ParseProgress(lines[i]);
      if p.Some? {
        ghost var mid := if g != null then g.View() else EMPTY;
        AccountWritten(g, key, dir, p.value - written);
        if g != null {
          LineAccounted(was, mid, g.View(), key, dir, lines, i, written,
                        if p.value > written then p.value - written else 0);
        }
        written := p.value;
      }
    }
    assert lines[..|lines|] == lines;
  }
}
