/** The two-level disk-space ledger as a value: per-filesystem totals and per-reservation
    remainders, and the operations SpaceGuard performs on them under its lock. */
module SpaceLedger {
  import opened Sums

  /** One successful acquire. The program compares reservations by pointer; `id` is that
      identity. A reservation made on an unreadable mount has an empty key. */
  datatype Reservation = Reservation(id: nat, key: string, dir: string)

  type Remainders = map<Reservation, int>

  datatype Ledger = Ledger(reserved: map<string, int>, jobs: map<string, Remainders>)

  const EMPTY := Ledger(map[], map[])

  /** Reading an absent key of either map, as the program's language does it. */
  function Reserved(l: Ledger, key: string): int {
    if key in l.reserved then l.reserved[key] else 0
  }

  function JobsOf(l: Ledger, key: string): Remainders {
    if key in l.jobs then l.jobs[key] else map[]
  }

  predicate Holds(l: Ledger, r: Reservation) {
    r in JobsOf(l, r.key)
  }

  ghost predicate NonNegative(m: Remainders) {
    forall r :: r in m ==> 0 <= m[r]
  }

  ghost predicate ValidJobs(key: string, m: Remainders) {
    && key != ""
    && m != map[]
    && NonNegative(m)
    && forall r :: r in m ==> r.key == key
  }

  ghost predicate KeyOk(l: Ledger, key: string) {
    && (key in l.reserved ==> key in l.jobs)
    && (key in l.jobs ==> ValidJobs(key, l.jobs[key]))
    && Reserved(l, key) == Total(JobsOf(l, key))
  }

  ghost predicate Valid(l: Ledger) {
    forall key :: KeyOk(l, key)
  }

  /** Two ledgers agree on a filesystem. */
  ghost predicate AgreeOn(l: Ledger, l': Ledger, key: string) {
    && (key in l'.reserved <==> key in l.reserved) && (key in l'.jobs <==> key in l.jobs)
    && Reserved(l', key) == Reserved(l, key) && JobsOf(l', key) == JobsOf(l, key)
  }

  lemma OneKeyChanged(l: Ledger, l': Ledger, key: string)
    requires Valid(l) && KeyOk(l', key) && forall k :: k != key ==> AgreeOn(l, l', k)
    ensures Valid(l')
  {
    forall k ensures KeyOk(l', k) {
      assert KeyOk(l, k);
      assert k != key ==> AgreeOn(l, l', k);
    }
  }

  /** The admission rule. */
  predicate Admits(reserved: int, free: int, need: int) {
    free - reserved >= need
  }

  function Add(l: Ledger, r: Reservation, need: int): Ledger {
    Ledger(l.reserved[r.key := Reserved(l, r.key) + need],
           l.jobs[r.key := JobsOf(l, r.key)[r := need]])
  }

  function Release(l: Ledger, r: Reservation): Ledger {
    if r.key == "" || !Holds(l, r) then l
    else
      var left := JobsOf(l, r.key)[r];
      var others := JobsOf(l, r.key) - {r};
      var total := Reserved(l, r.key) - left;
      Ledger(if total <= 0 then l.reserved - {r.key} else l.reserved[r.key := total],
             if others == map[] then l.jobs - {r.key} else l.jobs[r.key := others])
  }

  /** The greedy loop of shrinkDir when the map yields its reservations in the given order. */
  function ShrinkInOrder(m: Remainders, order: seq<Reservation>, dir: string, n: int): (m': Remainders)
    requires forall r :: r in order ==> r in m
    ensures m'.Keys == m.Keys
    decreases |order|
  {
    if order == [] || n == 0 then m
    else
      var r := order[0];
      if r.dir != dir then ShrinkInOrder(m, order[1..], dir, n)
      else
        var d := Min(m[r], n);
        ShrinkInOrder(m[r := m[r] - d], order[1..], dir, n - d)
  }

  /** What that loop has left of n when it ends. */
  function LeftInOrder(m: Remainders, order: seq<Reservation>, dir: string, n: int): int
    requires forall r :: r in order ==> r in m
    decreases |order|
  {
    if order == [] || n == 0 then n
    else
      var r := order[0];
      if r.dir != dir then LeftInOrder(m, order[1..], dir, n)
      else
        var d := Min(m[r], n);
        LeftInOrder(m[r := m[r] - d], order[1..], dir, n - d)
  }

  /** A map may yield its keys in any order, each exactly once. */
  ghost predicate IterationOrder(order: seq<Reservation>, keys: set<Reservation>) {
    && (forall i, j :: 0 <= i < j < |order| ==> order[i] != order[j])
    && (forall r :: r in order <==> r in keys)
  }

  ghost function InDir(m: Remainders, dir: string): Remainders {
    map r | r in m && r.dir == dir :: m[r]
  }

  /** The bytes still reserved by the jobs of one filesystem writing into dir. */
  ghost function DirTotal(m: Remainders, dir: string): int {
    Total(InDir(m, dir))
  }

  predicate Touches(m: Remainders, dir: string) {
    exists r :: r in m && r.dir == dir
  }

  /** shrinkDir on the whole ledger, clamp included. */
  function Shrink(l: Ledger, key: string, order: seq<Reservation>, dir: string, n: int): Ledger
    requires forall r :: r in order ==> r in JobsOf(l, key)
  {
    if !Touches(JobsOf(l, key), dir) then l
    else
      var m := JobsOf(l, key);
      var total := Reserved(l, key) - (n - LeftInOrder(m, order, dir, n));
      Ledger(l.reserved[key := if total < 0 then 0 else total],
             l.jobs[key := ShrinkInOrder(m, order, dir, n)])
  }

  // ---- one reservation -------------------------------------------------------------

  lemma AddKeepsValid(l: Ledger, r: Reservation, need: nat)
    requires Valid(l) && r.key != "" && !Holds(l, r)
    ensures Valid(Add(l, r, need))
    ensures Reserved(Add(l, r, need), r.key) == Reserved(l, r.key) + need
    ensures forall k :: k != r.key ==> AgreeOn(l, Add(l, r, need), k)
  {
    assert KeyOk(l, r.key);
    TotalUpdate(JobsOf(l, r.key), r, need);
    assert KeyOk(Add(l, r, need), r.key);
    OneKeyChanged(l, Add(l, r, need), r.key);
  }

  lemma ReleaseAtKey(l: Ledger, r: Reservation)
    requires KeyOk(l, r.key) && r.key != "" && Holds(l, r)
    ensures KeyOk(Release(l, r), r.key)
    ensures JobsOf(Release(l, r), r.key) == JobsOf(l, r.key) - {r}
    ensures Reserved(Release(l, r), r.key) == Reserved(l, r.key) - JobsOf(l, r.key)[r]
  {
    var m := JobsOf(l, r.key);
    TotalRemove(m, r);
    TotalNonNegative(m - {r});
  }

  /** Releasing drops exactly the reservation's own remainder and nobody else's. */
  lemma ReleaseKeepsValid(l: Ledger, r: Reservation)
    requires Valid(l)
    ensures var l' := Release(l, r);
      && Valid(l') && !Holds(l', r)
      && JobsOf(l', r.key) == JobsOf(l, r.key) - {r}
      && Reserved(l', r.key) == Reserved(l, r.key) - (if Holds(l, r) then JobsOf(l, r.key)[r] else 0)
      && (forall k :: k != r.key ==> AgreeOn(l, l', k))
  {
    assert KeyOk(l, r.key);
    if Holds(l, r) {
      ReleaseAtKey(l, r);
      OneKeyChanged(l, Release(l, r), r.key);
    } else {
      assert JobsOf(l, r.key) - {r} == JobsOf(l, r.key);
    }
  }

  lemma ReleaseTwice(l: Ledger, r: Reservation)
    requires Valid(l)
    ensures Release(Release(l, r), r) == Release(l, r)
  {
    ReleaseKeepsValid(l, r);
  }

  /** With its last reservation gone, a filesystem leaves no trace in either map. */
  lemma LastReleaseForgetsKey(l: Ledger, r: Reservation)
    requires Valid(l) && JobsOf(l, r.key).Keys == {r}
    ensures r.key !in Release(l, r).reserved && r.key !in Release(l, r).jobs
  {
    ReleaseKeepsValid(l, r);
    assert JobsOf(l, r.key) - {r} == map[];
    assert KeyOk(Release(l, r), r.key);
  }

  // ---- shrinkDir -------------------------------------------------------------------

  lemma {:induction false} ShrinkAppend(m: Remainders, a: seq<Reservation>, b: seq<Reservation>, dir: string, n: int)
    requires forall r :: r in a + b ==> r in m
    ensures forall r :: r in a ==> r in m
    ensures forall r :: r in b ==> r in m
    ensures ShrinkInOrder(m, a + b, dir, n)
         == ShrinkInOrder(ShrinkInOrder(m, a, dir, n), b, dir, LeftInOrder(m, a, dir, n))
    ensures LeftInOrder(m, a + b, dir, n)
         == LeftInOrder(ShrinkInOrder(m, a, dir, n), b, dir, LeftInOrder(m, a, dir, n))
    decreases |a|
  {
    assert forall r :: r in a ==> r in a + b;
    assert forall r :: r in b ==> r in a + b;
    if a == [] {
      assert a + b == b;
    } else if n != 0 {
      assert (a + b)[1..] == a[1..] + b;
      var r := a[0];
      assert (a + b)[0] == r;
      if r.dir != dir {
        ShrinkAppend(m, a[1..], b, dir, n);
      } else {
        var d := Min(m[r], n);
        ShrinkAppend(m[r := m[r] - d], a[1..], b, dir, n - d);
      }
    }
  }

  lemma DirTotalUpdate(m: Remainders, r: Reservation, v: int, dir: string)
    requires r in m
    ensures DirTotal(m[r := v], dir) == DirTotal(m, dir) + (if r.dir == dir then v - m[r] else 0)
  {
    if r.dir == dir {
      TotalUpdate(InDir(m, dir), r, v);
      assert InDir(m[r := v], dir) == InDir(m, dir)[r := v];
    } else {
      assert InDir(m[r := v], dir) == InDir(m, dir);
    }
  }

  /** Whatever the order, remainders stay between 0 and their old value, other directories are
      untouched, and bytes are left over only once the directory is exhausted. */
  lemma {:induction false} ShrinkBounds(m: Remainders, order: seq<Reservation>, dir: string, n: nat)
    requires NonNegative(m) && forall r :: r in order ==> r in m
    ensures 0 <= LeftInOrder(m, order, dir, n) <= n
    ensures forall r :: r in m ==> 0 <= ShrinkInOrder(m, order, dir, n)[r] <= m[r]
    ensures forall r :: r in m && (r.dir != dir || r !in order) ==> ShrinkInOrder(m, order, dir, n)[r] == m[r]
    ensures LeftInOrder(m, order, dir, n) > 0
        ==> forall r :: r in order && r.dir == dir ==> ShrinkInOrder(m, order, dir, n)[r] == 0
    decreases |order|
  {
    if order != [] && n != 0 {
      var r := order[0];
      var rest := order[1..];
      assert forall x :: x in order <==> x == r || x in rest;
      if r.dir != dir {
        ShrinkBounds(m, rest, dir, n);
      } else {
        var d := Min(m[r], n);
        ShrinkBounds(m[r := m[r] - d], rest, dir, n - d);
      }
    }
  }

  /** What leaves the totals is what the loop took out of n. */
  lemma {:induction false} ShrinkTotals(m: Remainders, order: seq<Reservation>, dir: string, n: int)
    requires forall r :: r in order ==> r in m
    ensures Total(ShrinkInOrder(m, order, dir, n)) == Total(m) - (n - LeftInOrder(m, order, dir, n))
    ensures DirTotal(ShrinkInOrder(m, order, dir, n), dir)
         == DirTotal(m, dir) - (n - LeftInOrder(m, order, dir, n))
    decreases |order|
  {
    if order != [] && n != 0 {
      var r := order[0];
      if r.dir != dir {
        ShrinkTotals(m, order[1..], dir, n);
      } else {
        var d := Min(m[r], n);
        TotalUpdate(m, r, m[r] - d);
        DirTotalUpdate(m, r, m[r] - d, dir);
        ShrinkTotals(m[r := m[r] - d], order[1..], dir, n - d);
      }
    }
  }

  /** Conservation: for every map iteration order a report of n bytes takes exactly
      min(n, what the directory still has reserved) out of the directory and of the total. */
  lemma ShrinkConserves(m: Remainders, order: seq<Reservation>, dir: string, n: nat)
    requires IterationOrder(order, m.Keys)
    requires NonNegative(m)
    ensures n - LeftInOrder(m, order, dir, n) == Min(n, DirTotal(m, dir))
    ensures var m' := ShrinkInOrder(m, order, dir, n);
      && Total(m') == Total(m) - Min(n, DirTotal(m, dir))
      && DirTotal(m', dir) == DirTotal(m, dir) - Min(n, DirTotal(m, dir))
      && (forall r :: r in m ==> 0 <= m'[r] <= m[r] && (r.dir != dir ==> m'[r] == m[r]))
  {
    ShrinkBounds(m, order, dir, n);
    ShrinkTotals(m, order, dir, n);
    var m' := ShrinkInOrder(m, order, dir, n);
    var left := LeftInOrder(m, order, dir, n);
    TotalNonNegative(InDir(m', dir));
    if left > 0 {
      TotalZero(InDir(m', dir));
    }
  }

  lemma DirTotalBound(m: Remainders, dir: string)
    requires NonNegative(m)
    ensures 0 <= DirTotal(m, dir) <= Total(m)
  {
    var zero := map r | r in m :: if r.dir == dir then m[r] else 0;
    var rest := map r | r in m :: if r.dir == dir then 0 else m[r];
    TotalAdd(zero, rest, m);
    TotalNonNegative(rest);
    TotalNonNegative(InDir(m, dir));
    TotalPad(InDir(m, dir), zero);
  }

  /** Entries worth 0 do not change a sum. */
  lemma {:induction false} TotalPad(a: Remainders, b: Remainders)
    requires forall r :: r in a ==> r in b && b[r] == a[r]
    requires forall r :: r in b && r !in a ==> b[r] == 0
    ensures Total(a) == Total(b)
    decreases |b|
  {
    if k :| k in b && k !in a {
      TotalRemove(b, k);
      TotalPad(a, b - {k});
    } else {
      assert a == b;
    }
  }

  /** shrinkDir lowers the total by what it took from the reservations of that directory, its
      clamp to zero never fires, and other filesystems are untouched. */
  lemma ShrinkEffect(l: Ledger, key: string, order: seq<Reservation>, dir: string, n: nat)
    requires Valid(l) && IterationOrder(order, JobsOf(l, key).Keys)
    ensures JobsOf(Shrink(l, key, order, dir, n), key) == ShrinkInOrder(JobsOf(l, key), order, dir, n)
    ensures Reserved(Shrink(l, key, order, dir, n), key) == Reserved(l, key) - Min(n, DirTotal(JobsOf(l, key), dir))
    ensures Reserved(l, key) - (n - LeftInOrder(JobsOf(l, key), order, dir, n)) >= 0
    ensures NonNegative(JobsOf(l, key)) && NonNegative(ShrinkInOrder(JobsOf(l, key), order, dir, n))
    ensures Total(ShrinkInOrder(JobsOf(l, key), order, dir, n)) == Reserved(Shrink(l, key, order, dir, n), key)
  {
    var m := JobsOf(l, key);
    assert KeyOk(l, key);
    ShrinkConserves(m, order, dir, n);
    DirTotalBound(m, dir);
    if !Touches(m, dir) {
      ShrinkNobody(m, order, dir, n);
    }
  }

  lemma ShrinkNobody(m: Remainders, order: seq<Reservation>, dir: string, n: nat)
    requires NonNegative(m) && !Touches(m, dir) && forall r :: r in order ==> r in m
    ensures DirTotal(m, dir) == 0 && ShrinkInOrder(m, order, dir, n) == m
  {
    assert InDir(m, dir) == map[];
    ShrinkBounds(m, order, dir, n);
  }

  lemma ShrinkKeepsValid(l: Ledger, key: string, order: seq<Reservation>, dir: string, n: nat)
    requires Valid(l) && IterationOrder(order, JobsOf(l, key).Keys)
    ensures Valid(Shrink(l, key, order, dir, n))
    ensures forall k :: k != key ==> AgreeOn(l, Shrink(l, key, order, dir, n), k)
  {
    ShrinkEffect(l, key, order, dir, n);
    var l' := Shrink(l, key, order, dir, n);
    if l' != l {
      assert KeyOk(l, key);
      assert key in l.jobs && l'.jobs[key].Keys == l.jobs[key].Keys;
      assert l'.jobs[key] != map[];
      assert KeyOk(l', key);
      OneKeyChanged(l, l', key);
    }
  }

  // ---- whom a report is charged to ---------------------------------------------------

  /** A report by r's job hits r alone, for as much as r still has. */
  ghost predicate ChargesOnly(m: Remainders, r: Reservation, order: seq<Reservation>, dir: string, n: int)
    requires r in m && IterationOrder(order, m.Keys)
  {
    ShrinkInOrder(m, order, dir, n) == m[r := m[r] - Min(m[r], n)]
  }

  ghost predicate SoleHolder(m: Remainders, r: Reservation) {
    forall o :: o in m && o != r && o.dir == r.dir ==> m[o] == 0
  }

  lemma {:induction false} SoleHolderCharged(m: Remainders, r: Reservation, order: seq<Reservation>, n: nat)
    requires r in m && SoleHolder(m, r) && NonNegative(m)
    requires forall o :: o in order ==> o in m
    requires forall i, j :: 0 <= i < j < |order| ==> order[i] != order[j]
    ensures ShrinkInOrder(m, order, r.dir, n) == if r in order then m[r := m[r] - Min(m[r], n)] else m
    decreases |order|
  {
    if order != [] && n != 0 {
      var o := order[0];
      var rest := order[1..];
      assert forall x :: x in order <==> x == o || x in rest;
      if o.dir != r.dir {
        SoleHolderCharged(m, r, rest, n);
      } else {
        var d := Min(m[o], n);
        var m1 := m[o := m[o] - d];
        if o == r {
          assert r !in rest;
          assert SoleHolder(m1, r);
          SoleHolderCharged(m1, r, rest, n - d);
        } else {
          assert d == 0 && m1 == m;
          SoleHolderCharged(m, r, rest, n);
        }
      }
    } else if n == 0 {
      assert m[r := m[r]] == m;
    }
  }

  // ---- one filesystem's slice of the ledger ------------------------------------------

  /** All that admissions, reports and releases on one filesystem read or write. */
  datatype Slice = Slice(reserved: int, rem: Remainders)

  function SliceOf(l: Ledger, key: string): Slice {
    Slice(Reserved(l, key), JobsOf(l, key))
  }

  /** What every outcome of a report has in common, whatever the order of the map. */
  ghost predicate ShrinksTo(s: Slice, s': Slice, dir: string, n: int) {
    && s'.rem.Keys == s.rem.Keys
    && (forall r :: r in s.rem ==> 0 <= s'.rem[r] <= s.rem[r] && (r.dir != dir ==> s'.rem[r] == s.rem[r]))
    && Total(s'.rem) == Total(s.rem) - Min(n, DirTotal(s.rem, dir))
    && s'.reserved == s.reserved - Min(n, DirTotal(s.rem, dir))
  }

  /** Every ledger operation acts on the slice of its own filesystem as stated and leaves the
      slices of all others alone. */
  lemma SliceAfterAdd(l: Ledger, r: Reservation, need: nat, key: string)
    requires Valid(l) && r.key != "" && !Holds(l, r)
    ensures SliceOf(Add(l, r, need), key)
         == if key == r.key then Slice(Reserved(l, key) + need, JobsOf(l, key)[r := need]) else SliceOf(l, key)
  {
  }

  lemma SliceAfterRelease(l: Ledger, r: Reservation, key: string)
    requires Valid(l) && r.key != "" && Holds(l, r)
    ensures SliceOf(Release(l, r), key)
         == if key == r.key then Slice(Reserved(l, key) - JobsOf(l, key)[r], JobsOf(l, key) - {r}) else SliceOf(l, key)
  {
    ReleaseKeepsValid(l, r);
  }

  lemma SliceAfterShrink(l: Ledger, shrunk: string, order: seq<Reservation>, dir: string, n: nat, key: string)
    requires Valid(l) && IterationOrder(order, JobsOf(l, shrunk).Keys)
    ensures if key == shrunk then ShrinksTo(SliceOf(l, key), SliceOf(Shrink(l, shrunk, order, dir, n), key), dir, n)
            else SliceOf(Shrink(l, shrunk, order, dir, n), key) == SliceOf(l, key)
  {
    assert KeyOk(l, shrunk);
    ShrinkEffect(l, shrunk, order, dir, n);
    ShrinkKeepsValid(l, shrunk, order, dir, n);
    ShrinkConserves(JobsOf(l, shrunk), order, dir, n);
  }

  /** Reports into a directory with one holder lower that holder and the total alike, as far as
      the holder has bytes left. */
  lemma ShrinkSole(s: Slice, s': Slice, r: Reservation, n: nat)
    requires r in s.rem && SoleHolder(s.rem, r) && NonNegative(s.rem) && ShrinksTo(s, s', r.dir, n)
    ensures s' == Slice(s.reserved - Min(n, s.rem[r]), s.rem[r := s.rem[r] - Min(n, s.rem[r])])
  {
    TotalPad(map[r := s.rem[r]], InDir(s.rem, r.dir));
    TotalUpdate(map[], r, s.rem[r]);
    assert s'.rem == s.rem[r := s'.rem[r]];
    TotalUpdate(s.rem, r, s'.rem[r]);
  }

  /** Every key set can be iterated in some order that starts where we like. */
  lemma {:induction false} SomeOrder(keys: set<Reservation>) returns (order: seq<Reservation>)
    ensures IterationOrder(order, keys)
    decreases keys
  {
    if keys == {} {
      order := [];
    } else {
      var k :| k in keys;
      var rest := SomeOrder(keys - {k});
      order := [k] + rest;
      forall i, j | 0 <= i < j < |order| ensures order[i] != order[j] {
        assert order[j] == rest[j - 1] && rest[j - 1] in rest;
      }
      forall r ensures r in order <==> r in keys {
        assert r in order <==> r == k || r in rest;
      }
    }
  }

  lemma SomeOrderFrom(keys: set<Reservation>, first: Reservation) returns (order: seq<Reservation>)
    requires first in keys
    ensures IterationOrder(order, keys) && order != [] && order[0] == first
  {
    var rest := SomeOrder(keys - {first});
    order := [first] + rest;
    forall i, j | 0 <= i < j < |order| ensures order[i] != order[j] {
      assert order[j] == rest[j - 1] && rest[j - 1] in rest;
    }
    forall r ensures r in order <==> r in keys {
      assert r in order <==> r == first || r in rest;
    }
  }

  /** Exactly when a job's report is certain to shrink its own reservation and no other: no
      other reservation naming the same directory may have bytes left. Bytes are attributed by
      directory, so with a second live reservation there some map order charges the wrong job. */
  lemma ReportChargesReporterIff(m: Remainders, r: Reservation, n: nat)
    requires r in m && n > 0 && NonNegative(m)
    ensures (forall order | IterationOrder(order, m.Keys) :: ChargesOnly(m, r, order, r.dir, n))
        <==> SoleHolder(m, r)
  {
    if SoleHolder(m, r) {
      forall order | IterationOrder(order, m.Keys) ensures ChargesOnly(m, r, order, r.dir, n) {
        SoleHolderCharged(m, r, order, n);
      }
    } else {
      var o :| o in m && o != r && o.dir == r.dir && m[o] != 0;
      var order := SomeOrderFrom(m.Keys, o);
      var d := Min(m[o], n);
      ShrinkBounds(m[o := m[o] - d], order[1..], r.dir, n - d);
      assert ShrinkInOrder(m, order, r.dir, n)[o] < m[o];
      assert !ChargesOnly(m, r, order, r.dir, n);
    }
  }

  // ---- whole histories ---------------------------------------------------------------

  datatype Op =
    | OpReserve(r: Reservation, free: int, need: nat)
    | OpShrink(key: string, order: seq<Reservation>, dir: string, n: nat)
    | OpRelease(r: Reservation)

  /** What the callers guarantee: a reservation is a new object on a known filesystem, and a
      range over a map visits its keys once each. */
  ghost predicate Legal(l: Ledger, op: Op) {
    match op
    case OpReserve(r, _, _) => r.key != "" && !Holds(l, r)
    case OpShrink(key, order, _, _) => IterationOrder(order, JobsOf(l, key).Keys)
    case OpRelease(_) => true
  }

  function Apply(l: Ledger, op: Op): Ledger
    requires op.OpShrink? ==> forall r :: r in op.order ==> r in JobsOf(l, op.key)
  {
    match op
    case OpReserve(r, free, need) => if Admits(Reserved(l, r.key), free, need) then Add(l, r, need) else l
    case OpShrink(key, order, dir, n) => Shrink(l, key, order, dir, n)
    case OpRelease(r) => Release(l, r)
  }

  ghost predicate LegalRun(l: Ledger, ops: seq<Op>)
    decreases |ops|
  {
    ops == [] || (Legal(l, ops[0]) && LegalRun(Apply(l, ops[0]), ops[1..]))
  }

  function RunOps(l: Ledger, ops: seq<Op>): Ledger
    requires LegalRun(l, ops)
    decreases |ops|
  {
    if ops == [] then l else RunOps(Apply(l, ops[0]), ops[1..])
  }

  lemma ApplyKeepsValid(l: Ledger, op: Op)
    requires Valid(l) && Legal(l, op)
    ensures Valid(Apply(l, op))
  {
    match op
    case OpReserve(r, free, need) => AddKeepsValid(l, r, need);
    case OpShrink(key, order, dir, n) => ShrinkKeepsValid(l, key, order, dir, n);
    case OpRelease(r) => ReleaseKeepsValid(l, r);
  }

  /** After any history of admissions, refusals, reports and releases, in any map order, each
      total is the sum of the remainders below it, no remainder is negative and no inner map is
      empty or left behind. */
  lemma {:induction false} LedgerAlwaysConsistent(l: Ledger, ops: seq<Op>)
    requires Valid(l) && LegalRun(l, ops)
    ensures Valid(RunOps(l, ops))
    decreases |ops|
  {
    if ops != [] {
      ApplyKeepsValid(l, ops[0]);
      LedgerAlwaysConsistent(Apply(l, ops[0]), ops[1..]);
    }
  }

  ghost function ReleaseAll(l: Ledger, rs: seq<Reservation>): Ledger
    decreases |rs|
  {
    if rs == [] then l else ReleaseAll(Release(l, rs[0]), rs[1..])
  }

  /** Releasing every reservation of a filesystem, in any order and however often, erases the
      filesystem from both maps. */
  lemma {:induction false} ReleaseAllForgetsKey(l: Ledger, rs: seq<Reservation>, key: string)
    requires Valid(l) && forall r :: r in JobsOf(l, key) ==> r in rs
    ensures key !in ReleaseAll(l, rs).reserved && key !in ReleaseAll(l, rs).jobs
    decreases |rs|
  {
    if rs == [] {
      assert KeyOk(l, key) && JobsOf(l, key) == map[];
    } else {
      ReleaseKeepsValid(l, rs[0]);
      assert KeyOk(l, key) && (key != rs[0].key ==> AgreeOn(l, Release(l, rs[0]), key));
      forall r | r in JobsOf(Release(l, rs[0]), key) ensures r in rs[1..] {
        assert r in JobsOf(l, key) && r != rs[0];
      }
      ReleaseAllForgetsKey(Release(l, rs[0]), rs[1..], key);
    }
  }
}
