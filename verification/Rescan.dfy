/** The rescan fallback of watch mode: change detection between two snapshots, the cache kept
    from pass to pass, and what whole runs of passes schedule. */
module Rescan {
  import opened Options

  datatype Stamp = Stamp(size: int, mtime: int)

  type Cache = map<string, Stamp>

  /** New or changed since the previous cache. */
  predicate Changed(current: Cache, prev: Cache, path: string) {
    path in current && !(path in prev && prev[path] == current[path])
  }

  ghost predicate Distinct(s: seq<string>) {
    forall i, j :: 0 <= i < j < |s| ==> s[i] != s[j]
  }

  /** The change detection itself: whatever order the walk's map yields, each new or changed path
      is scheduled once, nothing else is, and the next cache is the snapshot. */
  method RescanDecide(current: Cache, prev: Cache) returns (toSchedule: seq<string>, next: Cache)
    ensures Distinct(toSchedule) && forall p :: p in toSchedule <==> Changed(current, prev, p)
    ensures forall p :: p in toSchedule <==>
      p in current && (p !in prev || prev[p].size != current[p].size || prev[p].mtime != current[p].mtime)
    ensures next == current
  {
    toSchedule, next := [], map[];
    var todo := current.Keys;
    while todo != {}
      invariant todo <= current.Keys
      invariant next.Keys == current.Keys - todo && forall p :: p in next ==> next[p] == current[p]
      invariant Distinct(toSchedule)
      invariant forall p :: p in toSchedule <==> p !in todo && Changed(current, prev, p)
      decreases todo
    {
      var path :| path in todo;
      todo := todo - {path};
      next := next[path := current[path]];
      if path in prev && prev[path] == current[path] {
        continue;
      }
      ghost var before := toSchedule;
      toSchedule := toSchedule + [path];
      assert forall p :: p in toSchedule <==> p in before || p == path;
    }
  }

  // ---- whole runs ----------------------------------------------------------------------

  /** The cache, and what each path looked like when it was last scheduled (or submitted). */
  datatype Memory = Memory(cache: Cache, latest: Cache)

  /** A tick of the rescan timer: a failed walk is skipped. */
  type Tick = Option<Cache>

  ghost function ChangedPaths(current: Cache, prev: Cache): set<string> {
    set p | p in current && Changed(current, prev, p)
  }

  ghost function Pass(m: Memory, tick: Tick): Memory {
    match tick
    case None => m
    case Some(snap) =>
      Memory(snap, m.latest + map p | p in ChangedPaths(snap, m.cache) :: snap[p])
  }

  ghost function Passes(m: Memory, ticks: seq<Tick>): Memory
    decreases |ticks|
  {
    if ticks == [] then m else Pass(Passes(m, ticks[..|ticks| - 1]), ticks[|ticks| - 1])
  }

  /** Everything cached was scheduled in exactly its cached state. */
  ghost predicate CacheWasScheduled(m: Memory) {
    forall p :: p in m.cache ==> p in m.latest && m.latest[p] == m.cache[p]
  }

  lemma PassKeepsScheduled(m: Memory, tick: Tick)
    requires CacheWasScheduled(m)
    ensures CacheWasScheduled(Pass(m, tick))
  {
    if tick.Some? {
      forall p | p in tick.value ensures p in Pass(m, tick).latest && Pass(m, tick).latest[p] == tick.value[p] {
        assert p in ChangedPaths(tick.value, m.cache) || (p in m.cache && m.cache[p] == tick.value[p]);
      }
    }
  }

  /** After any run that ends in a successful pass, every live path was last scheduled in its
      current state, and the cache knows exactly the live paths. */
  lemma {:induction false} LivePathsScheduledCurrent(m: Memory, ticks: seq<Tick>)
    requires CacheWasScheduled(m)
    ensures CacheWasScheduled(Passes(m, ticks))
    ensures ticks != [] && ticks[|ticks| - 1].Some? ==>
      var snap := ticks[|ticks| - 1].value;
      Passes(m, ticks).cache == snap &&
      forall p :: p in snap ==> p in Passes(m, ticks).latest && Passes(m, ticks).latest[p] == snap[p]
    decreases |ticks|
  {
    if ticks != [] {
      LivePathsScheduledCurrent(m, ticks[..|ticks| - 1]);
      PassKeepsScheduled(Passes(m, ticks[..|ticks| - 1]), ticks[|ticks| - 1]);
    }
  }

  /** The state recorded by the last successful walk before tick i. */
  ghost function Previous(m: Memory, ticks: seq<Tick>, i: nat): Cache
    requires i <= |ticks|
    decreases i
  {
    if i == 0 then m.cache else if ticks[i - 1].Some? then ticks[i - 1].value else Previous(m, ticks, i - 1)
  }

  /** How often path p is scheduled by a run of passes. */
  ghost function Schedulings(m: Memory, ticks: seq<Tick>, p: string): nat
    decreases |ticks|
  {
    if ticks == [] then 0
    else
      var before, tick := ticks[..|ticks| - 1], ticks[|ticks| - 1];
      Schedulings(m, before, p)
      + if tick.Some? && Changed(tick.value, Passes(m, before).cache, p) then 1 else 0
  }

  lemma {:induction false} CacheIsPrevious(m: Memory, ticks: seq<Tick>)
    ensures Passes(m, ticks).cache == Previous(m, ticks, |ticks|)
    decreases |ticks|
  {
    if ticks != [] {
      var before := ticks[..|ticks| - 1];
      CacheIsPrevious(m, before);
      PreviousOfPrefix(m, ticks, |before|);
    }
  }

  lemma {:induction false} PreviousOfPrefix(m: Memory, ticks: seq<Tick>, i: nat)
    requires i < |ticks|
    ensures Previous(m, ticks[..|ticks| - 1], i) == Previous(m, ticks, i)
    decreases i
  {
    if i > 0 {
      PreviousOfPrefix(m, ticks, i - 1);
    }
  }

  /** A path that looks the same in every successful walk is scheduled at most once in the whole
      run, and not at all when the full scan had already seen it so: the library is never queued
      again tick after tick. */
  lemma {:induction false} StableFileScheduledOnce(m: Memory, ticks: seq<Tick>, p: string, stamp: Stamp)
    requires forall i :: 0 <= i < |ticks| && ticks[i].Some? ==> p in ticks[i].value && ticks[i].value[p] == stamp
    ensures var walked := exists i :: 0 <= i < |ticks| && ticks[i].Some?;
      var known := p in m.cache && m.cache[p] == stamp;
      && Schedulings(m, ticks, p) == (if walked && !known then 1 else 0)
      && (walked || known ==> p in Passes(m, ticks).cache && Passes(m, ticks).cache[p] == stamp)
      && (!walked ==> Passes(m, ticks).cache == m.cache)
    decreases |ticks|
  {
    if ticks != [] {
      var before := ticks[..|ticks| - 1];
      assert forall i :: 0 <= i < |before| ==> before[i] == ticks[i];
      StableFileScheduledOnce(m, before, p, stamp);
      if i :| 0 <= i < |before| && before[i].Some? {
        assert ticks[i].Some?;
      }
      assert (exists i :: 0 <= i < |ticks| && ticks[i].Some?)
        ==> (exists i :: 0 <= i < |before| && before[i].Some?) || ticks[|ticks| - 1].Some?;
    }
  }

  // ---- the event loop's share ------------------------------------------------------------

  /** One entry of a walk: the path visited and what a stat of it says, if it succeeds. */
  datatype Visit = Visit(path: string, stat: Option<Stamp>)

  function Paths(walk: seq<Visit>): seq<string> {
    seq(|walk|, i requires 0 <= i < |walk| => walk[i].path)
  }

  /** What a walk finds: a path whose stat fails is skipped. */
  function Snapshot(walk: seq<Visit>): Cache {
    if walk == [] then map[]
    else
      var v := walk[|walk| - 1];
      var before := Snapshot(walk[..|walk| - 1]);
      if v.stat.Some? then before[v.path := v.stat.value] else before
  }

  ghost predicate LastStat(walk: seq<Visit>, p: string, i: int) {
    && 0 <= i < |walk| && walk[i].path == p && walk[i].stat.Some?
    && forall j :: i < j < |walk| && walk[j].path == p ==> walk[j].stat.None?
  }

  /** A snapshot holds for each path what the last successful stat of it said, and no other path. */
  lemma {:induction false} SnapshotHoldsLast(walk: seq<Visit>, p: string)
    ensures p in Snapshot(walk) <==> exists i :: LastStat(walk, p, i)
    ensures forall i :: LastStat(walk, p, i) ==> p in Snapshot(walk) && Snapshot(walk)[p] == walk[i].stat.value
  {
    if walk != [] {
      var before, v := walk[..|walk| - 1], walk[|walk| - 1];
      SnapshotHoldsLast(before, p);
      if v.path == p && v.stat.Some? {
        assert LastStat(walk, p, |walk| - 1);
      } else {
        assert forall i :: LastStat(walk, p, i) <==> LastStat(before, p, i);
      }
    }
  }

  method TakeSnapshot(walk: seq<Visit>) returns (snap: Cache)
    ensures snap == Snapshot(walk)
  {
    snap := map[];
    for i := 0 to |walk|
      invariant snap == Snapshot(walk[..i])
    {
      assert walk[..i + 1][..i] == walk[..i];
      if walk[i].stat.Some? {
        snap := snap[walk[i].path := walk[i].stat.value];
      }
    }
    assert walk[..|walk|] == walk;
  }

  class RescanLoop {
    var cache: Cache
    ghost var latest: Cache // what each path looked like when it was last handed over

    ghost function View(): Memory
      reads this
    {
      Memory(cache, latest)
    }

    ghost predicate Valid()
      reads this
    {
      CacheWasScheduled(View())
    }

    constructor ()
      ensures Valid() && cache == map[] && latest == map[]
    {
      cache, latest := map[], map[];
    }

    /** The full scan: one walk both submits every path and seeds the cache, so that no path is
        cached without being submitted. */
    method FullScan(walk: seq<Visit>) returns (submitted: seq<string>)
      requires cache == map[] && latest == map[]
      modifies this
      ensures Valid() && submitted == Paths(walk)
      ensures |submitted| == |walk| && forall i :: 0 <= i < |walk| ==> submitted[i] == walk[i].path
      ensures cache == Snapshot(walk) && latest == cache
      ensures forall p :: p in cache ==> p in submitted
    {
      submitted := [];
      for i := 0 to |walk|
        invariant submitted == Paths(walk[..i]) && cache == Snapshot(walk[..i]) && latest == cache
        invariant forall p :: p in cache ==> p in submitted
      {
        assert walk[..i + 1][..i] == walk[..i];
        var v := walk[i];
        if v.stat.Some? {
          cache := cache[v.path := v.stat.value];
          latest := cache;
        }
        ghost var before := submitted;
        submitted := submitted + [v.path];
        assert forall p :: p in submitted <==> p in before || p == v.path;
      }
      assert walk[..|walk|] == walk;
    }

    /** A tick of the rescan timer; a failed walk changes nothing. */
    method OnTick(walk: Option<seq<Visit>>) returns (toSchedule: seq<string>)
      requires Valid()
      modifies this
      ensures Valid()
      ensures walk.None? ==> toSchedule == [] && View() == old(View())
      ensures walk.Some? ==>
        && View() == Pass(old(View()), Some(Snapshot(walk.value)))
        && Distinct(toSchedule) && forall p :: p in toSchedule <==> Changed(cache, old(cache), p)
    {
      toSchedule := [];
      if walk.None? {
        return;
      }
      var snap := TakeSnapshot(walk.value);
      PassKeepsScheduled(View(), Some(snap));
      var next;
      toSchedule, next := RescanDecide(snap, cache);
      latest := latest + map p | p in ChangedPaths(snap, cache) :: snap[p];
      cache := next;
    }
  }
}
