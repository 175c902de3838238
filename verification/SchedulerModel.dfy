/** The debouncing scheduler as a value: the map of pending entries, the entries themselves and
    the timer callbacks that are still outstanding. P is the identity of an entry; the program
    compares entries by pointer. */
module SchedulerModel {

  datatype Entry = Entry(size: int, gen: nat, timer: nat)

  /** A callback given to the runtime. Once fired it only waits for the lock and can no longer
      be stopped. */
  datatype Callback<P> = Callback(path: string, entry: P, gen: nat, fired: bool)

  datatype Core<P> = Core(timers: map<string, P>, entries: map<P, Entry>, out: map<nat, Callback<P>>, next: nat)

  datatype Stat = Size(n: nat) | NotExist | IoError

  datatype Verdict = Stale | Vanished | Retry | Resized | Settled

  /** Every name used by the scheduler has an entry. */
  ghost predicate Closed<P>(c: Core<P>) {
    && (forall path :: path in c.timers ==> c.timers[path] in c.entries)
    && (forall t :: t in c.out ==> c.out[t].entry in c.entries)
  }

  ghost function Stop<P>(out: map<nat, Callback<P>>, t: nat): map<nat, Callback<P>> {
    if t in out && !out[t].fired then out - {t} else out
  }

  /** A new generation of p, with its own timer. */
  ghost function Arm<P>(c: Core<P>, path: string, p: P, size: int, gen: nat): Core<P> {
    Core(c.timers, c.entries[p := Entry(size, gen + 1, c.next)],
         c.out[c.next := Callback(path, p, gen + 1, false)], c.next + 1)
  }

  /** schedule: size is -1 when the file could not be read. `newcomer` is used for a new entry. */
  ghost function Schedule<P>(c: Core<P>, path: string, size: int, newcomer: P): Core<P>
    requires Closed(c)
  {
    if path in c.timers then
      var p := c.timers[path];
      Arm(c.(out := Stop(c.out, c.entries[p].timer)), path, p, size, c.entries[p].gen)
    else
      Arm(c.(timers := c.timers[path := newcomer]), path, newcomer, size, 0)
  }

  ghost function Fire<P>(c: Core<P>, t: nat): Core<P>
    requires t in c.out
  {
    c.(out := c.out[t := c.out[t].(fired := true)])
  }

  /** Whether callback t is the one its entry is waiting for. */
  ghost predicate Live<P>(c: Core<P>, t: nat)
    requires Closed(c) && t in c.out
  {
    var cb := c.out[t];
    cb.path in c.timers && c.timers[cb.path] == cb.entry && c.entries[cb.entry].gen == cb.gen
  }

  ghost function Judge<P>(c: Core<P>, t: nat, stat: Stat): Verdict
    requires Closed(c) && t in c.out
  {
    if !Live(c, t) then Stale
    else match stat
      case NotExist => Vanished
      case IoError => Retry
      case Size(n) => if n != c.entries[c.out[t].entry].size then Resized else Settled
  }

  /** The locked part of checkAndSubmit. A settled path is submitted after the lock is given up. */
  ghost function Check<P>(c: Core<P>, t: nat, stat: Stat): Core<P>
    requires Closed(c) && t in c.out
  {
    var cb := c.out[t];
    var c' := c.(out := c.out - {t});
    match Judge(c, t, stat)
    case Stale => c'
    case Vanished => c'.(timers := c.timers - {cb.path})
    case Settled => c'.(timers := c.timers - {cb.path})
    case Retry => Arm(c', cb.path, cb.entry, c.entries[cb.entry].size, cb.gen)
    case Resized => Arm(c', cb.path, cb.entry, stat.n, cb.gen)
  }

  /** What is left of the callbacks when the given timers are stopped. */
  ghost function Unstopped<P>(out: map<nat, Callback<P>>, stopped: set<nat>): map<nat, Callback<P>> {
    map t | t in out && (out[t].fired || t !in stopped) :: out[t]
  }

  ghost function TimersOf<P>(c: Core<P>): set<nat>
    requires Closed(c)
  {
    set path | path in c.timers :: c.entries[c.timers[path]].timer
  }

  /** The locked part of Close: the pending map is swapped for an empty one and every timer of the
      old one is stopped; a callback that has already fired stays outstanding. */
  ghost function CloseAll<P>(c: Core<P>): Core<P>
    requires Closed(c)
  {
    Core(map[], c.entries, Unstopped(c.out, TimersOf(c)), c.next)
  }

  // ---- the invariant of the locked state ---------------------------------------------

  /** A pending entry has an outstanding callback of its current generation. */
  ghost predicate Awaited<P>(c: Core<P>, path: string)
    requires Closed(c) && path in c.timers
  {
    var p := c.timers[path];
    var e := c.entries[p];
    && e.timer in c.out
    && c.out[e.timer].path == path && c.out[e.timer].entry == p && c.out[e.timer].gen == e.gen
  }

  /** No outstanding callback is ahead of its entry, and only its latest timer is level with it. */
  ghost predicate NotAhead<P>(c: Core<P>, t: nat)
    requires Closed(c) && t in c.out
  {
    var cb := c.out[t];
    && t < c.next && cb.gen <= c.entries[cb.entry].gen
    && (cb.gen == c.entries[cb.entry].gen ==> t == c.entries[cb.entry].timer)
  }

  ghost predicate CoreInv<P>(c: Core<P>) {
    && Closed(c)
    && (forall path :: path in c.timers ==> Awaited(c, path))
    && (forall t :: t in c.out ==> NotAhead(c, t))
    && (forall a, b :: a in c.timers && b in c.timers && a != b ==> c.timers[a] != c.timers[b])
  }

  /** A callback of p is at most of the given generation, any other is in order. */
  ghost predicate BelowOrNotAhead<P>(c: Core<P>, t: nat, p: P, gen: nat)
    requires Closed(c) && t in c.out
  {
    if c.out[t].entry == p then t < c.next && c.out[t].gen <= gen else NotAhead(c, t)
  }

  /** Arming an entry that is pending at path, when no outstanding callback is level with its
      generation or its timer has just gone. */
  lemma ArmKeepsInv<P>(c: Core<P>, path: string, p: P, size: int, gen: nat)
    requires Closed(c) && path in c.timers && c.timers[path] == p
    requires forall q :: q in c.timers && q != path ==> c.timers[q] != p && Awaited(c, q)
    requires forall a, b :: a in c.timers && b in c.timers && a != b ==> c.timers[a] != c.timers[b]
    requires forall t :: t in c.out ==> BelowOrNotAhead(c, t, p, gen)
    ensures CoreInv(Arm(c, path, p, size, gen))
  {
    var c' := Arm(c, path, p, size, gen);
    forall q | q in c'.timers ensures Awaited(c', q) {
      if q != path {
        assert Awaited(c, q);
        assert NotAhead(c, c.entries[c.timers[q]].timer);
      }
    }
    forall t | t in c'.out ensures NotAhead(c', t) {
      assert t in c.out && c.out[t].entry != p ==> NotAhead(c, t);
    }
  }

  lemma ScheduleKeepsInv<P>(c: Core<P>, path: string, size: int, newcomer: P)
    requires CoreInv(c) && (path in c.timers || newcomer !in c.entries)
    ensures CoreInv(Schedule(c, path, size, newcomer))
  {
    if path in c.timers {
      var p := c.timers[path];
      var c1 := c.(out := Stop(c.out, c.entries[p].timer));
      assert Awaited(c, path);
      forall q | q in c1.timers && q != path ensures c1.timers[q] != p && Awaited(c1, q) {
        assert Awaited(c, q);
      }
      forall t | t in c1.out ensures BelowOrNotAhead(c1, t, p, c.entries[p].gen) {
        assert NotAhead(c, t);
      }
      ArmKeepsInv(c1, path, p, size, c.entries[p].gen);
    } else {
      var c1 := Core(c.timers[path := newcomer], c.entries[newcomer := Entry(size, 0, 0)], c.out, c.next);
      forall q | q in c1.timers && q != path ensures c1.timers[q] != newcomer && Awaited(c1, q) {
        assert Awaited(c, q);
      }
      forall t | t in c1.out ensures BelowOrNotAhead(c1, t, newcomer, 0) {
        assert NotAhead(c, t);
      }
      ArmKeepsInv(c1, path, newcomer, size, 0);
      assert Schedule(c, path, size, newcomer) == Arm(c1, path, newcomer, size, 0);
    }
  }

  lemma FireKeepsInv<P>(c: Core<P>, t: nat)
    requires CoreInv(c) && t in c.out
    ensures CoreInv(Fire(c, t))
  {
    var c' := Fire(c, t);
    forall q | q in c'.timers ensures Awaited(c', q) {
      assert Awaited(c, q);
    }
    forall u | u in c'.out ensures NotAhead(c', u) {
      assert NotAhead(c, u);
    }
  }

  /** The live callback of a pending entry is the entry's own latest timer. */
  lemma LiveIsLatest<P>(c: Core<P>, t: nat)
    requires CoreInv(c) && t in c.out
    ensures Live(c, t) <==> Pending(c, c.out[t]) && t == c.entries[c.out[t].entry].timer
  {
    assert NotAhead(c, t);
    if Pending(c, c.out[t]) {
      assert Awaited(c, c.out[t].path);
    }
  }

  ghost predicate Pending<P>(c: Core<P>, cb: Callback<P>) {
    cb.path in c.timers && c.timers[cb.path] == cb.entry
  }

  lemma CheckKeepsInv<P>(c: Core<P>, t: nat, stat: Stat)
    requires CoreInv(c) && t in c.out
    ensures CoreInv(Check(c, t, stat))
  {
    var cb := c.out[t];
    var c0 := c.(out := c.out - {t});
    LiveIsLatest(c, t);
    forall q | q in c.timers && !(Live(c, t) && q == cb.path) ensures Awaited(c0, q) {
      assert Awaited(c, q);
    }
    forall u | u in c0.out ensures NotAhead(c0, u) {
      assert NotAhead(c, u);
    }
    match Judge(c, t, stat)
    case Stale =>
    case Vanished => DropKeepsInv(c0, cb.path);
    case Settled => DropKeepsInv(c0, cb.path);
    case Retry => RearmKeepsInv(c, t, c.entries[cb.entry].size);
    case Resized => RearmKeepsInv(c, t, stat.n);
  }

  lemma DropKeepsInv<P>(c: Core<P>, path: string)
    requires Closed(c) && (forall t :: t in c.out ==> NotAhead(c, t))
    requires forall q :: q in c.timers && q != path ==> Awaited(c, q)
    requires forall a, b :: a in c.timers && b in c.timers && a != b ==> c.timers[a] != c.timers[b]
    ensures CoreInv(c.(timers := c.timers - {path}))
  {
    var c' := c.(timers := c.timers - {path});
    forall q | q in c'.timers ensures Awaited(c', q) {
      assert Awaited(c, q);
    }
    forall t | t in c'.out ensures NotAhead(c', t) {
      assert NotAhead(c, t);
    }
  }

  lemma RearmKeepsInv<P>(c: Core<P>, t: nat, size: int)
    requires CoreInv(c) && t in c.out && Live(c, t)
    ensures CoreInv(Arm(c.(out := c.out - {t}), c.out[t].path, c.out[t].entry, size, c.out[t].gen))
  {
    var cb := c.out[t];
    var c0 := c.(out := c.out - {t});
    LiveIsLatest(c, t);
    forall q | q in c0.timers && q != cb.path ensures c0.timers[q] != cb.entry && Awaited(c0, q) {
      assert Awaited(c, q);
    }
    forall u | u in c0.out ensures BelowOrNotAhead(c0, u, cb.entry, cb.gen) {
      assert NotAhead(c, u);
    }
    ArmKeepsInv(c0, cb.path, cb.entry, size, cb.gen);
  }

  lemma CloseKeepsInv<P>(c: Core<P>)
    requires CoreInv(c)
    ensures CoreInv(CloseAll(c))
  {
    forall t | t in CloseAll(c).out ensures NotAhead(CloseAll(c), t) {
      assert NotAhead(c, t);
    }
  }

  // ---- what the invariant means ------------------------------------------------------

  /** Callback t can act on the pending entry of path. */
  ghost predicate LiveFor<P>(c: Core<P>, t: nat, path: string)
    requires Closed(c)
  {
    t in c.out && c.out[t].path == path && Live(c, t)
  }

  /** Every pending entry has exactly one outstanding callback that can act on it. */
  lemma ExactlyOneLive<P>(c: Core<P>, path: string)
    requires CoreInv(c) && path in c.timers
    ensures exists t :: LiveFor(c, t, path)
    ensures forall t, u :: LiveFor(c, t, path) && LiveFor(c, u, path) ==> t == u
  {
    assert Awaited(c, path);
    var t := c.entries[c.timers[path]].timer;
    assert LiveFor(c, t, path);
    forall t, u | LiveFor(c, t, path) && LiveFor(c, u, path) ensures t == u {
      LiveIsLatest(c, t);
      LiveIsLatest(c, u);
    }
  }

  /** Any other callback does nothing but disappear. */
  lemma OthersDoNothing<P>(c: Core<P>, t: nat, stat: Stat)
    requires CoreInv(c) && t in c.out
    requires !(Pending(c, c.out[t]) && t == c.entries[c.out[t].entry].timer)
    ensures Check(c, t, stat) == c.(out := c.out - {t}) && Judge(c, t, stat) == Stale
  {
    LiveIsLatest(c, t);
  }

  /** Deleting and recreating a path: no callback of the old entry can act on the new one, even
      when their generation numbers are equal. */
  lemma RecreatedEntrySafe<P>(c: Core<P>, path: string, size: int, newcomer: P, t: nat, stat: Stat)
    requires CoreInv(c) && path !in c.timers && newcomer !in c.entries && t in c.out && c.out[t].path == path
    ensures t in Schedule(c, path, size, newcomer).out
    ensures Judge(Schedule(c, path, size, newcomer), t, stat) == Stale
  {
    assert NotAhead(c, t);
  }

  /** The generation counter alone would not do: here an old callback that has already fired and a
      recreated entry of the same path are of the same generation, and only the entry's identity
      tells them apart. */
  lemma GenerationsCanCoincide(path: string) returns (c: Core<nat>, t: nat)
    ensures CoreInv(c) && t in c.out && c.out[t].fired
    ensures c.out[t].path == path && path in c.timers && c.out[t].gen == c.entries[c.timers[path]].gen
    ensures Judge(c, t, Size(5)).Stale?
  {
    var c0 := Core<nat>.Core(map[], map[], map[], 0);
    ScheduleKeepsInv(c0, path, 5, 0);
    var c1 := Schedule(c0, path, 5, 0);
    FireKeepsInv(c1, 0);
    var c2 := Fire(c1, 0);
    CloseKeepsInv(c2);
    var c3 := CloseAll(c2);
    ScheduleKeepsInv(c3, path, 5, 1);
    c, t := Schedule(c3, path, 5, 1), 0;
  }
}
