/** SpaceGuard in its own form: the two maps updated in place, each method one critical
    section, and the polling loop of acquire with other workers' sections in between. */
module SpaceGuards {
  import opened Sums
  import opened SpaceLedger
  import opened Options

  /** What one attempt reads from the system: the free-byte count and the filesystem key, each
      of which may be unreadable. */
  datatype Probe = Probe(free: Option<int>, key: Option<string>)

  /** One wake-up of a waiting acquire: other workers ran `others` since the last attempt, then
      either the context was cancelled or the timer fired. */
  datatype Poll = Poll(others: seq<Op>, event: PollEvent)
  datatype PollEvent = Cancel | Tick(probe: Probe)

  datatype Outcome = Acquired(r: Reservation) | NoSpace | Cancelled | StillWaiting

  /** The condition on which an attempt at ledger l succeeds. */
  predicate Fits(l: Ledger, probe: Probe, need: int) {
    probe.free.None? || probe.key.None? || Admits(Reserved(l, probe.key.value), probe.free.value, need)
  }

  predicate Keyless(probe: Probe) {
    probe.free.None? || probe.key.None?
  }

  ghost predicate KnownKey(probe: Probe) {
    probe.key.Some? ==> probe.key.value != ""
  }

  /** A successful attempt's effect: nothing on an unreadable mount, one new entry otherwise. */
  ghost predicate Grants(l: Ledger, l': Ledger, probe: Probe, dir: string, need: nat, r: Reservation) {
    if Keyless(probe) then l' == l && r.key == "" && r.dir == dir
    else r.key == probe.key.value && r.dir == dir && !Holds(l, r) && l' == Add(l, r, need)
  }

  function IdsAfter(ops: seq<Op>, n: nat): nat
    decreases |ops|
  {
    if ops == [] then n
    else IdsAfter(ops[1..], if ops[0].OpReserve? && ops[0].r.id >= n then ops[0].r.id + 1 else n)
  }

  ghost predicate IdsBelow(l: Ledger, n: nat) {
    forall key, r :: r in JobsOf(l, key) ==> r.id < n
  }

  lemma ApplyIdsBelow(l: Ledger, op: Op, n: nat, n': nat)
    requires Legal(l, op) && IdsBelow(l, n) && n <= n' && (op.OpReserve? ==> op.r.id < n')
    ensures IdsBelow(Apply(l, op), n')
  {
    forall key, r | r in JobsOf(Apply(l, op), key) ensures r.id < n' {
      assert r in JobsOf(l, key) || (op.OpReserve? && r == op.r);
    }
  }

  lemma {:induction false} IdsStayBelow(l: Ledger, ops: seq<Op>, n: nat)
    requires LegalRun(l, ops) && IdsBelow(l, n)
    ensures IdsBelow(RunOps(l, ops), IdsAfter(ops, n))
    decreases |ops|
  {
    if ops != [] {
      var op := ops[0];
      var n' := if op.OpReserve? && op.r.id >= n then op.r.id + 1 else n;
      ApplyIdsBelow(l, op, n, n');
      IdsStayBelow(Apply(l, op), ops[1..], n');
    }
  }

  /** The ledger a waiting acquire meets at poll i, had it not touched the ledger itself. */
  ghost function LedgerAt(l: Ledger, polls: seq<Poll>, i: nat): Ledger
    requires i <= |polls|
    decreases i
  {
    if i == 0 then l
    else
      var before := LedgerAt(l, polls, i - 1);
      if LegalRun(before, polls[i - 1].others) then RunOps(before, polls[i - 1].others) else before
  }

  ghost predicate LegalPolls(l: Ledger, polls: seq<Poll>) {
    forall i :: 0 <= i < |polls| ==>
      && LegalRun(LedgerAt(l, polls, i), polls[i].others)
      && (polls[i].event.Tick? ==> KnownKey(polls[i].event.probe))
  }

  /** Poll i leaves the acquire waiting. */
  ghost predicate Passes(l: Ledger, polls: seq<Poll>, i: nat, need: int)
    requires i < |polls|
  {
    polls[i].event.Tick? && !Fits(LedgerAt(l, polls, i + 1), polls[i].event.probe, need)
  }

  /** How one turn of the waiting loop ends, from the ledger l the poll meets to l' after it. */
  ghost predicate PollEnds(l: Ledger, l': Ledger, event: PollEvent, dir: string, need: nat, out: Outcome) {
    match out
    case Acquired(r) => event.Tick? && Fits(l, event.probe, need) && Grants(l, l', event.probe, dir, need, r)
    case Cancelled => event.Cancel? && l' == l
    case StillWaiting => event.Tick? && !Fits(l, event.probe, need) && l' == l
    case NoSpace => false
  }

  /** The first `used` polls of an acquire that began at ledger l: all but the last one left it
      waiting, the last one ended as `out`, and the ledger is l' now. */
  ghost predicate Polled(l: Ledger, l': Ledger, polls: seq<Poll>, used: nat, dir: string, need: nat, out: Outcome)
    requires used <= |polls|
  {
    && (used == 0 ==> l' == l && out.StillWaiting?)
    && (used > 0 ==> PollEnds(LedgerAt(l, polls, used), l', polls[used - 1].event, dir, need, out))
    && forall i :: 0 <= i < used - 1 ==> Passes(l, polls, i, need)
  }

  lemma PolledWaiting(l: Ledger, l1: Ledger, polls: seq<Poll>, used: nat, dir: string, need: nat)
    requires LegalPolls(l, polls) && used < |polls| && Polled(l, l1, polls, used, dir, need, StillWaiting)
    ensures LegalRun(l1, polls[used].others) && LedgerAt(l, polls, used + 1) == RunOps(l1, polls[used].others)
    ensures polls[used].event.Tick? ==> KnownKey(polls[used].event.probe)
    ensures forall i :: 0 <= i < used ==> Passes(l, polls, i, need)
  {
    assert l1 == LedgerAt(l, polls, used);
  }

  /** The range loop of shrinkDir over the reservations of one filesystem. It visits them in
      whatever order the map yields them (`order`), takes what it can from each one writing into
      dir, and stops once n is used up; `touched` tells whether it met any. */
  method ShrinkLoop(m0: Remainders, dir: string, n: nat)
    returns (m: Remainders, remaining: int, touched: bool, ghost order: seq<Reservation>)
    requires n > 0
    ensures IterationOrder(order, m0.Keys)
    ensures m == ShrinkInOrder(m0, order, dir, n) && remaining == LeftInOrder(m0, order, dir, n)
    ensures touched <==> Touches(m0, dir)
  {
    m, remaining, touched, order := m0, n, false, [];
    var todo := m0.Keys;
    while todo != {} && remaining != 0
      invariant todo <= m0.Keys && m.Keys == m0.Keys
      invariant IterationOrder(order, m0.Keys - todo)
      invariant m == ShrinkInOrder(m0, order, dir, n) && remaining == LeftInOrder(m0, order, dir, n)
      invariant touched <==> exists r :: r in order && r.dir == dir
      invariant !touched ==> remaining == n
      decreases todo
    {
      var r :| r in todo;
      ghost var visited := order;
      todo := todo - {r};
      order := visited + [r];
      assert forall x :: x in order <==> x in visited || x == r;
      ShrinkAppend(m0, visited, [r], dir, n);
      if r.dir == dir {
        var d := Min(m[r], remaining);
        m := m[r := m[r] - d];
        remaining := remaining - d;
        touched := true;
      }
    }
    order := WholeOrder(m0, order, todo, dir, n);
  }

  /** An order cut short by the early exit can be completed by the reservations it left out. */
  lemma WholeOrder(m: Remainders, visited: seq<Reservation>, todo: set<Reservation>, dir: string, n: nat)
    returns (order: seq<Reservation>)
    requires todo <= m.Keys && IterationOrder(visited, m.Keys - todo)
    requires todo == {} || LeftInOrder(m, visited, dir, n) == 0
    ensures IterationOrder(order, m.Keys)
    ensures ShrinkInOrder(m, order, dir, n) == ShrinkInOrder(m, visited, dir, n)
    ensures LeftInOrder(m, order, dir, n) == LeftInOrder(m, visited, dir, n)
  {
    var rest := SomeOrder(todo);
    assert rest != [] ==> rest[0] in todo;
    OrderJoin(visited, rest, m.Keys - todo, todo);
    assert m.Keys - todo + todo == m.Keys;
    order := visited + rest;
    NothingLeft(m, visited, rest, dir, n);
  }

  lemma NothingLeft(m: Remainders, visited: seq<Reservation>, rest: seq<Reservation>, dir: string, n: nat)
    requires forall r :: r in visited + rest ==> r in m
    requires forall r :: r in visited ==> r in m
    requires rest == [] || LeftInOrder(m, visited, dir, n) == 0
    ensures ShrinkInOrder(m, visited + rest, dir, n) == ShrinkInOrder(m, visited, dir, n)
    ensures LeftInOrder(m, visited + rest, dir, n) == LeftInOrder(m, visited, dir, n)
  {
    ShrinkAppend(m, visited, rest, dir, n);
  }

  lemma ShrinkSection(l: Ledger, key: string, order: seq<Reservation>, dir: string, n: nat, ids: nat)
    requires SpaceLedger.Valid(l) && IdsBelow(l, ids) && IterationOrder(order, JobsOf(l, key).Keys)
    ensures SpaceLedger.Valid(Shrink(l, key, order, dir, n)) && IdsBelow(Shrink(l, key, order, dir, n), ids)
  {
    var op := OpShrink(key, order, dir, n);
    ApplyKeepsValid(l, op);
    ApplyIdsBelow(l, op, ids, ids);
  }

  class SpaceGuard {
    var reserved: map<string, int>
    var jobs: map<string, Remainders>
    var nextId: nat // the identity of the next reservation object

    ghost function View(): Ledger
      reads this
    {
      Ledger(reserved, jobs)
    }

    ghost predicate Valid()
      reads this
    {
      SpaceLedger.Valid(View()) && IdsBelow(View(), nextId)
    }

    constructor ()
      ensures Valid() && View() == EMPTY
    {
      reserved, jobs, nextId := map[], map[], 0;
    }

    method Reserve(probe: Probe, dir: string, need: nat) returns (r: Option<Reservation>)
      requires Valid() && KnownKey(probe)
      modifies this
      ensures Valid()
      ensures r.Some? <==> Fits(old(View()), probe, need)
      ensures r.None? <==>
        && probe.free.Some? && probe.key.Some?
        && need > probe.free.value - (if probe.key.value in old(reserved) then old(reserved)[probe.key.value] else 0)
      ensures r.Some? ==> Grants(old(View()), View(), probe, dir, need, r.value)
      ensures r.None? ==> View() == old(View())
    {
      if probe.free.None? || probe.key.None? {
        r := Some(Reservation(nextId, "", dir));
        nextId := nextId + 1;
        return;
      }
      var key := probe.key.value;
      var total := if key in reserved then reserved[key] else 0;
      if probe.free.value - total < need {
        return None;
      }
      var newcomer := Reservation(nextId, key, dir);
      ghost var was := View();
      ghost var op := OpReserve(newcomer, probe.free.value, need);
      assert Legal(was, op) && Apply(was, op) == Add(was, newcomer, need);
      ApplyKeepsValid(was, op);
      ApplyIdsBelow(was, op, nextId, nextId + 1);
      var mates := if key in jobs then jobs[key] else map[];
      reserved := reserved[key := total + need];
      jobs := jobs[key := mates[newcomer := need]];
      nextId := nextId + 1;
      assert View() == Add(was, newcomer, need);
      r := Some(newcomer);
    }

    method ReleaseReservation(r: Option<Reservation>)
      requires Valid()
      modifies this
      ensures Valid()
      ensures View() == if r.None? then old(View()) else Release(old(View()), r.value)
    {
      if r.None? || r.value.key == "" {
        return;
      }
      var key := r.value.key;
      if key !in jobs || r.value !in jobs[key] {
        return;
      }
      ghost var was := View();
      ApplyKeepsValid(was, OpRelease(r.value));
      ApplyIdsBelow(was, OpRelease(r.value), nextId, nextId);
      var left := jobs[key][r.value];
      var others := jobs[key] - {r.value};
      var total := (if key in reserved then reserved[key] else 0) - left;
      jobs := if others == map[] then jobs - {key} else jobs[key := others];
      reserved := if total <= 0 then reserved - {key} else reserved[key := total];
      assert View() == Release(was, r.value);
    }

    /** The ledger is shrunk in some order in which the map may yield its reservations;
        ShrinkEffect says what that means for every such order. */
    method ShrinkDir(key: Option<string>, dir: string, n: nat) returns (ghost order: seq<Reservation>)
      requires Valid() && n > 0
      modifies this
      ensures Valid()
      ensures key.None? ==> View() == old(View())
      ensures key.Some? ==>
        && IterationOrder(order, JobsOf(old(View()), key.value).Keys)
        && View() == Shrink(old(View()), key.value, order, dir, n)
    {
      order := [];
      if key.None? {
        return;
      }
      var k := key.value;
      ghost var was := View();
      var m, total := if k in jobs then jobs[k] else map[], if k in reserved then reserved[k] else 0;
      var touched, left;
      m, left, touched, order := ShrinkLoop(m, dir, n);
      total := total - (n - left);
      ShrinkSection(was, k, order, dir, n, nextId);
      if touched {
        jobs := jobs[k := m];
        reserved := reserved[k := if total < 0 then 0 else total];
      }
      assert View() == Shrink(was, k, order, dir, n);
    }

    /** Other workers' critical sections, in between two of this worker's own. */
    method Interfere(ops: seq<Op>)
      requires Valid() && LegalRun(View(), ops)
      modifies this
      ensures Valid() && View() == RunOps(old(View()), ops)
    {
      LedgerAlwaysConsistent(View(), ops);
      IdsStayBelow(View(), ops, nextId);
      var l := RunOps(Ledger(reserved, jobs), ops);
      reserved, jobs, nextId := l.reserved, l.jobs, IdsAfter(ops, nextId);
    }

    /** One turn of the waiting loop: the others' sections, then the poll itself. */
    method PollOnce(poll: Poll, dir: string, need: nat) returns (out: Outcome)
      requires Valid() && LegalRun(View(), poll.others)
      requires poll.event.Tick? ==> KnownKey(poll.event.probe)
      modifies this
      ensures Valid()
      ensures PollEnds(RunOps(old(View()), poll.others), View(), poll.event, dir, need, out)
    {
      Interfere(poll.others);
      match poll.event {
        case Cancel =>
          return Cancelled;
        case Tick(probe) =>
          var r := Reserve(probe, dir, need);
          return if r.Some? then Acquired(r.value) else StillWaiting;
      }
    }

    /** acquire: without wait exactly one attempt; with wait, the first poll at which the need
        fits or the context is cancelled decides, and until then the ledger is exactly what the
        other workers made of it, so a waiter holds nothing while it waits. */
    method Acquire(first: Probe, polls: seq<Poll>, dir: string, need: nat, wait: bool)
      returns (out: Outcome, used: nat)
      requires Valid() && KnownKey(first) && LegalPolls(View(), polls)
      modifies this
      ensures Valid() && used <= |polls|
      ensures Fits(old(View()), first, need) ==>
        used == 0 && out.Acquired? && Grants(old(View()), View(), first, dir, need, out.r)
      ensures !Fits(old(View()), first, need) && !wait ==>
        used == 0 && out == NoSpace && View() == old(View())
      ensures !Fits(old(View()), first, need) && wait ==>
        out != NoSpace && Polled(old(View()), View(), polls, used, dir, need, out)
      ensures out.StillWaiting? ==> used == |polls|
    {
      var r := Reserve(first, dir, need);
      if r.Some? {
        return Acquired(r.value), 0;
      }
      if !wait {
        return NoSpace, 0;
      }
      out, used := AwaitRoom(polls, dir, need);
    }

    method AwaitRoom(polls: seq<Poll>, dir: string, need: nat) returns (out: Outcome, used: nat)
      requires Valid() && LegalPolls(View(), polls)
      modifies this
      ensures Valid() && used <= |polls| && out != NoSpace
      ensures Polled(old(View()), View(), polls, used, dir, need, out)
      ensures out.StillWaiting? ==> used == |polls|
    {
      ghost var was := View();
      out, used := StillWaiting, 0;
      while used < |polls| && out.StillWaiting?
        invariant Valid() && used <= |polls| && out != NoSpace
        invariant Polled(was, View(), polls, used, dir, need, out)
      {
        PolledWaiting(was, View(), polls, used, dir, need);
        out := PollOnce(polls[used], dir, need);
        used := used + 1;
      }
    }
  }

  lemma OrderJoin(a: seq<Reservation>, b: seq<Reservation>, s: set<Reservation>, t: set<Reservation>)
    requires IterationOrder(a, s) && IterationOrder(b, t) && s !! t
    ensures IterationOrder(a + b, s + t)
  {
    var c := a + b;
    forall i, j | 0 <= i < j < |c| ensures c[i] != c[j] {
      if i < |a| <= j {
        assert c[i] in a && c[j] == b[j - |a|] && b[j - |a|] in b;
      }
    }
    forall r ensures r in c <==> r in s + t {
      assert r in c <==> r in a || r in b;
    }
  }

  /** Once every reservation of a filesystem is released, any waiter whose need fits the free
      bytes is let in by its next attempt, whatever the other waiters want. */
  lemma IdleFilesystemAdmits(l: Ledger, rs: seq<Reservation>, key: string, free: int, need: nat)
    requires SpaceLedger.Valid(l) && forall r :: r in JobsOf(l, key) ==> r in rs
    ensures Fits(ReleaseAll(l, rs), Probe(Some(free), Some(key)), need) <==> need <= free
  {
    ReleaseAllForgetsKey(l, rs, key);
  }
}
