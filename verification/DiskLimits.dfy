/** Two short runs showing that neither hypothesis of the no-overrun theorem can be dropped:
    with a stale free-space sample, or with two jobs in one directory, the admitted jobs can
    still have more to write than the disk has room for. */
module DiskLimits {
  import opened Sums
  import opened SpaceLedger
  import opened Disk
  import opened DiskSafety

  /** A run under construction: it can be continued by any enabled action. */
  lemma Continue(states: seq<State>, acts: seq<Action>, a: Action) returns (states': seq<State>, acts': seq<Action>)
    requires IsRun(states, acts) && Enabled(states[|acts|], a)
    ensures states' == states + [Step(states[|acts|], a)] && acts' == acts + [a]
    ensures IsRun(states', acts')
  {
    states' := states + [Step(states[|acts|], a)];
    acts' := acts + [a];
    forall i | 0 <= i < |acts'| ensures Enabled(states'[i], acts'[i]) && states'[i + 1] == Step(states'[i], acts'[i]) {
      if i < |acts| {
        assert states'[i] == states[i] && acts'[i] == acts[i] && states'[i + 1] == states[i + 1];
      }
    }
  }

  /** Jobs never leave the records nor change directory. */
  lemma {:induction false} DirsFixed(states: seq<State>, acts: seq<Action>, i: nat, k: nat)
    requires IsRun(states, acts) && i <= k < |states|
    ensures forall j :: j in states[i].jobs ==> j in states[k].jobs && states[k].jobs[j].dir == states[i].jobs[j].dir
    decreases k - i
  {
    if i < k {
      assert states[i + 1] == Step(states[i], acts[i]) && Enabled(states[i], acts[i]);
      DirsFixed(states, acts, i + 1, k);
    }
  }

  /** A run whose jobs all have different directories has exclusive directories throughout. */
  lemma DifferentDirsExclusive(states: seq<State>, acts: seq<Action>)
    requires IsRun(states, acts)
    requires var jobs := states[|acts|].jobs;
      forall i, j :: i in jobs && j in jobs && i != j ==> jobs[i].dir != jobs[j].dir
    ensures forall k :: 0 <= k < |states| ==> ExclusiveDirs(states[k])
  {
    forall k | 0 <= k < |states| ensures ExclusiveDirs(states[k]) {
      DirsFixed(states, acts, k, |acts|);
    }
  }

  lemma Lone(r: Reservation, n: nat)
    ensures Total(map[r := n]) == n && DirTotal(map[r := n], r.dir) == n
  {
    TotalUpdate(map[], r, n);
    assert InDir(map[r := n], r.dir) == map[r := n];
  }

  /** A new job samples the free bytes and is admitted at once. */
  lemma Join(states: seq<State>, acts: seq<Action>, j: nat, dir: string, need: nat)
    returns (states': seq<State>, acts': seq<Action>)
    requires IsRun(states, acts) && SamplesFresh(acts)
    requires var s := states[|acts|]; j !in s.jobs && s.free - s.ledger.reserved >= need
    ensures IsRun(states', acts') && SamplesFresh(acts')
    ensures var s, r := states[|acts|], Reservation(j, FILESYSTEM, dir);
      states'[|acts'|] == State(s.free, Slice(s.ledger.reserved + need, s.ledger.rem[r := need]),
                                s.jobs[j := Job(dir, need, Running, 0, 0)], s.window)
  {
    states', acts' := Continue(states, acts, Arrive(j, dir, need));
    states', acts' := Continue(states', acts', Sample(j));
    states', acts' := Continue(states', acts', Admit(j));
  }

  /** Job 1 has sampled 100 free bytes and job 0 has then written its 50. */
  lemma SampleGrowsStale() returns (states: seq<State>, acts: seq<Action>)
    ensures IsRun(states, acts)
    ensures states[|acts|] == State(50, Slice(50, map[Reservation(0, FILESYSTEM, "a") := 50]),
      map[0 := Job("a", 50, Running, 50, 0), 1 := Job("b", 100, Sampled(100, 50), 0, 0)], 0)
  {
    states, acts := [State(100, Slice(0, map[]), map[], 0)], [];
    states, acts := Join(states, acts, 0, "a", 50);
    states, acts := Continue(states, acts, Arrive(1, "b", 100));
    states, acts := Continue(states, acts, Sample(1));
    states, acts := Continue(states, acts, Write(0, 50));
  }

  /** Job 0 reports its bytes. */
  lemma StaleSampleWaits() returns (states: seq<State>, acts: seq<Action>)
    ensures IsRun(states, acts)
    ensures states[|acts|] == State(50, Slice(0, map[Reservation(0, FILESYSTEM, "a") := 0]),
      map[0 := Job("a", 50, Running, 50, 50), 1 := Job("b", 100, Sampled(100, 50), 0, 0)], 0)
  {
    states, acts := SampleGrowsStale();
    var r := Reservation(0, FILESYSTEM, "a");
    Lone(r, 50);
    Lone(r, 0);
    states, acts := Continue(states, acts, Report(0, 50, Slice(0, map[r := 0])));
  }

  /** Job 1's stale sample meets an empty ledger and is admitted for 100 bytes with 50 left on the
      disk. */
  lemma StaleSampleOverruns() returns (states: seq<State>, acts: seq<Action>)
    ensures IsRun(states, acts) && forall k :: 0 <= k < |states| ==> ExclusiveDirs(states[k])
    ensures states[|acts|].jobs == map[0 := Job("a", 50, Running, 50, 50), 1 := Job("b", 100, Running, 0, 0)]
    ensures states[|acts|].free == 50 && !Roomy(states[|acts|])
  {
    states, acts := StaleSampleWaits();
    states, acts := Continue(states, acts, Admit(1));
    DifferentDirsExclusive(states, acts);
    TwoToWrite(states[|acts|].jobs, 0, 1);
  }

  /** What two jobs have to write they have to write together, if nobody else runs. */
  lemma TwoToWrite(jobs: map<nat, Job>, i: nat, k: nat)
    requires i in jobs && k in jobs && i != k
    requires forall j :: j in jobs && j != i && j != k ==> Unwritten(jobs[j]) == 0
    ensures TotalUnwritten(jobs) == Unwritten(jobs[i]) + Unwritten(jobs[k])
  {
    var m := UnwrittenBy(jobs);
    TotalRemove(m, i);
    TotalRemove(m - {i}, k);
    TotalZero(m - {i} - {k});
  }

  /** Jobs 0 and 1 write into one directory; job 0 has written its 50 bytes. */
  lemma TwoInOneDirectory() returns (states: seq<State>, acts: seq<Action>)
    ensures IsRun(states, acts) && SamplesFresh(acts)
    ensures var a, b := Reservation(0, FILESYSTEM, "d"), Reservation(1, FILESYSTEM, "d");
      states[|acts|] == State(50, Slice(100, map[a := 50, b := 50]),
                              map[0 := Job("d", 50, Running, 50, 0), 1 := Job("d", 50, Running, 0, 0)], 0)
  {
    states, acts := [State(100, Slice(0, map[]), map[], 0)], [];
    states, acts := Join(states, acts, 0, "d", 50);
    states, acts := Join(states, acts, 1, "d", 50);
    states, acts := Continue(states, acts, Write(0, 50));
  }

  /** Its report is charged to job 1. */
  lemma NeighbourCharged() returns (states: seq<State>, acts: seq<Action>)
    ensures IsRun(states, acts) && SamplesFresh(acts)
    ensures var a, b := Reservation(0, FILESYSTEM, "d"), Reservation(1, FILESYSTEM, "d");
      states[|acts|] == State(50, Slice(50, map[a := 50, b := 0]),
                              map[0 := Job("d", 50, Running, 50, 50), 1 := Job("d", 50, Running, 0, 0)], 0)
  {
    var a, b := Reservation(0, FILESYSTEM, "d"), Reservation(1, FILESYSTEM, "d");
    states, acts := TwoInOneDirectory();
    var m := map[a := 50, b := 50];
    ChargedToNeighbour(m, a, b);
    assert m[b := 0] == map[a := 50, b := 0];
    states, acts := Continue(states, acts, Report(0, 50, Slice(50, m[b := 0])));
  }

  /** Job 0 ends and its release gives back 50 bytes that are still spoken for, so job 2 is let in
      although jobs 1 and 2 together have 100 bytes to write and the disk has 50. */
  lemma SharedDirectoryOverruns() returns (states: seq<State>, acts: seq<Action>)
    ensures IsRun(states, acts) && SamplesFresh(acts)
    ensures states[|acts|].jobs == map[0 := Job("d", 50, Gone, 50, 50), 1 := Job("d", 50, Running, 0, 0),
                                       2 := Job("e", 50, Running, 0, 0)]
    ensures states[|acts|].free == 50 && !Roomy(states[|acts|])
  {
    states, acts := NeighbourCharged();
    states, acts := Continue(states, acts, End(0, 0));
    states, acts := Continue(states, acts, Drop(0));
    states, acts := Join(states, acts, 2, "e", 50);
    TwoToWrite(states[|acts|].jobs, 1, 2);
  }

  /** The order in which the map yields b first: the loop of shrinkDir takes all 50 bytes there. */
  lemma ChargedToNeighbour(m: Remainders, a: Reservation, b: Reservation)
    requires a != b && a.dir == b.dir && m == map[a := 50, b := 50]
    ensures IterationOrder([b, a], m.Keys) && ShrinkInOrder(m, [b, a], a.dir, 50) == m[b := 0]
    ensures ShrinksTo(Slice(100, m), Slice(50, m[b := 0]), a.dir, 50)
  {
    assert ShrinkInOrder(m, [b, a], a.dir, 50) == m[b := 0];
    ShrinkConserves(m, [b, a], a.dir, 50);
    TotalUpdate(map[a := 50], b, 50);
    TotalUpdate(map[], a, 50);
    assert InDir(m, a.dir) == m;
  }
}
