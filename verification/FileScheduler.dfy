/** The scheduler in its own form: pending entries are objects updated in place under the lock.
    `out` stands for the runtime's list of outstanding timer callbacks. */
module FileSchedulers {
  import opened SchedulerModel
  import opened Options

  class PendingFile {
    var size: int
    var gen: nat
    var timer: nat

    constructor (size: int)
      ensures this.size == size && gen == 0 && timer == 0
    {
      this.size, gen, timer := size, 0, 0;
    }
  }

  class FileScheduler {
    var timers: map<string, PendingFile>
    var out: map<nat, Callback<PendingFile>>
    var nextTimer: nat
    ghost var made: set<PendingFile> // every entry ever made; callbacks keep old ones alive

    ghost function View(): Core<PendingFile>
      reads this, made
    {
      Core(timers, map p | p in made :: Entry(p.size, p.gen, p.timer), out, nextTimer)
    }

    /** Nothing dangles. Each method acts exactly as a function of SchedulerModel, and those
        functions keep the full invariant CoreInv. */
    ghost predicate Valid()
      reads this, made
    {
      Closed(View())
    }

    constructor ()
      ensures Valid() && fresh(made) && View() == Core(map[], map[], map[], 0)
    {
      timers, out, nextTimer, made := map[], map[], 0, {};
    }

    /** armLocked: the next generation of p gets a timer of its own. */
    method Arm(path: string, p: PendingFile)
      requires p in made
      modifies this`out, this`nextTimer, p`gen, p`timer
      ensures View() == SchedulerModel.Arm(old(View()), path, p, old(p.size), old(p.gen))
    {
      p.gen := p.gen + 1;
      p.timer := nextTimer;
      out := out[nextTimer := Callback(path, p, p.gen, false)];
      nextTimer := nextTimer + 1;
      assert View().entries == old(View()).entries[p := Entry(p.size, p.gen, p.timer)];
    }

    /** time.Timer.Stop: a callback that has already fired cannot be withdrawn. */
    method StopTimer(t: nat)
      modifies this`out
      ensures out == Stop(old(out), t)
    {
      if t in out && !out[t].fired {
        out := out - {t};
      }
    }

    method Enter(path: string, size: int) returns (p: PendingFile)
      modifies this`timers, this`made
      ensures fresh(p) && timers == old(timers)[path := p] && made == old(made) + {p}
      ensures p.size == size && p.gen == 0 && View().entries == old(View()).entries[p := Entry(size, 0, 0)]
    {
      p := new PendingFile(size);
      timers := timers[path := p];
      made := made + {p};
    }

    /** schedule: p is the entry of the path from now on, a new one unless it had one. */
    method Schedule(path: string, stat: Option<nat>) returns (p: PendingFile)
      requires Valid()
      modifies this, made
      ensures Valid() && made == old(made) + {p} && (path in old(timers) || fresh(p))
      ensures View() == SchedulerModel.Schedule(old(View()), path, if stat.Some? then stat.value else -1, p)
    {
      var size: int := if stat.Some? then stat.value else -1;
      if path in timers {
        p := timers[path];
        Renew(path, p, size);
      } else {
        p := EnterAndArm(path, size);
      }
    }

    method EnterAndArm(path: string, size: int) returns (p: PendingFile)
      requires Valid()
      modifies this
      ensures fresh(p) && made == old(made) + {p}
      ensures View() == SchedulerModel.Arm(old(View()).(timers := old(timers)[path := p]), path, p, size, 0)
    {
      p := Enter(path, size);
      Arm(path, p);
    }

    method Renew(path: string, p: PendingFile, size: int)
      requires p in made
      modifies this`out, this`nextTimer, p
      ensures View() == SchedulerModel.Arm(old(View()).(out := Stop(old(out), old(p.timer))), path, p, size, old(p.gen))
    {
      StopTimer(p.timer);
      Resize(path, p, size);
    }

    method Resize(path: string, p: PendingFile, size: int)
      requires p in made
      modifies this`out, this`nextTimer, p
      ensures View() == SchedulerModel.Arm(old(View()), path, p, size, old(p.gen))
    {
      p.size := size;
      assert View().entries == old(View()).entries[p := Entry(size, p.gen, p.timer)];
      Arm(path, p);
    }

    /** The runtime's side: a timer runs out and its callback starts waiting for the lock. */
    method Expire(t: nat)
      requires Valid() && t in out
      modifies this`out
      ensures Valid() && View() == Fire(old(View()), t)
    {
      out := out[t := out[t].(fired := true)];
    }

    /** checkAndSubmit up to where the lock is given up; the path to submit is returned. */
    method CheckAndSubmit(t: nat, stat: Stat) returns (submit: Option<string>)
      requires Valid() && t in out && out[t].fired
      modifies this, made
      ensures Valid() && made == old(made)
      ensures View() == Check(old(View()), t, stat)
      ensures submit == if Judge(old(View()), t, stat).Settled? then Some(old(out[t].path)) else None
      ensures submit.Some? <==>
        && old(out[t].path) in old(timers) && old(timers)[old(out[t].path)] == old(out[t].entry)
        && old(out[t].entry.gen) == old(out[t].gen) && stat.Size? && stat.n == old(out[t].entry.size)
    {
      var path, p, gen := out[t].path, out[t].entry, out[t].gen;
      ghost var was := View();
      assert was.entries[p] == Entry(p.size, p.gen, p.timer);
      out := out - {t};
      submit := None;
      if path !in timers || timers[path] != p || p.gen != gen {
        return;
      }
      match stat {
        case NotExist => timers := timers - {path};
        case IoError => Arm(path, p);
        case Size(n) =>
          if n != p.size {
            Resize(path, p, n);
          } else {
            timers := timers - {path};
            submit := Some(path);
          }
      }
      assert View().entries == Check(was, t, stat).entries;
    }

    ghost function TimerSet(pending: map<string, PendingFile>, paths: set<string>): set<nat>
      requires paths <= pending.Keys
      reads pending.Values
    {
      set path | path in paths :: pending[path].timer
    }

    /** Stops the timers of all entries of a map, in whatever order it yields them. */
    method StopAll(pending: map<string, PendingFile>)
      modifies this`out
      ensures out == Unstopped(old(out), TimerSet(pending, pending.Keys))
    {
      var todo := pending.Keys;
      while todo != {}
        invariant todo <= pending.Keys
        invariant out == Unstopped(old(out), TimerSet(pending, pending.Keys - todo))
        decreases todo
      {
        var path :| path in todo;
        ghost var done := pending.Keys - todo;
        todo := todo - {path};
        StopTimer(pending[path].timer);
        assert pending.Keys - todo == done + {path};
        assert TimerSet(pending, pending.Keys - todo) == TimerSet(pending, done) + {pending[path].timer};
      }
      assert pending.Keys - todo == pending.Keys;
    }

    /** Close up to where the lock is given up; the flushed paths are submitted afterwards. */
    method Close() returns (flushed: set<string>)
      requires Valid()
      modifies this
      ensures Valid() && made == old(made)
      ensures View() == CloseAll(old(View())) && flushed == old(timers).Keys
    {
      ghost var was := View();
      var pending := timers;
      timers := map[];
      StopAll(pending);
      flushed := pending.Keys;
      assert forall path :: path in pending ==> was.entries[pending[path]].timer == pending[path].timer;
      assert TimerSet(pending, pending.Keys) == TimersOf(was);
    }
  }
}
