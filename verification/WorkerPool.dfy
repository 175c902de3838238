/** The queue in its own form: the dedup set, the channel's buffer and the wait counter updated in
    place. Each small method is one atomic operation of the program; Submit and WorkOne run them in
    the program's order, here without interruption. `model` is the ghost record of whose operation
    it was, by which every method is one or more steps of QueueModel. */
module WorkerPool {
  import opened QueueModel

  /** The channel holds the paths of the buffered jobs, in order. */
  ghost predicate Mirrors(q: Queue, buffer: seq<string>) {
    && |buffer| == |q.buffer|
    && forall k :: 0 <= k < |buffer| ==> q.buffer[k] in q.jobs && buffer[k] == q.jobs[q.buffer[k]].path
  }

  /** Steps that leave the buffer alone never change a job's path. */
  lemma StepMirrors(q: Queue, a: Action, buffer: seq<string>)
    requires Mirrors(q, buffer) && Enabled(q, a) && !a.Send? && !a.Receive?
    ensures Mirrors(Step(q, a), buffer)
  {
  }

  lemma SendMirrors(q: Queue, id: nat, path: string, buffer: seq<string>)
    requires Mirrors(q, buffer) && Enabled(q, Send(id)) && q.jobs[id].path == path
    ensures Mirrors(Step(q, Send(id)), buffer + [path])
  {
  }

  lemma ReceiveMirrors(q: Queue, w: nat, buffer: seq<string>)
    requires Mirrors(q, buffer) && Enabled(q, Receive(w))
    ensures q.buffer[0] in q.jobs && buffer[0] == q.jobs[q.buffer[0]].path
    ensures Mirrors(Step(q, Receive(w)), buffer[1..])
  {
  }

  class Pool {
    const workers: nat
    var inflight: set<string>
    var buffer: seq<string>
    var pending: int
    ghost var model: Queue

    ghost predicate Valid()
      reads this
    {
      && Inv(model)
      && workers == model.workers && inflight == model.inflight.Keys && pending == model.pending
      && Mirrors(model, buffer)
    }

    constructor (workers: int)
      ensures Valid() && model == New(workers)
      ensures this.workers == (if workers < 1 then 1 else workers) && buffer == [] && inflight == {} && pending == 0
    {
      this.workers := if workers < 1 then 1 else workers;
      inflight, buffer, pending := {}, [], 0;
      model := New(workers);
      new;
      NewKeepsInv(workers);
    }

    method LoadOrStore(path: string, ghost id: nat) returns (loaded: bool)
      requires Valid() && id !in model.jobs
      modifies this`inflight, this`model
      ensures Valid() && model == Step(old(model), Store(id, path))
      ensures loaded == (path in old(inflight)) && inflight == old(inflight) + {path}
      ensures !loaded ==> At(model, id, Stored) && model.jobs[id].path == path
    {
      StoreKeepsInv(model, id, path);
      StepMirrors(model, Store(id, path), buffer);
      loaded := path in inflight;
      inflight := inflight + {path};
      model := Step(model, Store(id, path));
    }

    method AddPending(ghost id: nat)
      requires Valid() && Enabled(model, Count(id))
      modifies this`pending, this`model
      ensures Valid() && model == Step(old(model), Count(id)) && pending == old(pending) + 1
      ensures At(model, id, Counted) && model.jobs[id].path == old(model).jobs[id].path
    {
      CountKeepsInv(model, id);
      StepMirrors(model, Count(id), buffer);
      pending := pending + 1;
      model := Step(model, Count(id));
    }

    /** A send into a full buffer blocks; here it reports that it did. */
    method Send(path: string, ghost id: nat) returns (sent: bool)
      requires Valid() && At(model, id, Counted) && model.jobs[id].path == path
      modifies this`buffer, this`model
      ensures Valid() && sent == (|old(buffer)| < workers * 8)
      ensures buffer == if sent then old(buffer) + [path] else old(buffer)
      ensures model == if sent then Step(old(model), QueueModel.Send(id)) else old(model)
      ensures At(model, id, if sent then Buffered else Counted)
    {
      sent := |buffer| < workers * 8;
      if sent {
        SendKeepsInv(model, id);
        SendMirrors(model, id, path, buffer);
        buffer := buffer + [path];
        model := Step(model, QueueModel.Send(id));
      }
    }

    /** Worker w is at the given stage of job id. */
    ghost predicate Works(w: nat, id: nat, path: string, stage: Stage)
      reads this
    {
      w in model.busy && model.busy[w] == id && At(model, id, stage) && model.jobs[id].path == path
    }

    method Receive(ghost w: nat) returns (path: string, ghost id: nat)
      requires Valid() && w < workers && w !in model.busy && buffer != []
      modifies this`buffer, this`model
      ensures Valid() && Enabled(old(model), QueueModel.Receive(w))
      ensures id == old(model).buffer[0] && id in old(model).jobs && old(model).jobs[id].path == path
      ensures model == Step(old(model), QueueModel.Receive(w))
      ensures path == old(buffer)[0] && buffer == old(buffer)[1..]
      ensures Works(w, id, path, Running(w))
    {
      ReceiveKeepsInv(model, w);
      ReceiveMirrors(model, w, buffer);
      id := model.buffer[0];
      path := buffer[0];
      buffer := buffer[1..];
      model := Step(model, QueueModel.Receive(w));
    }

    ghost method HandlerReturns(w: nat, id: nat, path: string)
      requires Valid() && Works(w, id, path, Running(w))
      modifies this`model
      ensures Valid() && model == Step(old(model), Return(w)) && Works(w, id, path, Handled(w))
    {
      ReturnKeepsInv(model, w);
      StepMirrors(model, Return(w), buffer);
      model := Step(model, Return(w));
    }

    method Forget(path: string, ghost w: nat, ghost id: nat)
      requires Valid() && Works(w, id, path, Handled(w))
      modifies this`inflight, this`model
      ensures Valid() && model == Step(old(model), Delete(w)) && Works(w, id, path, Deleted(w))
      ensures inflight == old(inflight) - {path}
    {
      DeleteKeepsInv(model, w);
      StepMirrors(model, Delete(w), buffer);
      inflight := inflight - {path};
      model := Step(model, Delete(w));
    }

    method DonePending(ghost w: nat, ghost id: nat, ghost path: string)
      requires Valid() && Works(w, id, path, Deleted(w))
      modifies this`pending, this`model
      ensures Valid() && model == Step(old(model), Done(w)) && At(model, id, Finished) && w !in model.busy
      ensures pending == old(pending) - 1
    {
      DoneKeepsInv(model, w);
      StepMirrors(model, Done(w), buffer);
      pending := pending - 1;
      model := Step(model, Done(w));
    }

    /** Submit refuses exactly the paths in flight; otherwise the job is counted, and buffered
        unless the buffer is full. */
    method Submit(path: string, ghost id: nat) returns (accepted: bool, blocked: bool)
      requires Valid() && id !in model.jobs
      modifies this
      ensures Valid() && accepted == (path !in old(inflight))
      ensures !accepted ==> inflight == old(inflight) && buffer == old(buffer) && pending == old(pending) && !blocked
      ensures accepted ==>
        && inflight == old(inflight) + {path} && pending == old(pending) + 1
        && blocked == (|old(buffer)| == workers * 8)
        && buffer == (if blocked then old(buffer) else old(buffer) + [path])
        && At(model, id, if blocked then Counted else Buffered)
    {
      blocked := false;
      var loaded := LoadOrStore(path, id);
      if loaded {
        return false, false;
      }
      accepted := true;
      AddPending(id);
      var sent := Send(path, id);
      blocked := !sent;
    }

    /** What follows the handler: delete from the dedup set, then count done. */
    method FinishJob(path: string, ghost w: nat, ghost id: nat)
      requires Valid() && Works(w, id, path, Handled(w))
      modifies this`inflight, this`pending, this`model
      ensures Valid() && At(model, id, Finished) && w !in model.busy
      ensures inflight == old(inflight) - {path} && pending == old(pending) - 1
    {
      Forget(path, w, id);
      DonePending(w, id, path);
    }

    method HandleOldest(ghost w: nat) returns (path: string, ghost id: nat)
      requires Valid() && w < workers && w !in model.busy && buffer != []
      modifies this`buffer, this`model
      ensures Valid() && id == old(model).buffer[0] && Works(w, id, path, Handled(w))
      ensures path == old(buffer)[0] && buffer == old(buffer)[1..]
    {
      path, id := Receive(w);
      HandlerReturns(w, id, path);
    }

    /** One round of a worker's loop: the oldest buffered path is handled, then deleted from the
        dedup set, then counted done. */
    method WorkOne(ghost w: nat) returns (path: string)
      requires Valid() && w < workers && w !in model.busy && buffer != []
      modifies this`inflight, this`buffer, this`pending, this`model
      ensures Valid() && path == old(buffer)[0] && buffer == old(buffer)[1..]
      ensures inflight == old(inflight) - {path} && pending == old(pending) - 1
      ensures At(model, old(model).buffer[0], Finished) && w !in model.busy
    {
      ghost var id;
      path, id := HandleOldest(w);
      FinishJob(path, w, id);
    }
  }
}
