/** The worker pool updated in place (native/kookie_jobs.c): one array of jobs and a ring of slots. */
module JobsState {
  import opened Jobs
  import opened Ring

  class State {
    var stopping: bool
    const queue: Ring<nat>
    const jobs: array<Job>

    /** Where each worker thread is. */
    var workers: seq<Worker>

    ghost function Repr(): set<object> {
      {this, queue, queue.items, jobs}
    }

    ghost predicate Valid()
      reads Repr()
    {
      && queue.Valid() && queue.items.Length == SLOTS && jobs.Length == SLOTS
      && Shaped(Pool(jobs[..], queue.Contents(), stopping, workers))
    }

    ghost function Value(): (r: Pool)
      requires Valid()
      reads Repr()
      ensures Shaped(r)
    {
      Pool(jobs[..], queue.Contents(), stopping, workers)
    }

    constructor (workerCount: nat)
      ensures Valid() && Value() == Opened(workerCount) && fresh(Repr())
    {
      queue := new Ring<nat>(SLOTS, 0);
      jobs := new Job[SLOTS](_ => NO_JOB);
      stopping := false;
      workers := seq(workerCount, _ => Awake);
      new;
      assert jobs[..] == seq(SLOTS, _ => NO_JOB);
    }

    method SignalAll()
      requires Valid()
      modifies this`workers
      ensures Valid() && Value() == old(Value()).(workers := Signalled(old(workers)))
    {
      workers := Signalled(workers);
    }

    method FindFree() returns (slot: nat)
      requires Valid()
      ensures slot == FirstFree(jobs[..], 0)
    {
      slot := 0;
      while slot < SLOTS && jobs[slot].used
        invariant slot <= SLOTS && FirstFree(jobs[..], 0) == FirstFree(jobs[..], slot)
      {
        slot := slot + 1;
      }
    }

    method SetJob(slot: nat, job: Job)
      requires Valid() && slot < SLOTS
      modifies jobs
      ensures Valid() && Value() == old(Value()).(jobs := old(jobs[..])[slot := job])
    {
      jobs[slot] := job;
    }

    method Submit(o: Order) returns (token: nat)
      requires Valid()
      modifies Repr()
      ensures Valid() && (Value(), token) == Jobs.Submit(old(Value()), o)
    {
      if !Acceptable(o) || stopping || queue.count >= SLOTS {
        return 0;
      }
      var slot := FindFree();
      if slot == SLOTS {
        return 0;
      }
      SetJob(slot, NO_JOB.(used := true, order := o));
      var queued := queue.Push(slot);
      SignalAll();
      return slot + 1;
    }

    /** The locked region in which a worker waits, leaves or takes a job. */
    method Look(w: nat)
      requires Valid() && w < |workers|
      modifies Repr()
      ensures Valid() && Value() == Jobs.Look(old(Value()), w)
    {
      if queue.count == 0 {
        workers := workers[w := if stopping then Exited else Asleep];
        return;
      }
      ghost var was := queue.Contents();
      var slot := queue.Take();
      assert was[0] == slot && queue.Contents() == was[1..];
      SetJob(slot, jobs[slot].(running := true));
      workers := workers[w := Busy(slot)];
    }

    /** The locked region in which a worker hands its job back. */
    method Finish(w: nat)
      requires Valid() && w < |workers| && workers[w].Busy?
      modifies Repr()
      ensures Valid() && Value() == Jobs.Finish(old(Value()), w)
    {
      var slot := workers[w].slot;
      SetJob(slot, jobs[slot].(status := 1, running := false, completed := true));
      SignalAll();
      workers := workers[w := Awake];
    }

    method Poll() returns (token: nat)
      requires Valid()
      modifies jobs
      ensures Valid() && (Value(), token) == Jobs.Poll(old(Value()))
    {
      var slot := 0;
      while slot < SLOTS && !(jobs[slot].used && jobs[slot].completed && !jobs[slot].reported)
        invariant slot <= SLOTS && FirstUnreported(jobs[..], 0) == FirstUnreported(jobs[..], slot)
      {
        slot := slot + 1;
      }
      if slot == SLOTS {
        return 0;
      }
      SetJob(slot, jobs[slot].(reported := true));
      return slot + 1;
    }

    method Release(token: int) returns (ok: bool)
      requires Valid()
      modifies jobs
      ensures Valid() && (Value(), ok) == Jobs.Release(old(Value()), token)
    {
      if token <= 0 || token > SLOTS {
        return false;
      }
      ok := jobs[token - 1].used && jobs[token - 1].completed && jobs[token - 1].reported;
      if ok {
        SetJob(token - 1, NO_JOB);
      }
    }

    method Close()
      requires Valid()
      modifies this
      ensures Valid() && Value() == Stop(old(Value()))
    {
      stopping := true;
      SignalAll();
    }
  }
}
