/**
 The worker pool (native/kookie_jobs.c): a queue of slots, and workers whose locked regions interleave with the
 caller's. Each step below is one locked region.
 */
module Jobs {

  const SLOTS := 32
  const MAXIMUM_GENERATION := 1_000_000
  const MAXIMUM_DELAY := 1_000_000

  /** What the caller asks for. */
  datatype Order = Order(generation: int, ordinal: int, kind: int, result: int, checksum: int, delay: int)

  datatype Job = Job(used: bool, running: bool, completed: bool, reported: bool, order: Order, status: int)

  const NO_JOB := Job(false, false, false, false, Order(0, 0, 0, 0, 0, 0), 0)

  /** Where a worker is: about to look at the queue, waiting for a signal, away with a job, or gone. */
  datatype Worker = Awake | Asleep | Busy(slot: nat) | Exited

  datatype Pool = Pool(jobs: seq<Job>, queue: seq<nat>, stopping: bool, workers: seq<Worker>)

  ghost predicate Shaped(p: Pool) {
    && |p.jobs| == SLOTS
    && (forall k | 0 <= k < |p.queue| :: p.queue[k] < SLOTS)
    && forall w | 0 <= w < |p.workers| :: p.workers[w].Busy? ==> p.workers[w].slot < SLOTS
  }

  predicate Acceptable(o: Order) {
    && 0 < o.generation <= MAXIMUM_GENERATION
    && 0 <= o.ordinal < SLOTS
    && (o.kind == 1 || o.kind == 2)
    && 0 <= o.delay <= MAXIMUM_DELAY
  }

  function FirstFree(jobs: seq<Job>, i: nat): (r: nat)
    requires i <= |jobs|
    ensures i <= r <= |jobs| && (forall k | i <= k < r :: jobs[k].used) && (r < |jobs| ==> !jobs[r].used)
    decreases |jobs| - i
  {
    if i == |jobs| || !jobs[i].used then i else FirstFree(jobs, i + 1)
  }

  function Signalled(workers: seq<Worker>): (r: seq<Worker>)
    ensures |r| == |workers|
    ensures forall w | 0 <= w < |r| :: r[w] == if workers[w].Asleep? then Awake else workers[w]
  {
    seq(|workers|, w requires 0 <= w < |workers| => if workers[w].Asleep? then Awake else workers[w])
  }

  /** The pool after an order, and the token that the caller gets; 0 if it is refused. */
  function Submit(p: Pool, o: Order): (r: (Pool, nat))
    requires Shaped(p)
    ensures Shaped(r.0) && r.1 <= SLOTS
  {
    var slot := FirstFree(p.jobs, 0);
    if !Acceptable(o) || p.stopping || |p.queue| >= SLOTS || slot == SLOTS then (p, 0)
    else
      (p.(jobs := p.jobs[slot := NO_JOB.(used := true, order := o)],
          queue := p.queue + [slot],
          workers := Signalled(p.workers)),
       slot + 1)
  }

  /** A worker looks at the queue: it waits, leaves, or takes the first slot. */
  function Look(p: Pool, w: nat): (r: Pool)
    requires Shaped(p) && w < |p.workers|
    ensures Shaped(r)
  {
    if p.queue == [] then p.(workers := p.workers[w := if p.stopping then Exited else Asleep])
    else
      var slot := p.queue[0];
      p.(queue := p.queue[1..],
         jobs := p.jobs[slot := p.jobs[slot].(running := true)],
         workers := p.workers[w := Busy(slot)])
  }

  function Finish(p: Pool, w: nat): (r: Pool)
    requires Shaped(p) && w < |p.workers| && p.workers[w].Busy?
    ensures Shaped(r)
  {
    var slot := p.workers[w].slot;
    p.(jobs := p.jobs[slot := p.jobs[slot].(status := 1, running := false, completed := true)],
       workers := Signalled(p.workers)[w := Awake])
  }

  /** The worker's next locked region. A sleeping worker may wake for no reason. */
  function Turn(p: Pool, w: nat): (r: Pool)
    requires Shaped(p) && w < |p.workers|
    ensures Shaped(r)
  {
    match p.workers[w]
    case Awake => Look(p, w)
    case Asleep => p.(workers := p.workers[w := Awake])
    case Busy(_) => Finish(p, w)
    case Exited => p
  }

  predicate Unreported(j: Job) {
    j.used && j.completed && !j.reported
  }

  function FirstUnreported(jobs: seq<Job>, i: nat): (r: nat)
    requires i <= |jobs|
    ensures i <= r <= |jobs| && (forall k | i <= k < r :: !Unreported(jobs[k])) && (r < |jobs| ==> Unreported(jobs[r]))
    decreases |jobs| - i
  {
    if i == |jobs| || Unreported(jobs[i]) then i else FirstUnreported(jobs, i + 1)
  }

  /** The pool after a poll, and the token reported; 0 if nothing is new. */
  function Poll(p: Pool): (r: (Pool, nat))
    requires Shaped(p)
    ensures Shaped(r.0) && r.1 <= SLOTS
  {
    var slot := FirstUnreported(p.jobs, 0);
    if slot == SLOTS then (p, 0) else (p.(jobs := p.jobs[slot := p.jobs[slot].(reported := true)]), slot + 1)
  }

  predicate Readable(j: Job) {
    j.used && j.completed && j.reported
  }

  /** What the caller reads of a job by its token: -1 unless it was reported and is not released. */
  function Get(p: Pool, token: int, field: int): int
    requires Shaped(p)
  {
    if !(0 < token <= SLOTS) || !Readable(p.jobs[token - 1]) then -1
    else
      var j := p.jobs[token - 1];
      if field == 1 then j.order.generation
      else if field == 2 then j.order.ordinal
      else if field == 3 then j.order.kind
      else if field == 4 then j.order.result
      else if field == 5 then j.order.checksum
      else if field == 6 then j.status
      else 0
  }

  function Release(p: Pool, token: int): (r: (Pool, bool))
    requires Shaped(p)
    ensures Shaped(r.0)
  {
    if !(0 < token <= SLOTS) || !Readable(p.jobs[token - 1]) then (p, false)
    else (p.(jobs := p.jobs[token - 1 := NO_JOB]), true)
  }

  function Stop(p: Pool): (r: Pool)
    requires Shaped(p)
    ensures Shaped(r)
  {
    p.(stopping := true, workers := Signalled(p.workers))
  }

  // ----- What every interleaving keeps -----

  predicate Queued(j: Job) {
    j.used && !j.running && !j.completed
  }

  ghost predicate JobSound(j: Job) {
    && (!j.used ==> j == NO_JOB)
    && (j.running ==> !j.completed)
    && (j.reported ==> j.completed)
    && j.status == (if j.completed then 1 else 0)
  }

  /** The queue holds exactly the slots of the jobs that nobody has taken, each once. */
  ghost predicate QueueSound(p: Pool)
    requires Shaped(p)
  {
    && (forall a, b | 0 <= a < b < |p.queue| :: p.queue[a] != p.queue[b])
    && (forall s | 0 <= s < SLOTS :: Queued(p.jobs[s]) <==> s in p.queue)
  }

  /** Each running job has one worker, and each busy worker has a running job. */
  ghost predicate WorkersSound(p: Pool)
    requires Shaped(p)
  {
    && (forall w | 0 <= w < |p.workers| :: p.workers[w].Busy? ==> p.jobs[p.workers[w].slot].running)
    && (forall v, w | 0 <= v < w < |p.workers| :: p.workers[v].Busy? ==> p.workers[v] != p.workers[w])
    && (forall s | 0 <= s < SLOTS && p.jobs[s].running :: Busy(s) in p.workers)
  }

  /** Nobody sleeps while there is work or the pool stops, and nobody leaves before both are settled. */
  ghost predicate NobodyStuck(p: Pool) {
    forall w | 0 <= w < |p.workers| ::
      && (p.workers[w].Asleep? ==> p.queue == [] && !p.stopping)
      && (p.workers[w].Exited? ==> p.queue == [] && p.stopping)
  }

  ghost predicate Sound(p: Pool) {
    && Shaped(p) && (forall s | 0 <= s < SLOTS :: JobSound(p.jobs[s]))
    && QueueSound(p) && WorkersSound(p) && NobodyStuck(p)
  }

  function Opened(workers: nat): Pool {
    Pool(seq(SLOTS, _ => NO_JOB), [], false, seq(workers, _ => Awake))
  }

  lemma OpenedSound(workers: nat)
    ensures Sound(Opened(workers))
  {
  }

  lemma SignalledBusy(workers: seq<Worker>, slot: nat)
    ensures Busy(slot) in Signalled(workers) <==> Busy(slot) in workers
  {
    if Busy(slot) in workers {
      var w :| 0 <= w < |workers| && workers[w] == Busy(slot);
      assert Signalled(workers)[w] == Busy(slot);
    }
  }

  lemma SubmitSound(p: Pool, o: Order)
    requires Sound(p)
    ensures Sound(Submit(p, o).0)
  {
    var (r, token) := Submit(p, o);
    if token > 0 {
      var slot := token - 1;
      assert !p.jobs[slot].used && slot !in p.queue;
      forall s | 0 <= s < SLOTS && r.jobs[s].running
        ensures Busy(s) in r.workers
      {
        SignalledBusy(p.workers, s);
      }
    }
  }

  lemma QueueTaken(queue: seq<nat>, s: nat)
    requires queue != [] && forall a, b | 0 <= a < b < |queue| :: queue[a] != queue[b]
    ensures s in queue[1..] <==> s in queue && s != queue[0]
  {
    if s in queue && s != queue[0] {
      var k :| 0 <= k < |queue| && queue[k] == s;
      assert queue[1..][k - 1] == s;
    }
  }

  lemma LookSound(p: Pool, w: nat)
    requires Sound(p) && w < |p.workers| && p.workers[w].Awake?
    ensures Sound(Look(p, w))
  {
    var r := Look(p, w);
    if p.queue != [] {
      var slot := p.queue[0];
      assert Queued(p.jobs[slot]) && Busy(slot) !in p.workers;
      forall s | 0 <= s < SLOTS
        ensures Queued(r.jobs[s]) <==> s in r.queue
      {
        QueueTaken(p.queue, s);
      }
      KeepsBusy(p.workers, w, Busy(slot));
    } else {
      KeepsBusy(p.workers, w, r.workers[w]);
    }
  }

  /** A worker that was not busy changes: the busy ones are still there. */
  lemma KeepsBusy(workers: seq<Worker>, w: nat, now: Worker)
    requires w < |workers| && !workers[w].Busy?
    ensures now in workers[w := now]
    ensures forall s: nat :: Busy(s) in workers ==> Busy(s) in workers[w := now]
  {
    var after := workers[w := now];
    assert after[w] == now;
    forall s: nat | Busy(s) in workers
      ensures Busy(s) in after
    {
      var v :| 0 <= v < |workers| && workers[v] == Busy(s);
      assert after[v] == Busy(s);
    }
  }

  lemma FinishSound(p: Pool, w: nat)
    requires Sound(p) && w < |p.workers| && p.workers[w].Busy?
    ensures Sound(Finish(p, w))
  {
    var r, slot := Finish(p, w), p.workers[w].slot;
    forall s | 0 <= s < SLOTS && r.jobs[s].running
      ensures Busy(s) in r.workers
    {
      assert s != slot && p.jobs[s].running;
      var v :| 0 <= v < |p.workers| && p.workers[v] == Busy(s);
      assert r.workers[v] == Busy(s);
    }
  }

  lemma TurnSound(p: Pool, w: nat)
    requires Sound(p) && w < |p.workers|
    ensures Sound(Turn(p, w))
  {
    match p.workers[w]
    case Awake => LookSound(p, w);
    case Asleep => KeepsBusy(p.workers, w, Awake);
    case Busy(_) => FinishSound(p, w);
    case Exited =>
  }

  lemma PollSound(p: Pool)
    requires Sound(p)
    ensures Sound(Poll(p).0)
  {
  }

  lemma ReleaseSound(p: Pool, token: int)
    requires Sound(p)
    ensures Sound(Release(p, token).0)
  {
  }

  lemma StopSound(p: Pool)
    requires Sound(p)
    ensures Sound(Stop(p))
  {
    forall s | 0 <= s < SLOTS && p.jobs[s].running
      ensures Busy(s) in Stop(p).workers
    {
      SignalledBusy(p.workers, s);
    }
  }
}
