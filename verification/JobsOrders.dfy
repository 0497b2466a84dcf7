/**
 What the worker pool does with an order (native/kookie_jobs.c): when it is accepted, that the workers take the orders
 as they came, what becomes of a job at every step, and when its slot is free for another.
 */
module JobsOrders {
  import opened Jobs
  import opened JobsRuns

  // ----- Acceptance -----

  lemma {:induction false} DistinctFew(queue: seq<nat>, n: nat)
    requires forall k | 0 <= k < |queue| :: queue[k] < n
    requires forall a, b | 0 <= a < b < |queue| :: queue[a] != queue[b]
    ensures |queue| <= n
    decreases n
  {
    if queue == [] {
    } else if n - 1 in queue {
      var k :| 0 <= k < |queue| && queue[k] == n - 1;
      DistinctFew(queue[..k] + queue[k + 1..], n - 1);
    } else {
      assert queue[0] < n;
      DistinctFew(queue, n - 1);
    }
  }

  /** While a slot is free the queue has room. */
  lemma {:induction false} QueueHasRoom(p: Pool, s: nat)
    requires Sound(p) && s < 32 && !p.jobs[s].used
    ensures |p.queue| < 32
  {
    assert !Queued(p.jobs[s]);
    DistinctFew(p.queue + [s], 32);
  }

  predicate InRange(o: Order) {
    && 1 <= o.generation <= 1_000_000 && 0 <= o.ordinal <= 31 && (o.kind == 1 || o.kind == 2)
    && 0 <= o.delay <= 1_000_000
  }

  /**
   An order is accepted exactly if it is in range, the pool is not stopping, and a slot is free. It goes into the first
   free slot and to the end of the queue, and every sleeper is woken.
   */
  lemma {:induction false} SubmitExactly(p: Pool, o: Order)
    requires Sound(p)
    ensures var (r, token) := Submit(p, o);
      && (token > 0 <==> InRange(o) && !p.stopping && exists s | 0 <= s < 32 :: !p.jobs[s].used)
      && (token == 0 ==> r == p)
      && (token > 0 ==>
            && !p.jobs[token - 1].used && (forall s | 0 <= s < token - 1 :: p.jobs[s].used)
            && r.jobs == p.jobs[token - 1 := Job(true, false, false, false, o, 0)]
            && r.queue == p.queue + [token - 1] && r.stopping == p.stopping
            && |r.workers| == |p.workers|
            && forall w | 0 <= w < |r.workers| :: r.workers[w] == if p.workers[w].Asleep? then Awake else p.workers[w])
  {
    if s :| 0 <= s < 32 && !p.jobs[s].used {
      QueueHasRoom(p, s);
    }
  }

  // ----- Release -----

  /** The caller may read the job of this token. */
  predicate Reported(p: Pool, token: int)
    requires Shaped(p)
  {
    1 <= token <= 32 && p.jobs[token - 1].used && p.jobs[token - 1].completed && p.jobs[token - 1].reported
  }

  /**
   A job is released exactly if it was reported and not released yet; then it cannot be read, and nothing else
   changes.
   */
  lemma {:induction false} ReleaseExactly(p: Pool, token: int, field: int)
    requires Shaped(p)
    ensures var (r, ok) := Release(p, token);
      && (ok <==> Reported(p, token))
      && r == p.(jobs := r.jobs) && (forall s | 0 <= s < 32 && s != token - 1 :: r.jobs[s] == p.jobs[s])
      && (ok ==> !r.jobs[token - 1].used && Get(r, token, field) == -1 && !Release(r, token).1)
      && (!ok ==> r == p)
  {
  }

  /** A slot that was given back is taken again: from then on any order in range finds a place, until the pool stops. */
  lemma {:induction false} ReleasedIsTaken(p: Pool, token: int, o: Order)
    requires Sound(p) && Reported(p, token) && !p.stopping && InRange(o)
    ensures var (r, again) := Submit(Release(p, token).0, o);
      && 0 < again <= token && r.jobs[again - 1].order == o && r.jobs[again - 1].used && !r.jobs[again - 1].reported
      && r.queue == p.queue + [again - 1]
  {
    ReleaseSound(p, token);
    var released := Release(p, token).0;
    assert !released.jobs[token - 1].used;
    SubmitExactly(released, o);
  }

  // ----- What becomes of a job -----

  /** A worker's turn: it takes the first job of the queue, hands back the one it has, sleeps, wakes or leaves. */
  lemma {:induction false} TurnExactly(p: Pool, w: nat, s: nat)
    requires Sound(p) && w < |p.workers| && s < 32
    ensures var r, me := Turn(p, w), p.workers[w];
      && r.stopping == p.stopping && |r.workers| == |p.workers|
      && r.queue == (if me.Awake? && p.queue != [] then p.queue[1..] else p.queue)
      && r.workers[w] == (match me
           case Awake => if p.queue != [] then Busy(p.queue[0]) else if p.stopping then Exited else Asleep
           case Asleep => Awake
           case Busy(_) => Awake
           case Exited => Exited)
      && r.jobs[s] == (if me.Awake? && p.queue != [] && p.queue[0] == s then p.jobs[s].(running := true)
                       else if me == Busy(s) then p.jobs[s].(running := false, completed := true, status := 1)
                       else p.jobs[s])
      && forall v | 0 <= v < |p.workers| && v != w ::
           r.workers[v] == if me.Busy? && p.workers[v].Asleep? then Awake else p.workers[v]
  {
  }

  /** A poll reports the first job that is complete and was not reported; it says so just that once. */
  lemma {:induction false} PollExactly(p: Pool)
    requires Sound(p)
    ensures var (r, token) := Poll(p);
      && (token > 0 <==> exists s | 0 <= s < 32 :: p.jobs[s].completed && !p.jobs[s].reported)
      && (token == 0 ==> r == p)
      && (token > 0 ==>
            && p.jobs[token - 1].completed && !p.jobs[token - 1].reported
            && (forall s | 0 <= s < token - 1 :: p.jobs[s].completed ==> p.jobs[s].reported)
            && r == p.(jobs := p.jobs[token - 1 := p.jobs[token - 1].(reported := true)]))
  {
    forall s | 0 <= s < 32
      ensures p.jobs[s].completed ==> p.jobs[s].used
    {
      assert JobSound(p.jobs[s]);
    }
  }

  /** A job cannot be read before it is reported, nor after it is released; in between it is what was ordered. */
  lemma {:induction false} ReadExactly(p: Pool, token: int)
    requires Sound(p)
    ensures Reported(p, token) ==>
      var o := p.jobs[token - 1].order;
      && Get(p, token, 1) == o.generation && Get(p, token, 2) == o.ordinal && Get(p, token, 3) == o.kind
      && Get(p, token, 4) == o.result && Get(p, token, 5) == o.checksum && Get(p, token, 6) == 1
    ensures !Reported(p, token) ==> forall field :: Get(p, token, field) == -1
  {
    if Reported(p, token) {
      assert JobSound(p.jobs[token - 1]);
    }
  }

  // ----- First come, first served -----

  /** The queue holds the orders that were accepted last, in the order in which they were accepted. */
  ghost predicate InOrder(r: Run)
    requires Shaped(r.pool) && |r.holds| == SLOTS
  {
    |r.pool.queue| <= |r.orders|
    && forall k | 0 <= k < |r.pool.queue| :: r.holds[r.pool.queue[k]] == |r.orders| - |r.pool.queue| + k
  }

  lemma {:induction false} MoveInOrder(r: Run, m: Move)
    requires Accounted(r) && InOrder(r) && CanMove(r, m)
    ensures InOrder(Moved(r, m))
  {
    var a := Moved(r, m);
    forall k | 0 <= k < |a.pool.queue|
      ensures a.holds[a.pool.queue[k]] == |a.orders| - |a.pool.queue| + k
    {
      if m.Submitting? && k < |r.pool.queue| {
        assert Queued(r.pool.jobs[r.pool.queue[k]]);
      } else if m.Turning? && r.pool.workers[m.w].Awake? && r.pool.queue != [] {
        assert a.pool.queue[k] == r.pool.queue[k + 1];
      }
    }
  }

  lemma {:induction false} MovesInOrder(r: Run, moves: seq<Move>)
    requires Accounted(r) && InOrder(r) && CanMoveAll(r, moves)
    ensures Accounted(MovedAll(r, moves)) && InOrder(MovedAll(r, moves))
    decreases |moves|
  {
    if moves != [] {
      MoveAccounted(r, moves[0]);
      MoveInOrder(r, moves[0]);
      MovesInOrder(Moved(r, moves[0]), moves[1..]);
    }
  }

  /**
   First come, first served, in every run: the orders that wait are the last ones accepted, and the job that a worker
   takes next is the first accepted of them, with all that was ordered.
   */
  lemma {:induction false} FirstComeFirstServed(workers: nat, moves: seq<Move>, w: nat)
    requires CanMoveAll(OpenedRun(workers), moves)
    ensures var r := MovedAll(OpenedRun(workers), moves);
      && Shaped(r.pool) && |r.holds| == 32 && |r.pool.queue| <= |r.orders|
      && (forall k | 0 <= k < |r.pool.queue| ::
            r.pool.jobs[r.pool.queue[k]].order == r.orders[|r.orders| - |r.pool.queue| + k])
      && (w < |r.pool.workers| && r.pool.workers[w].Awake? && r.pool.queue != [] ==>
            var taken := Turn(r.pool, w);
            taken.workers[w].Busy? && taken.jobs[taken.workers[w].slot].running
            && taken.jobs[taken.workers[w].slot].order == r.orders[|r.orders| - |r.pool.queue|])
  {
    OpenedSound(workers);
    MovesInOrder(OpenedRun(workers), moves);
    var r := MovedAll(OpenedRun(workers), moves);
    forall k | 0 <= k < |r.pool.queue|
      ensures r.pool.jobs[r.pool.queue[k]].order == r.orders[|r.orders| - |r.pool.queue| + k]
    {
      assert Queued(r.pool.jobs[r.pool.queue[k]]) && SlotKept(r, r.pool.queue[k]);
    }
  }
}
