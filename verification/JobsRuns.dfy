/** Every run of the worker pool: each accepted job is reported at most once, as it was ordered, and a stopped pool ends. */
module JobsRuns {
  import opened Jobs

  /**
   The pool, all orders it accepted, for each slot which order it holds or held last, and which orders polls have
   reported.
   */
  datatype Run = Run(pool: Pool, orders: seq<Order>, holds: seq<nat>, reports: seq<nat>)

  datatype Move = Submitting(o: Order) | Turning(w: nat) | Polling | Releasing(token: int) | Stopping

  ghost predicate CanMove(r: Run, m: Move) {
    Shaped(r.pool) && |r.holds| == SLOTS && (m.Turning? ==> m.w < |r.pool.workers|)
  }

  function Moved(r: Run, m: Move): (a: Run)
    requires CanMove(r, m)
    ensures Shaped(a.pool) && |a.holds| == SLOTS
  {
    match m
    case Submitting(o) =>
      var (pool, token) := Submit(r.pool, o);
      if token == 0 then r
      else r.(pool := pool, orders := r.orders + [o], holds := r.holds[token - 1 := |r.orders|])
    case Turning(w) => r.(pool := Turn(r.pool, w))
    case Polling =>
      var (pool, token) := Poll(r.pool);
      if token == 0 then r else r.(pool := pool, reports := r.reports + [r.holds[token - 1]])
    case Releasing(token) => r.(pool := Release(r.pool, token).0)
    case Stopping => r.(pool := Stop(r.pool))
  }

  /** The slot holds an order that was accepted, and nobody else holds it. */
  ghost predicate SlotKept(r: Run, s: nat)
    requires Shaped(r.pool) && |r.holds| == SLOTS && s < SLOTS
  {
    r.pool.jobs[s].used ==>
      && r.holds[s] < |r.orders|
      && r.pool.jobs[s].order == r.orders[r.holds[s]]
      && (r.pool.jobs[s].reported <==> r.holds[s] in r.reports)
  }

  ghost predicate HoldsApart(r: Run)
    requires Shaped(r.pool) && |r.holds| == SLOTS
  {
    forall s, t | 0 <= s < t < SLOTS :: r.pool.jobs[s].used && r.pool.jobs[t].used ==> r.holds[s] != r.holds[t]
  }

  ghost predicate Held(r: Run, n: nat)
    requires Shaped(r.pool) && |r.holds| == SLOTS
  {
    exists s | 0 <= s < SLOTS :: r.pool.jobs[s].used && r.holds[s] == n
  }

  ghost predicate Once(reports: seq<nat>) {
    forall a, b | 0 <= a < b < |reports| :: reports[a] != reports[b]
  }

  /** Nothing is reported twice, and every order is in a slot or was reported. */
  ghost predicate Accounted(r: Run) {
    && Sound(r.pool) && |r.holds| == SLOTS
    && (forall s | 0 <= s < SLOTS :: SlotKept(r, s))
    && HoldsApart(r)
    && Once(r.reports) && (forall n <- r.reports :: n < |r.orders|)
    && forall n: nat | n < |r.orders| :: n in r.reports || Held(r, n)
  }

  lemma SubmitAccounted(r: Run, o: Order)
    requires Accounted(r)
    ensures Accounted(Moved(r, Submitting(o)))
  {
    SubmitSound(r.pool, o);
    var a, token := Moved(r, Submitting(o)), Submit(r.pool, o).1;
    if token > 0 {
      forall s | 0 <= s < SLOTS
        ensures SlotKept(a, s)
      {
        assert SlotKept(r, s);
      }
      forall n: nat | n < |a.orders|
        ensures n in a.reports || Held(a, n)
      {
        if n < |r.orders| && n !in r.reports {
          var s :| 0 <= s < SLOTS && r.pool.jobs[s].used && r.holds[s] == n;
          assert a.pool.jobs[s].used && a.holds[s] == n;
        } else if n == |r.orders| {
          assert a.pool.jobs[token - 1].used && a.holds[token - 1] == n;
        }
      }
      forall s, t | 0 <= s < t < SLOTS && a.pool.jobs[s].used && a.pool.jobs[t].used
        ensures a.holds[s] != a.holds[t]
      {
        assert SlotKept(r, s) && SlotKept(r, t);
      }
    }
  }

  lemma HeldSame(r: Run, a: Run, n: nat)
    requires Shaped(r.pool) && Shaped(a.pool) && |r.holds| == SLOTS && a.holds == r.holds && Held(r, n)
    requires forall s | 0 <= s < SLOTS :: a.pool.jobs[s].used == r.pool.jobs[s].used
    ensures Held(a, n)
  {
    var s :| 0 <= s < SLOTS && r.pool.jobs[s].used && r.holds[s] == n;
    assert a.pool.jobs[s].used;
  }

  lemma TurnAccounted(r: Run, w: nat)
    requires Accounted(r) && w < |r.pool.workers|
    ensures Accounted(Moved(r, Turning(w)))
  {
    TurnSound(r.pool, w);
    var a := Moved(r, Turning(w));
    forall s | 0 <= s < SLOTS
      ensures SlotKept(a, s) && a.pool.jobs[s].used == r.pool.jobs[s].used
    {
      assert SlotKept(r, s) && JobSound(r.pool.jobs[s]);
      if r.pool.workers[w].Awake? && r.pool.queue != [] {
        assert Queued(r.pool.jobs[r.pool.queue[0]]);
      }
    }
    forall n: nat | n < |a.orders| && n !in a.reports
      ensures Held(a, n)
    {
      HeldSame(r, a, n);
    }
  }

  lemma PollAccounted(r: Run)
    requires Accounted(r)
    ensures Accounted(Moved(r, Polling))
  {
    PollSound(r.pool);
    var a, token := Moved(r, Polling), Poll(r.pool).1;
    if token > 0 {
      assert SlotKept(r, token - 1);
      forall s | 0 <= s < SLOTS
        ensures SlotKept(a, s)
      {
        assert SlotKept(r, s);
      }
      forall n: nat | n < |a.orders| && n !in a.reports
        ensures Held(a, n)
      {
        HeldSame(r, a, n);
      }
    }
  }

  lemma ReleaseAccounted(r: Run, token: int)
    requires Accounted(r)
    ensures Accounted(Moved(r, Releasing(token)))
  {
    ReleaseSound(r.pool, token);
    var a := Moved(r, Releasing(token));
    forall s | 0 <= s < SLOTS
      ensures SlotKept(a, s)
    {
      assert SlotKept(r, s);
    }
    forall n: nat | n < |a.orders| && n !in a.reports
      ensures Held(a, n)
    {
      var s :| 0 <= s < SLOTS && r.pool.jobs[s].used && r.holds[s] == n;
      assert SlotKept(r, s);
      assert a.pool.jobs[s].used;
    }
  }

  lemma StopAccounted(r: Run)
    requires Accounted(r)
    ensures Accounted(Moved(r, Stopping))
  {
    StopSound(r.pool);
    var a := Moved(r, Stopping);
    forall s | 0 <= s < SLOTS
      ensures SlotKept(a, s)
    {
      assert SlotKept(r, s);
    }
    forall n: nat | n < |a.orders| && n !in a.reports
      ensures Held(a, n)
    {
      HeldSame(r, a, n);
    }
  }

  lemma MoveAccounted(r: Run, m: Move)
    requires Accounted(r) && CanMove(r, m)
    ensures Accounted(Moved(r, m))
  {
    match m
    case Submitting(o) => SubmitAccounted(r, o);
    case Turning(w) => TurnAccounted(r, w);
    case Polling => PollAccounted(r);
    case Releasing(token) => ReleaseAccounted(r, token);
    case Stopping => StopAccounted(r);
  }

  ghost predicate CanMoveAll(r: Run, moves: seq<Move>)
    decreases |moves|
  {
    moves == [] || (CanMove(r, moves[0]) && CanMoveAll(Moved(r, moves[0]), moves[1..]))
  }

  ghost function MovedAll(r: Run, moves: seq<Move>): Run
    requires CanMoveAll(r, moves)
    decreases |moves|
  {
    if moves == [] then r else MovedAll(Moved(r, moves[0]), moves[1..])
  }

  lemma {:induction false} MovesAccounted(r: Run, moves: seq<Move>)
    requires Accounted(r) && CanMoveAll(r, moves)
    ensures Accounted(MovedAll(r, moves))
    decreases |moves|
  {
    if moves != [] {
      MoveAccounted(r, moves[0]);
      MovesAccounted(Moved(r, moves[0]), moves[1..]);
    }
  }

  function OpenedRun(workers: nat): Run {
    Run(Opened(workers), [], seq(SLOTS, _ => 0), [])
  }

  /**
   Whatever order the workers' and the caller's steps come in: no job is reported twice, every accepted order is in a
   slot or was reported, and the slots, the queue and the workers agree on who has which job.
   */
  lemma EveryRun(workers: nat, moves: seq<Move>)
    requires CanMoveAll(OpenedRun(workers), moves)
    ensures var r := MovedAll(OpenedRun(workers), moves);
      Accounted(r) && Sound(r.pool) && |r.holds| == SLOTS && Once(r.reports)
      && forall n: nat | n < |r.orders| :: n in r.reports || Held(r, n)
  {
    OpenedSound(workers);
    MovesAccounted(OpenedRun(workers), moves);
  }

  /** A poll reports a job that was not reported before, and the caller can then read exactly what was ordered. */
  lemma PollReports(r: Run)
    requires Accounted(r) && Poll(r.pool).1 > 0
    ensures var token, pool := Poll(r.pool).1, Poll(r.pool).0; var n := r.holds[token - 1];
      && n < |r.orders| && n !in r.reports
      && Get(pool, token, 1) == r.orders[n].generation && Get(pool, token, 2) == r.orders[n].ordinal
      && Get(pool, token, 3) == r.orders[n].kind && Get(pool, token, 4) == r.orders[n].result
      && Get(pool, token, 5) == r.orders[n].checksum && Get(pool, token, 6) == 1
  {
    var token := Poll(r.pool).1;
    assert SlotKept(r, token - 1) && JobSound(r.pool.jobs[token - 1]);
  }

  // ----- Stopping -----

  function Weight(w: Worker): nat {
    match w
    case Exited => 0
    case Busy(_) => 2
    case _ => 1
  }

  function Weights(workers: seq<Worker>): nat {
    if workers == [] then 0 else Weight(workers[0]) + Weights(workers[1..])
  }

  /** Twice the queue, and the workers: one for each that is there, one more for each that has a job. */
  function Work(p: Pool): nat {
    2 * |p.queue| + Weights(p.workers)
  }

  lemma {:induction false} WeightsUpdate(workers: seq<Worker>, w: nat, now: Worker)
    requires w < |workers|
    ensures Weights(workers[w := now]) == Weights(workers) - Weight(workers[w]) + Weight(now)
    decreases w
  {
    if w == 0 {
      assert workers[0 := now][1..] == workers[1..];
    } else {
      WeightsUpdate(workers[1..], w - 1, now);
      assert workers[w := now][1..] == workers[1..][w - 1 := now];
    }
  }

  lemma {:induction false} WeightsSignalled(workers: seq<Worker>)
    ensures Weights(Signalled(workers)) == Weights(workers)
  {
    if workers != [] {
      WeightsSignalled(workers[1..]);
      assert Signalled(workers)[1..] == Signalled(workers[1..]);
    }
  }

  lemma {:induction false} WeightlessExited(workers: seq<Worker>)
    ensures Weights(workers) == 0 <==> forall w | 0 <= w < |workers| :: workers[w].Exited?
  {
    if workers != [] {
      WeightlessExited(workers[1..]);
      assert workers == [workers[0]] + workers[1..];
    }
  }

  /** Once the pool stops, each step of a worker that is still there leaves less work. */
  lemma TurnWorks(p: Pool, w: nat)
    requires Sound(p) && p.stopping && w < |p.workers| && !p.workers[w].Exited?
    ensures Sound(Turn(p, w)) && Turn(p, w).stopping && Work(Turn(p, w)) == Work(p) - 1
  {
    TurnSound(p, w);
    match p.workers[w]
    case Awake => WeightsUpdate(p.workers, w, Turn(p, w).workers[w]);
    case Busy(_) =>
      WeightsSignalled(p.workers);
      WeightsUpdate(Signalled(p.workers), w, Awake);
  }

  /** The caller's steps leave a stopped pool with the same work. */
  lemma CallerLeavesWork(r: Run, m: Move)
    requires Accounted(r) && CanMove(r, m) && r.pool.stopping && !m.Turning?
    ensures Moved(r, m).pool.stopping && Work(Moved(r, m).pool) == Work(r.pool)
  {
    WeightsSignalled(r.pool.workers);
  }

  /** The turns are all taken by workers that are still there. */
  ghost predicate LiveTurns(p: Pool, turns: seq<nat>)
    requires Shaped(p)
    decreases |turns|
  {
    turns == [] || (turns[0] < |p.workers| && !p.workers[turns[0]].Exited? && LiveTurns(Turn(p, turns[0]), turns[1..]))
  }

  ghost function Turned(p: Pool, turns: seq<nat>): (r: Pool)
    requires Shaped(p) && LiveTurns(p, turns)
    ensures Shaped(r)
    decreases |turns|
  {
    if turns == [] then p else Turned(Turn(p, turns[0]), turns[1..])
  }

  lemma {:induction false} TurnsWork(p: Pool, turns: seq<nat>)
    requires Sound(p) && p.stopping && LiveTurns(p, turns)
    ensures Sound(Turned(p, turns)) && Turned(p, turns).stopping && Work(Turned(p, turns)) == Work(p) - |turns|
    decreases |turns|
  {
    if turns != [] {
      TurnWorks(p, turns[0]);
      TurnsWork(Turn(p, turns[0]), turns[1..]);
    }
  }

  /** A stopped pool ends: after so many turns, in any order, every worker is gone and every accepted job is complete. */
  lemma StoppedPoolEnds(p: Pool, turns: seq<nat>)
    requires Sound(p) && p.stopping && |p.workers| > 0 && LiveTurns(p, turns)
    ensures |turns| <= Work(p)
    ensures var r := Turned(p, turns);
      |turns| == Work(p) <==> forall w | 0 <= w < |r.workers| :: r.workers[w].Exited?
    ensures |turns| == Work(p) ==> Settled(Turned(p, turns))
  {
    TurnsWork(p, turns);
    var r := Turned(p, turns);
    WeightlessExited(r.workers);
    SameCrew(p, turns);
    if Weights(r.workers) == 0 {
      assert r.workers[0].Exited?;
    }
  }

  ghost predicate Settled(p: Pool)
    requires Shaped(p)
  {
    p.queue == [] && forall s | 0 <= s < SLOTS && p.jobs[s].used :: p.jobs[s].completed
  }

  lemma {:induction false} SameCrew(p: Pool, turns: seq<nat>)
    requires Shaped(p) && LiveTurns(p, turns)
    ensures |Turned(p, turns).workers| == |p.workers|
    decreases |turns|
  {
    if turns != [] {
      SameCrew(Turn(p, turns[0]), turns[1..]);
    }
  }
}
