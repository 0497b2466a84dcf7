/**
 The sync client (native/kookie_kutter_sync.c): one caller, and workers that are never joined. Each step is one region
 under the mutex. A worker belongs to the epoch in which it was started; open and close begin a new one. Epochs are told
 apart by a 32-bit number, which starts over.
 */
module Kutter {
  import opened Results
  import opened Bytes
  import opened KutterFrames

  const QUEUE: nat := 16

  /** The numbers of epochs. */
  const EPOCHS: nat := 0x1_0000_0000

  const CLOSED := 0
  const CONNECTING := 1
  const OPEN := 2
  const FAILED := -1

  /** What the mutex guards. */
  datatype Client = Client(
    state: int, stopping: bool, epoch: nat,
    count: nat, staged: nat, active: bool, pending: bool, words: seq<int>,
    queue: seq<seq<int>>)

  ghost predicate Shaped(c: Client) {
    && |c.words| == MAX_WORDS && c.count <= MAX_WORDS && |c.queue| <= QUEUE
    && !(c.active && c.pending) && (c.active || c.pending ==> c.count >= 3)
    && forall k | 0 <= k < |c.queue| :: Packable(c.queue[k])
  }

  function NewClient(): Client {
    Client(CLOSED, false, 0, 0, 0, false, false, seq(MAX_WORDS, _ => 0), [])
  }

  // ----- The caller -----

  function NextEpoch(epoch: nat): nat {
    (epoch + 1) % EPOCHS
  }

  /** A new epoch begins, with nothing staged and nothing received, and its worker is about to start. */
  function Open(c: Client): Client {
    if c.state == CONNECTING || c.state == OPEN then c
    else c.(state := CONNECTING, stopping := false, epoch := NextEpoch(c.epoch),
            count := 0, staged := 0, pending := false, active := false, queue := [])
  }

  function SendBegin(c: Client, n: int): (Client, bool) {
    if n < 3 || n > MAX_WORDS || c.state != OPEN || c.active || c.pending then (c, false)
    else (c.(count := n, staged := 0, active := true), true)
  }

  function SendWord(c: Client, i: int, w: int): (Client, bool)
    requires Shaped(c)
  {
    if !c.active || i != c.staged || i >= c.count then (c, false)
    else (c.(words := c.words[i := w], staged := c.staged + 1), true)
  }

  function SendCommit(c: Client): (Client, bool) {
    if !c.active || c.staged != c.count || c.state != OPEN || c.pending then (c, false)
    else (c.(active := false, pending := true), true)
  }

  function ReceiveAvailable(c: Client): nat {
    if c.queue == [] then 0 else |c.queue[0]|
  }

  /** Reads a word of the first message. Reading its last word takes the message off the queue. */
  function ReceiveWord(c: Client, i: int): (Client, int)
    requires Shaped(c)
  {
    if c.queue == [] || i < 0 || i >= |c.queue[0]| then (c, -1)
    else (if i == |c.queue[0]| - 1 then c.(queue := c.queue[1..]) else c, c.queue[0][i])
  }

  function Close(c: Client): Client {
    c.(stopping := true, epoch := NextEpoch(c.epoch), state := CLOSED,
       active := false, count := 0, staged := 0, pending := false, queue := [])
  }

  // ----- The workers -----

  /**
   Connecting; about to look for something to send; sending; receiving; holding a message until there is room for it;
   about to give up; gone.
   */
  datatype Stage = Connecting | Looking | Sending(words: seq<int>) | Receiving | Holding(words: seq<int>) | Leaving | Gone

  datatype Worker = Worker(epoch: nat, stage: Stage)

  predicate Stopped(c: Client, epoch: nat) {
    c.stopping || c.epoch != epoch
  }

  /** What happens outside the mutex: whether a connection or a send succeeds, and what comes in, if anything. */
  datatype Outcome = Failed | Succeeded | Came(data: seq<byte>)

  function GiveUp(c: Client, epoch: nat): Client {
    if c.epoch == epoch then c.(state := if c.stopping then CLOSED else FAILED) else c
  }

  function Fetched(o: Outcome): (r: Option<seq<int>>)
    ensures r.Some? ==> Packable(r.value)
  {
    if o.Came? then Delivered(o.data) else None
  }

  /** The worker's next region. A worker that finds the queue full stays where it is. */
  function Turn(c: Client, w: Worker, o: Outcome): (Client, Worker)
    requires Shaped(c)
  {
    match w.stage
    case Connecting =>
      if o.Failed? then (GiveUp(c, w.epoch), w.(stage := Gone))
      else if Stopped(c, w.epoch) then (c, w.(stage := Gone))
      else (c.(state := OPEN), w.(stage := Looking))
    case Looking =>
      if Stopped(c, w.epoch) then (c, w.(stage := Leaving))
      else if c.pending then (c, w.(stage := Sending(c.words[..c.count])))
      else (c, w.(stage := Receiving))
    case Sending(_) =>
      if o.Failed? then (c, w.(stage := Leaving))
      else (if c.epoch == w.epoch then c.(pending := false, count := 0) else c, w.(stage := Receiving))
    case Receiving =>
      if Fetched(o).Some? then (c, w.(stage := Holding(Fetched(o).value))) else (c, w.(stage := Leaving))
    case Holding(words) =>
      if Stopped(c, w.epoch) then (c, w.(stage := Leaving))
      else if |c.queue| >= QUEUE then (c, w)
      else (c.(queue := c.queue + [words]), w.(stage := Looking))
    case Leaving => (GiveUp(c, w.epoch), w.(stage := Gone))
    case Gone => (c, w)
  }

  /** A worker with another number than the present epoch's changes nothing that is shared. */
  lemma OldWorkerInert(c: Client, w: Worker, o: Outcome)
    requires Shaped(c) && w.epoch != c.epoch
    ensures Turn(c, w, o).0 == c && Turn(c, w, o).1.epoch == w.epoch
  {
  }

  // ----- Every run -----

  /**
   The client and every worker that was ever started; how many epochs were begun, and how many by the time each worker
   was started. In the epoch that now is: the stages that were committed, those that were sent, the messages that were
   delivered to the queue, and those that were read to their end.
   */
  datatype Run = Run(
    client: Client, workers: seq<Worker>, begun: nat, births: seq<nat>,
    committed: seq<seq<int>>, sent: seq<seq<int>>, delivered: seq<seq<int>>, popped: seq<seq<int>>)

  datatype Move =
    | Opening(started: bool)
    | Beginning(n: int)
    | Staging(i: int, w: int)
    | Committing
    | Reading(i: int)
    | Closing
    | Turning(k: nat, o: Outcome)

  function NewRun(): Run {
    Run(NewClient(), [], 0, [], [], [], [], [])
  }

  ghost predicate CanMove(r: Run, m: Move) {
    Shaped(r.client) && (m.Turning? ==> m.k < |r.workers|)
  }

  /** started: the thread of the new epoch could be created. */
  function Opened(r: Run, started: bool): Run {
    if r.client.state == CONNECTING || r.client.state == OPEN then r
    else
      var c := Open(r.client);
      if started then
        Run(c, r.workers + [Worker(c.epoch, Connecting)], r.begun + 1, r.births + [r.begun + 1], [], [], [], [])
      else Run(c.(state := FAILED), r.workers, r.begun + 1, r.births, [], [], [], [])
  }

  function Turned(r: Run, k: nat, o: Outcome): Run
    requires Shaped(r.client) && k < |r.workers|
  {
    var w := r.workers[k];
    var (c, next) := Turn(r.client, w, o);
    var now := w.epoch == r.client.epoch;
    r.(client := c, workers := r.workers[k := next],
       sent := if now && w.stage.Sending? && next.stage.Receiving? then r.sent + [w.stage.words] else r.sent,
       delivered := if |c.queue| > |r.client.queue| && w.stage.Holding? then r.delivered + [w.stage.words] else r.delivered)
  }

  function Moved(r: Run, m: Move): Run
    requires CanMove(r, m)
  {
    match m
    case Opening(started) => Opened(r, started)
    case Beginning(n) => r.(client := SendBegin(r.client, n).0)
    case Staging(i, w) => r.(client := SendWord(r.client, i, w).0)
    case Committing =>
      var (c, ok) := SendCommit(r.client);
      r.(client := c, committed := if ok then r.committed + [c.words[..c.count]] else r.committed)
    case Reading(i) =>
      var c := ReceiveWord(r.client, i).0;
      r.(client := c, popped := if |c.queue| < |r.client.queue| then r.popped + [r.client.queue[0]] else r.popped)
    case Closing => Run(Close(r.client), r.workers, r.begun + 1, r.births, [], [], [], [])
    case Turning(k, o) => Turned(r, k, o)
  }

  /** What is known of worker k: the number of its epoch, and, if that epoch is the present one, what it is sending. */
  ghost predicate StageFits(r: Run, k: nat)
    requires k < |r.workers| == |r.births|
  {
    var w := r.workers[k];
    && r.births[k] <= r.begun && w.epoch == r.births[k] % EPOCHS
    && (w.stage.Holding? ==> Packable(w.stage.words))
    && (r.births[k] == r.begun && w.stage.Sending? ==>
          r.client.pending && r.committed != [] && w.stage.words == r.committed[|r.committed| - 1])
  }

  ghost predicate Staged(r: Run) {
    var c := r.client;
    && Shaped(c)
    && (c.pending ==> r.committed != [] && c.words[..c.count] == r.committed[|r.committed| - 1])
    && r.committed == r.sent + if c.pending then [c.words[..c.count]] else []
  }

  ghost predicate Consistent(r: Run) {
    && Staged(r) && |r.workers| == |r.births| && r.client.epoch == r.begun % EPOCHS
    && (forall k | 0 <= k < |r.workers| :: StageFits(r, k))
    && (forall j, k | 0 <= j < k < |r.births| :: r.births[j] < r.births[k])
    && r.popped + r.client.queue == r.delivered
  }

  /** So many epochs were begun since worker k was started that the present one has its number again. */
  predicate Mistaken(r: Run, k: nat)
    requires k < |r.births|
  {
    r.births[k] < r.begun && (r.begun - r.births[k]) % EPOCHS == 0
  }

  /** No worker acts while it takes the present epoch for its own by mistake. */
  ghost predicate Timely(r: Run, m: Move) {
    m.Turning? && m.k < |r.births| ==> !Mistaken(r, m.k)
  }

  lemma SameNumber(a: nat, b: nat)
    requires a <= b
    ensures a % EPOCHS == b % EPOCHS <==> (b - a) % EPOCHS == 0
  {
    assert a == a / EPOCHS * EPOCHS + a % EPOCHS && b == b / EPOCHS * EPOCHS + b % EPOCHS;
  }

  /** A worker of an earlier epoch has the present one's number exactly if it is mistaken. */
  lemma MistakenExactly(r: Run, k: nat)
    requires Consistent(r) && k < |r.workers|
    ensures r.workers[k].epoch == r.client.epoch <==> r.births[k] == r.begun || Mistaken(r, k)
  {
    assert StageFits(r, k);
    SameNumber(r.births[k], r.begun);
  }

  lemma NewConsistent()
    ensures Consistent(NewRun())
  {
  }

  lemma WorkersFit(r: Run, m: Move)
    requires Consistent(r) && CanMove(r, m) && !m.Turning?
    ensures var a := Moved(r, m);
      && |a.workers| == |a.births| && (forall k | 0 <= k < |a.workers| :: StageFits(a, k))
      && forall j, k | 0 <= j < k < |a.births| :: a.births[j] < a.births[k]
  {
    var a := Moved(r, m);
    forall k | 0 <= k < |a.workers|
      ensures StageFits(a, k) && (k < |r.births| ==> a.births[k] == r.births[k] <= r.begun)
    {
      assert k < |r.workers| ==> StageFits(r, k);
    }
  }

  lemma CallerConsistent(r: Run, m: Move)
    requires Consistent(r) && CanMove(r, m) && !m.Turning?
    ensures Consistent(Moved(r, m))
  {
    var c := r.client;
    WorkersFit(r, m);
    match m
    case Staging(i, w) =>
      assert Moved(r, m).committed == r.committed;
    case Reading(i) =>
      if c.queue != [] && i == |c.queue[0]| - 1 {
        assert r.popped + c.queue == (r.popped + [c.queue[0]]) + c.queue[1..];
      }
    case Committing =>
      assert r.sent + [] == r.sent;
    case _ =>
  }

  lemma TurnConsistent(r: Run, k: nat, o: Outcome)
    requires Consistent(r) && k < |r.workers| && !Mistaken(r, k)
    ensures Consistent(Turned(r, k, o))
  {
    var w := r.workers[k];
    var a := Turned(r, k, o);
    assert StageFits(r, k);
    MistakenExactly(r, k);
    if w.epoch != r.client.epoch {
      OldWorkerInert(r.client, w, o);
    }
    if w.stage.Holding? && a.client != r.client {
      assert r.popped + a.client.queue == (r.popped + r.client.queue) + [w.stage.words];
    }
    forall j | 0 <= j < |a.workers|
      ensures StageFits(a, j)
    {
      assert StageFits(r, j);
    }
    assert r.sent + [] == r.sent && a.sent + [] == a.sent;
  }

  /** Every step keeps the agreement, but that of a worker which takes the present epoch for its own by mistake. */
  lemma MoveConsistent(r: Run, m: Move)
    requires Consistent(r) && CanMove(r, m) && Timely(r, m)
    ensures Consistent(Moved(r, m))
  {
    if m.Turning? {
      TurnConsistent(r, m.k, m.o);
    } else {
      CallerConsistent(r, m);
    }
  }

  ghost predicate CanMoveAll(r: Run, moves: seq<Move>)
    decreases |moves|
  {
    moves == [] || (CanMove(r, moves[0]) && CanMoveAll(Moved(r, moves[0]), moves[1..]))
  }

  ghost function MovedAll(r: Run, moves: seq<Move>): Run
    requires CanMoveAll(r, moves)
    decreases |moves|
  {
    if moves == [] then r else MovedAll(Moved(r, moves[0]), moves[1..])
  }

  ghost predicate AllTimely(r: Run, moves: seq<Move>)
    requires CanMoveAll(r, moves)
    decreases |moves|
  {
    moves == [] || (Timely(r, moves[0]) && AllTimely(Moved(r, moves[0]), moves[1..]))
  }

  lemma {:induction false} MovesConsistent(r: Run, moves: seq<Move>)
    requires Consistent(r) && CanMoveAll(r, moves) && AllTimely(r, moves)
    ensures Consistent(MovedAll(r, moves))
    decreases |moves|
  {
    if moves != [] {
      MoveConsistent(r, moves[0]);
      MovesConsistent(Moved(r, moves[0]), moves[1..]);
    }
  }

  /**
   Whatever the order of the steps, as long as no worker acts just when its epoch's number has come round again: in the
   epoch that now is, the stages go out in the order in which they were committed, each once and unchanged, all but the
   last at least; what the worker is sending is the last; and the caller has read the first of the delivered messages,
   in their order.
   */
  lemma EveryRun(moves: seq<Move>, k: nat)
    requires CanMoveAll(NewRun(), moves) && AllTimely(NewRun(), moves)
    ensures var r := MovedAll(NewRun(), moves);
      && (r.sent == r.committed || (r.committed != [] && r.sent == r.committed[..|r.committed| - 1]))
      && |r.births| == |r.workers|
      && (k < |r.workers| && r.births[k] == r.begun && r.workers[k].stage.Sending? ==>
            r.committed != [] && r.workers[k].stage.words == r.committed[|r.committed| - 1] && r.sent != r.committed)
      && r.popped <= r.delivered
  {
    NewConsistent();
    MovesConsistent(NewRun(), moves);
    var r := MovedAll(NewRun(), moves);
    if k < |r.workers| {
      assert StageFits(r, k);
    }
    assert r.sent + [] == r.sent;
  }

  /** In a run that begins no more epochs than there are numbers, no worker is ever mistaken. */
  lemma {:induction false} FewEpochsTimely(r: Run, moves: seq<Move>)
    requires Consistent(r) && CanMoveAll(r, moves) && MovedAll(r, moves).begun <= EPOCHS
    requires forall k | 0 <= k < |r.births| :: r.births[k] > 0
    ensures AllTimely(r, moves)
    decreases |moves|
  {
    if moves != [] {
      BegunGrows(r, moves);
      assert Timely(r, moves[0]);
      MoveConsistent(r, moves[0]);
      FewEpochsTimely(Moved(r, moves[0]), moves[1..]);
    }
  }

  lemma {:induction false} BegunGrows(r: Run, moves: seq<Move>)
    requires CanMoveAll(r, moves)
    ensures r.begun <= MovedAll(r, moves).begun
    decreases |moves|
  {
    if moves != [] {
      BegunGrows(Moved(r, moves[0]), moves[1..]);
    }
  }
}
