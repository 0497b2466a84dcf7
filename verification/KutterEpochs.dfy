/**
 What happens to the sync client when the numbers of its epochs start over (native/kookie_kutter_sync.c): a worker that
 was left behind takes a later epoch for its own, and a stage goes out twice.
 */
module KutterEpochs {
  import opened Kutter

  lemma MoveFirst(r: Run, m: Move, rest: seq<Move>)
    requires CanMove(r, m) && CanMoveAll(Moved(r, m), rest)
    ensures CanMoveAll(r, [m] + rest) && MovedAll(r, [m] + rest) == MovedAll(Moved(r, m), rest)
  {
    assert ([m] + rest)[1..] == rest;
  }

  lemma {:induction false} MovesOn(r: Run, a: seq<Move>, b: seq<Move>)
    requires CanMoveAll(r, a) && CanMoveAll(MovedAll(r, a), b)
    ensures CanMoveAll(r, a + b) && MovedAll(r, a + b) == MovedAll(MovedAll(r, a), b)
    decreases |a|
  {
    if a == [] {
      assert a + b == b;
    } else {
      MovesOn(Moved(r, a[0]), a[1..], b);
      MoveFirst(r, a[0], a[1..] + b);
      assert a + b == [a[0]] + (a[1..] + b);
    }
  }

  function Closings(n: nat): seq<Move> {
    if n == 0 then [] else [Closing] + Closings(n - 1)
  }

  /** Each close begins an epoch, whatever is under way. */
  lemma {:induction false} ClosingsCount(r: Run, n: nat)
    requires Shaped(r.client) && r.client.epoch < EPOCHS && r.client.epoch == r.begun % EPOCHS
    ensures CanMoveAll(r, Closings(n))
    ensures var a := MovedAll(r, Closings(n));
      && Shaped(a.client) && a.workers == r.workers && a.births == r.births && a.begun == r.begun + n
      && a.client.epoch == a.begun % EPOCHS && (n > 0 ==> a.client.state == CLOSED)
    decreases n
  {
    if n > 0 {
      ClosingsCount(Moved(r, Closing), n - 1);
      MoveFirst(r, Closing, Closings(n - 1));
    }
  }

  /** A worker is started, and as many epochs later another one, under the same number. */
  function Rounded(): seq<Move> {
    [Opening(true)] + (Closings(EPOCHS - 1) + [Opening(true)])
  }

  /** Two workers go by the number of the present epoch, which the second one was started in. */
  ghost predicate Twinned(r: Run, stage: Stage) {
    && Shaped(r.client) && !r.client.stopping && !r.client.active
    && r.workers == [Worker(r.client.epoch, stage), Worker(r.client.epoch, stage)]
    && r.births == [1, r.begun] && r.begun == EPOCHS + 1
  }

  lemma SecondOpens(first: Run, second: Run)
    requires Shaped(second.client) && second.client.state == CLOSED && second.workers == first.workers
    requires first.workers == [Worker(1, Connecting)] && second.births == first.births == [1]
    requires second.begun == EPOCHS && second.client.epoch == second.begun % EPOCHS
    ensures var r := Moved(second, Opening(true));
      Twinned(r, Connecting) && !r.client.pending && r.client.state == CONNECTING && r.committed == [] && r.sent == []
  {
  }

  lemma RoundTwinsFrom(start: Run, n: nat)
    requires start == NewRun() && n + 1 == EPOCHS
    ensures var moves := [Opening(true)] + (Closings(n) + [Opening(true)]);
      && CanMoveAll(start, moves)
      && var r := MovedAll(start, moves);
      Twinned(r, Connecting) && !r.client.pending && r.client.state == CONNECTING && r.committed == [] && r.sent == []
  {
    var first := Moved(start, Opening(true));
    assert first.workers == [Worker(1, Connecting)] && first.births == [1];
    ClosingsCount(first, n);
    var second := MovedAll(first, Closings(n));
    SecondOpens(first, second);
    MoveFirst(second, Opening(true), []);
    MovesOn(first, Closings(n), [Opening(true)]);
    MoveFirst(start, Opening(true), Closings(n) + [Opening(true)]);
  }

  lemma RoundTwins()
    ensures CanMoveAll(NewRun(), Rounded())
    ensures var r := MovedAll(NewRun(), Rounded());
      Twinned(r, Connecting) && !r.client.pending && r.client.state == CONNECTING && r.committed == [] && r.sent == []
  {
    RoundTwinsFrom(NewRun(), EPOCHS - 1);
  }

  /** Both workers connect, a stage of three words is committed, and both send it. */
  function Both(a: int, b: int, c: int): seq<Move> {
    [Turning(0, Succeeded), Turning(1, Succeeded)]
    + ([Beginning(3), Staging(0, a), Staging(1, b), Staging(2, c), Committing]
       + [Turning(0, Succeeded), Turning(1, Succeeded), Turning(0, Succeeded), Turning(1, Succeeded)])
  }

  lemma BothConnect(r: Run)
    requires Twinned(r, Connecting)
    ensures var moves := [Turning(0, Succeeded), Turning(1, Succeeded)];
      CanMoveAll(r, moves) && Twinned(MovedAll(r, moves), Looking)
      && MovedAll(r, moves) == r.(client := r.client.(state := OPEN), workers := MovedAll(r, moves).workers)
  {
    var one := Moved(r, Turning(0, Succeeded));
    MoveFirst(one, Turning(1, Succeeded), []);
    MoveFirst(r, Turning(0, Succeeded), [Turning(1, Succeeded)]);
  }

  lemma StageCommitted(r: Run, a: int, b: int, c: int)
    requires Twinned(r, Looking) && r.client.state == OPEN && !r.client.pending && r.committed == []
    ensures var moves := [Beginning(3), Staging(0, a), Staging(1, b), Staging(2, c), Committing];
      CanMoveAll(r, moves) && Twinned(MovedAll(r, moves), Looking) && MovedAll(r, moves).client.pending
      && MovedAll(r, moves).committed == [[a, b, c]] && MovedAll(r, moves).sent == r.sent
      && MovedAll(r, moves).client.words[..MovedAll(r, moves).client.count] == [a, b, c]
  {
    var one := Moved(r, Beginning(3));
    var two := Moved(one, Staging(0, a));
    var three := Moved(two, Staging(1, b));
    var four := Moved(three, Staging(2, c));
    assert four.client.words[..3] == [a, b, c];
    MoveFirst(four, Committing, []);
    MoveFirst(three, Staging(2, c), [Committing]);
    MoveFirst(two, Staging(1, b), [Staging(2, c), Committing]);
    MoveFirst(one, Staging(0, a), [Staging(1, b), Staging(2, c), Committing]);
    MoveFirst(r, Beginning(3), [Staging(0, a), Staging(1, b), Staging(2, c), Committing]);
  }

  lemma BothSend(r: Run)
    requires Twinned(r, Looking) && r.client.pending && r.sent == []
    ensures var moves := [Turning(0, Succeeded), Turning(1, Succeeded), Turning(0, Succeeded), Turning(1, Succeeded)];
      var stage := r.client.words[..r.client.count];
      CanMoveAll(r, moves) && MovedAll(r, moves).sent == [stage, stage] && MovedAll(r, moves).committed == r.committed
  {
    var m, n := Turning(0, Succeeded), Turning(1, Succeeded);
    var one := Moved(r, m);
    var two := Moved(one, n);
    var three := Moved(two, m);
    MoveFirst(three, n, []);
    MoveFirst(two, m, [n]);
    MoveFirst(one, n, [m, n]);
    MoveFirst(r, m, [n, m, n]);
  }

  /** There is a run in which a stage that was committed once goes out twice, for whatever words. */
  lemma EpochsRunOut(a: int, b: int, c: int)
    ensures var moves := Rounded() + Both(a, b, c);
      && CanMoveAll(NewRun(), moves) && !AllTimely(NewRun(), moves)
      && MovedAll(NewRun(), moves).committed == [[a, b, c]] && MovedAll(NewRun(), moves).sent == [[a, b, c], [a, b, c]]
  {
    RoundTwins();
    var r := MovedAll(NewRun(), Rounded());
    BothConnect(r);
    var connected := MovedAll(r, [Turning(0, Succeeded), Turning(1, Succeeded)]);
    StageCommitted(connected, a, b, c);
    var commits := [Beginning(3), Staging(0, a), Staging(1, b), Staging(2, c), Committing];
    var sends := [Turning(0, Succeeded), Turning(1, Succeeded), Turning(0, Succeeded), Turning(1, Succeeded)];
    BothSend(MovedAll(connected, commits));
    MovesOn(connected, commits, sends);
    MovesOn(r, [Turning(0, Succeeded), Turning(1, Succeeded)], commits + sends);
    MovesOn(NewRun(), Rounded(), Both(a, b, c));
    var moves := Rounded() + Both(a, b, c);
    if AllTimely(NewRun(), moves) {
      EveryRun(moves, 0);
    }
  }
}
