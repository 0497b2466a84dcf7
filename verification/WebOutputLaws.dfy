/** The output of a connection through the steps of the web server: they act on it as the operations of WebOutput. */
module WebOutputLaws {
  import opened Bytes
  import opened WebFrames
  import opened WebOutput
  import opened WebServer
  import opened WebStreamLaws

  /** What the actions append to the output. */
  function Sends(actions: seq<Action>): seq<Op> {
    if actions == [] then []
    else (if actions[0].Send? then [Op.Accepting(actions[0].bytes)] else []) + Sends(actions[1..])
  }

  /** What the step does to the output of a connection that survives it. */
  function OpsOf(c: Conn, step: Step): seq<Op> {
    match step
    case Flush(n) => [Sending(n)]
    case Commit(data) => [Op.Accepting(data)]
    case Receive(chunk, key) => if c.closeAfter || !c.ws then [] else Sends(ScanAll(c.input + chunk).actions)
    case Upgrade(response) =>
      if c.ws || !c.haveKey then []
      else [Upgrading(response)] + if c.out.nout > 0 then [] else Sends(ScanAll(c.input).actions)
    case _ => []
  }

  /** The operations lead from the history to one whose buffer is o, with nothing lost on the way. */
  ghost predicate LeadsTo(h: History, ops: seq<Op>, o: OutBuffer) {
    AllPossible(h, ops) && AfterAll(h, ops).o == o && Conserved(AfterAll(h, ops))
  }

  lemma LeadsFirst(h: History, op: Op, rest: seq<Op>, o: OutBuffer)
    requires Possible(h, op) && LeadsTo(After(h, op), rest, o)
    ensures LeadsTo(h, [op] + rest, o)
  {
    assert ([op] + rest)[1..] == rest;
  }

  lemma LeadsNowhere(h: History)
    requires Conserved(h)
    ensures LeadsTo(h, [], h.o)
  {
  }

  lemma ActLives(l: Local, action: Action)
    requires Sound(l) && l.conn.used && !Act(l, action).conn.dead
    ensures Act(l, action).conn.used
    ensures Act(l, action).conn.out == if action.Send? then Append(l.conn.out, action.bytes).0 else l.conn.out
  {
  }

  lemma {:induction false} PerformLeads(l: Local, actions: seq<Action>, h: History)
    requires Sound(l) && l.conn.used && !Perform(l, actions).conn.dead && h.o == l.conn.out && Conserved(h)
    ensures LeadsTo(h, Sends(actions), Perform(l, actions).conn.out)
    decreases |actions|
  {
    if actions == [] || l.conn.dead {
      assert !l.conn.dead;
      LeadsNowhere(h);
    } else {
      var next, rest := Act(l, actions[0]), actions[1..];
      PerformDead(next, rest);
      ActLives(l, actions[0]);
      if actions[0].Send? {
        var op := Op.Accepting(actions[0].bytes);
        StepConserves(h, op);
        PerformLeads(next, rest, After(h, op));
        LeadsFirst(h, op, Sends(rest), Perform(next, rest).conn.out);
      } else {
        PerformLeads(next, rest, h);
        assert Sends(actions) == Sends(rest);
      }
    }
  }

  lemma FramesLead(l: Local, h: History)
    requires Sound(l) && l.conn.used && !ParseFrames(l).conn.dead && h.o == l.conn.out && Conserved(h)
    ensures LeadsTo(h, Sends(ScanAll(l.conn.input).actions), ParseFrames(l).conn.out)
  {
    var scan := ScanAll(l.conn.input);
    ParseIsScan(l);
    assert ParseFrames(l).conn.out == Perform(l, scan.actions).conn.out;
    PerformLeads(l, scan.actions, h);
  }

  lemma UpgradeLeads(l: Local, response: seq<byte>, h: History)
    requires Sound(l) && l.conn.used && |response| == RESPONSE_SIZE && l.conn.out.nout == 0
    requires h.o == l.conn.out && Conserved(h)
    requires var out := Respond(l.conn.out, response).0;
      !ParseFrames(l.(conn := l.conn.(out := out, ws := true))).conn.dead
    ensures var out := Respond(l.conn.out, response).0;
      LeadsTo(h, [Upgrading(response)] + Sends(ScanAll(l.conn.input).actions),
              ParseFrames(l.(conn := l.conn.(out := out, ws := true))).conn.out)
  {
    var op, open := Upgrading(response), l.(conn := l.conn.(out := Respond(l.conn.out, response).0, ws := true));
    StepConserves(h, op);
    FramesLead(open, After(h, op));
    LeadsFirst(h, op, Sends(ScanAll(l.conn.input).actions), ParseFrames(open).conn.out);
  }

  /** The step is no upgrade that is refused and spoils what is pending. */
  ghost predicate StepSpares(c: Conn, step: Step)
    requires c.out.Valid() && Proper(c, step)
  {
    step.Upgrade? && !c.ws && c.haveKey && c.out.nout > 0 ==> RefusalSpares(c.out, step.response)
  }

  lemma RefusalLeads(o: OutBuffer, response: seq<byte>, h: History)
    requires o.Valid() && o.nout > 0 && |response| == RESPONSE_SIZE && h.o == o && Conserved(h)
    requires RefusalSpares(o, response)
    ensures LeadsTo(h, [Upgrading(response)] + [], Respond(o, response).0)
  {
    StepConserves(h, Upgrading(response));
    LeadsNowhere(After(h, Upgrading(response)));
    LeadsFirst(h, Upgrading(response), [], Respond(o, response).0);
  }

  /**
   Every step that a live connection survives acts on its output as appends, sends and upgrades do, so what was handed
   over followed by what is pending stays what was accepted, unless it is a refused upgrade that spoils what is pending.
   */
  lemma StepActsOnOutput(l: Local, step: Step, h: History)
    requires Sound(l) && Proper(l.conn, step) && l.conn.used && !l.conn.dead && !StepLocal(l, step).conn.dead
    requires StepSpares(l.conn, step)
    requires h.o == l.conn.out && Conserved(h)
    ensures LeadsTo(h, OpsOf(l.conn, step), StepLocal(l, step).conn.out)
  {
    LeadsNowhere(h);
    match step
    case Flush(n) =>
      StepConserves(h, Sending(n));
      LeadsNowhere(After(h, Sending(n)));
      LeadsFirst(h, Sending(n), [], Sent(h.o, n));
    case Commit(data) =>
      StepConserves(h, Op.Accepting(data));
      LeadsNowhere(After(h, Op.Accepting(data)));
      LeadsFirst(h, Op.Accepting(data), [], Append(h.o, data).0);
    case Receive(chunk, key) =>
      if !l.conn.closeAfter && l.conn.ws {
        FramesLead(WithInput(l, l.conn.input + chunk), h);
      }
    case Upgrade(response) =>
      if !l.conn.ws && l.conn.haveKey {
        if l.conn.out.nout > 0 {
          RefusalLeads(l.conn.out, response, h);
        } else {
          UpgradeLeads(l, response, h);
        }
      }
    case _ =>
  }

  // ----- A connection's life -----

  /** A step of the connection, and what the others have made of the ring by then. */
  datatype Turn = Turn(queue: seq<Event>, step: Step)

  ghost predicate Survives(c: Conn, turn: Turn) {
    && Sound(Local(turn.queue, c)) && Proper(c, turn.step) && c.used && !c.dead
    && StepSpares(c, turn.step)
    && !StepLocal(Local(turn.queue, c), turn.step).conn.dead
  }

  ghost function Survivor(c: Conn, turn: Turn): Conn
    requires Survives(c, turn)
  {
    StepLocal(Local(turn.queue, c), turn.step).conn
  }

  ghost predicate SurvivesAll(c: Conn, turns: seq<Turn>)
    decreases |turns|
  {
    turns == [] || (Survives(c, turns[0]) && SurvivesAll(Survivor(c, turns[0]), turns[1..]))
  }

  ghost function SurvivorOf(c: Conn, turns: seq<Turn>): Conn
    requires SurvivesAll(c, turns)
    decreases |turns|
  {
    if turns == [] then c else SurvivorOf(Survivor(c, turns[0]), turns[1..])
  }

  ghost function LifeOps(c: Conn, turns: seq<Turn>): seq<Op>
    requires SurvivesAll(c, turns)
    decreases |turns|
  {
    if turns == [] then [] else OpsOf(c, turns[0].step) + LifeOps(Survivor(c, turns[0]), turns[1..])
  }

  lemma AfterFirst(h: History, op: Op, rest: seq<Op>)
    requires Possible(h, op)
    ensures AllPossible(h, [op] + rest) <==> AllPossible(After(h, op), rest)
    ensures AllPossible(h, [op] + rest) ==> AfterAll(h, [op] + rest) == AfterAll(After(h, op), rest)
  {
    assert ([op] + rest)[1..] == rest;
  }

  lemma FirstOfBoth<T>(a: seq<T>, b: seq<T>)
    requires a != []
    ensures a == [a[0]] + a[1..] && a + b == [a[0]] + (a[1..] + b)
  {
  }

  lemma {:induction false} AfterBoth(h: History, a: seq<Op>, b: seq<Op>)
    requires AllPossible(h, a) && AllPossible(AfterAll(h, a), b)
    ensures AllPossible(h, a + b) && AfterAll(h, a + b) == AfterAll(AfterAll(h, a), b)
    decreases |a|
  {
    if a == [] {
      assert a + b == b;
    } else {
      var op, rest := a[0], a[1..];
      FirstOfBoth(a, b);
      AfterFirst(h, op, rest);
      AfterBoth(After(h, op), rest, b);
      AfterFirst(h, op, rest + b);
    }
  }

  lemma LeadsOn(h: History, a: seq<Op>, b: seq<Op>, middle: OutBuffer, o: OutBuffer)
    requires LeadsTo(h, a, middle) && LeadsTo(AfterAll(h, a), b, o)
    ensures LeadsTo(h, a + b, o)
  {
    AfterBoth(h, a, b);
  }

  /**
   Through all its life, whatever the other connections do meanwhile, what a connection handed over followed by what
   is pending is what it accepted.
   */
  lemma {:induction false} LifeConserves(c: Conn, turns: seq<Turn>, h: History)
    requires SurvivesAll(c, turns) && h.o == c.out && Conserved(h)
    ensures LeadsTo(h, LifeOps(c, turns), SurvivorOf(c, turns).out)
    decreases |turns|
  {
    if turns == [] {
      LeadsNowhere(h);
    } else {
      var turn, next := turns[0], Survivor(c, turns[0]);
      var ops := OpsOf(c, turn.step);
      StepActsOnOutput(Local(turn.queue, c), turn.step, h);
      LifeConserves(next, turns[1..], AfterAll(h, ops));
      LeadsOn(h, ops, LifeOps(next, turns[1..]), next.out, SurvivorOf(c, turns).out);
    }
  }
}
