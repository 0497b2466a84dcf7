/** A run of the web server in which a refused upgrade spoils an answer that waits (native/kookie_web_server.c). */
module WebUpgrade {
  import opened Bytes
  import opened WebOutput
  import opened WebServer
  import opened WebServerLaws

  /** Nothing but one whole request, the blank line that ends it included. */
  predicate WholeRequest(request: seq<byte>) {
    4 <= |request| <= INPUT_SIZE && HeaderEnd(request, 3) == |request| - 1
  }

  /** The first connection asked for something, with a key to upgrade with, and this waits to be sent to it. */
  ghost predicate Answering(r: Run, o: OutBuffer) {
    && Whole(r.server)
    && r.server.slots[0] == Newcomer(1).(haveKey := true, out := o)
  }

  lemma RequestArrives(r: Run, request: seq<byte>)
    requires Idle(r) && r.server.nextId == 1 && WholeRequest(request)
    ensures var ask := OfSlot(0, Receive(request, true));
      CanMove(Arrived(r), ask) && Answering(Moved(Arrived(r), ask), NewOutput())
  {
    assert [] + request == request && request[|request|..] == [];
  }

  lemma AnswerWaits(r: Run, answer: seq<byte>)
    requires Answering(r, NewOutput()) && |answer| <= OUTPUT_SIZE
    ensures var commit := OfSlot(0, Commit(answer));
      CanMove(r, commit) && Answering(Moved(r, commit), Append(NewOutput(), answer).0)
  {
  }

  /** An upgrade that is refused because of the answer changes it. */
  lemma RefusalSeen(r: Run, o: OutBuffer, response: seq<byte>)
    requires Answering(r, o) && o.nout > 0 && |response| == RESPONSE_SIZE
    ensures var upgrade := OfSlot(0, Upgrade(response));
      CanMove(r, upgrade) && Answering(Moved(r, upgrade), Respond(o, response).0)
  {
  }

  /**
   Whatever a client asks for as its first request, if it was not answered with an upgrade but with a message that
   nothing is found, and an upgrade is asked for then, the client is sent something else than that message.
   */
  lemma UpgradeSpoilsRun(start: Run, request: seq<byte>, accept: seq<byte>)
    requires start == OPENED && WholeRequest(request) && |accept| == 28
    ensures var moves := [Move.Accepting, OfSlot(0, Receive(request, true)), OfSlot(0, Commit(Ascii(NOT_FOUND)))];
      var upgrade := OfSlot(0, Upgrade(UpgradeResponse(accept)));
      && CanMoveAll(start, moves) && CanMove(MovedAll(start, moves), upgrade)
      && var before := MovedAll(start, moves).server.slots[0];
      var after := Moved(MovedAll(start, moves), upgrade).server.slots[0];
      && before.used && !before.dead && before.haveKey && !before.ws && before.out.Pending() == Ascii(NOT_FOUND)
      && after == before.(out := after.out) && |after.out.Pending()| == |before.out.Pending()|
      && after.out.Pending() != before.out.Pending()
  {
    var answer, response := Ascii(NOT_FOUND), UpgradeResponse(accept);
    var ask, commit := OfSlot(0, Receive(request, true)), OfSlot(0, Commit(answer));
    VisitArrives(start);
    RequestArrives(start, request);
    var asked := Moved(Arrived(start), ask);
    AnswerWaits(asked, answer);
    UpgradeSpoils(accept);
    RefusalSeen(Moved(asked, commit), Append(NewOutput(), answer).0, response);
    MoveFirst(asked, commit, []);
    MoveFirst(Arrived(start), ask, [commit]);
    MoveFirst(start, Move.Accepting, [ask, commit]);
  }
}
