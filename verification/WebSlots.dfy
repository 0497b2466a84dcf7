/** What accepting, closing and polling do to the slots and the ring of the web server (native/kookie_web_server.c). */
module WebSlots {
  import opened Bytes
  import opened WebOutput
  import opened WebServer
  import opened WebSteps

  /** A connection as it is accepted. */
  function Fresh(id: int): Conn {
    Conn(true, false, false, id, false, false, false, [], OutBuffer(Zeros(65536), 0, 0))
  }

  /**
   A socket is accepted into the first free slot, under the next number, and ACCEPTED (1) is in the ring; without room
   in the ring it is dead at once, and its disconnect is owed. With no slot free nothing happens. Numbers start over
   after 2147483647.
   */
  lemma {:induction false} AcceptExactly(s: Server, i: nat)
    requires Whole(s) && i < 12 && !s.slots[i].used && forall k | 0 <= k < i :: s.slots[k].used
    ensures var r := Accept(s);
      && r.nextId == (if s.nextId == 2_147_483_647 then 1 else s.nextId + 1)
      && (forall k | 0 <= k < 12 && k != i :: r.slots[k] == s.slots[k])
      && if |s.queue| < 64 then r.queue == s.queue + [Event(1, s.nextId, 0, [])] && r.slots[i] == Fresh(s.nextId)
         else r.queue == s.queue && r.slots[i] == Fresh(s.nextId).(dead := true)
  {
    assert FirstFree(s.slots, 0) == i;
  }

  lemma {:induction false} AcceptNone(s: Server)
    requires Whole(s) && forall k | 0 <= k < 12 :: s.slots[k].used
    ensures Accept(s) == s
  {
  }

  predicate Lives(c: Conn, id: int) {
    c.used && !c.dead && c.id == id
  }

  /** The main thread closes the live connection with the number, if there is one; that one dies, and no other. */
  lemma {:induction false} CloseExactly(s: Server, id: int, i: nat)
    requires Whole(s) && i < 12
    ensures (forall k | 0 <= k < 12 :: !Lives(s.slots[k], id)) ==> CloseById(s, id) == s
    ensures Lives(s.slots[i], id) && (forall k | 0 <= k < i :: !Lives(s.slots[k], id)) ==>
      var r := CloseById(s, id);
      && r.nextId == s.nextId && (forall k | 0 <= k < 12 && k != i :: r.slots[k] == s.slots[k])
      && Died(s.queue, s.slots[i], Local(r.queue, r.slots[i]))
  {
    if Lives(s.slots[i], id) && forall k | 0 <= k < i :: !Lives(s.slots[k], id) {
      assert Locate(s.slots, id, 0) == i;
      StepExactly(Local(s.queue, s.slots[i]), WebServer.CloseClient);
    }
  }

  /** Slot k once the first event is taken: free if that is the disconnect (4) of its connection. */
  function Kept(s: Server, k: nat): Conn
    requires Whole(s) && s.queue != [] && k < 12
  {
    var e := s.queue[0];
    if e.kind == 4 && s.slots[k].used && s.slots[k].id == e.id then
      Conn(false, false, false, 0, false, false, false, [], OutBuffer(Zeros(65536), 0, 0))
    else s.slots[k]
  }

  /** The connection is dead, and its disconnect is not in the ring yet. */
  predicate Waits(c: Conn) {
    c.used && c.dead && !c.notified
  }

  /**
   A poll takes the first event; the slots of a connection whose disconnect that is become free. Then the disconnect of
   the first connection to which one is owed goes into the ring.
   */
  lemma {:induction false} PollExactly(s: Server, i: nat)
    requires Whole(s) && s.queue != [] && i <= 12
    requires forall k | 0 <= k < i :: !Waits(Kept(s, k))
    requires i < 12 ==> Waits(Kept(s, i))
    ensures var r := Poll(s);
      && r.nextId == s.nextId
      && r.queue == s.queue[1..] + (if i < 12 then [Event(4, Kept(s, i).id, 0, [])] else [])
      && forall k | 0 <= k < 12 :: r.slots[k] == if k == i then Kept(s, k).(notified := true) else Kept(s, k)
  {
    var t := Taken(s);
    forall k | 0 <= k < 12
      ensures t.slots[k] == Kept(s, k)
    {
    }
    assert FirstOwed(t.slots, 0) == i;
    assert s.queue[1..] + [] == s.queue[1..];
  }
}
