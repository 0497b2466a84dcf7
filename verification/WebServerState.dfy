/** The web server's slots, ring and counter, updated in place (native/kookie_web_server.c). */
module WebServerState {
  import opened Bytes
  import opened WebServer
  import opened WebConnection
  import opened Ring

  class State {
    const cs: seq<Connection>
    const ring: Ring<Event>
    var nextId: int

    ghost function Repr(): set<object> {
      {this, ring, ring.items} + set i, o | 0 <= i < |cs| && o in cs[i].Repr() :: o
    }

    ghost predicate Valid()
      reads Repr()
    {
      && |cs| == CONNECTIONS && ring.Valid() && ring.items.Length == EVENTS
      && (forall i | 0 <= i < |cs| :: cs[i].With(ring) && this !in cs[i].Repr())
      && (forall i, j | 0 <= i < j < |cs| :: cs[i].Repr() !! cs[j].Repr())
    }

    ghost function Slots(): (r: seq<Conn>)
      requires Valid()
      reads Repr()
      ensures |r| == CONNECTIONS && forall i | 0 <= i < CONNECTIONS :: r[i] == cs[i].Value()
    {
      seq(|cs|, i requires 0 <= i < |cs| reads Repr() requires Valid() => cs[i].Value())
    }

    ghost function Value(): (r: Server)
      requires Valid()
      reads Repr()
      ensures Whole(r)
    {
      Server(Slots(), ring.Contents(), nextId)
    }

    constructor ()
      ensures Valid() && fresh(Repr())
      ensures nextId == 1 && ring.Contents() == [] && forall i | 0 <= i < CONNECTIONS :: Slots()[i] == FREE
    {
      var events := new Ring<Event>(EVENTS, Event(0, 0, 0, []));
      var made := FreeSlots(events);
      cs, ring, nextId := made, events, 1;
    }

    static method FreeSlots(events: Ring<Event>) returns (made: seq<Connection>)
      requires events.Valid() && events.items.Length == EVENTS
      ensures |made| == CONNECTIONS && (forall i | 0 <= i < CONNECTIONS :: Made(made[i], events) && fresh(made[i].Repr()))
      ensures forall i, j | 0 <= i < j < CONNECTIONS :: made[i].Repr() !! made[j].Repr()
    {
      made := [];
      for k := 0 to CONNECTIONS
        invariant |made| == k && forall i | 0 <= i < k :: Made(made[i], events) && fresh(made[i].Repr())
        invariant forall i, j | 0 <= i < j < k :: made[i].Repr() !! made[j].Repr()
      {
        var c := new Connection();
        made := made + [c];
      }
    }

    static ghost predicate Made(c: Connection, events: Ring<Event>)
      reads c.Repr(), events
    {
      c.With(events) && c.Value() == FREE
    }

    method FirstFree() returns (i: nat)
      requires Valid()
      ensures i == WebServer.FirstFree(Value().slots, 0)
    {
      i := 0;
      while i < |cs| && cs[i].used
        invariant i <= |cs| && WebServer.FirstFree(Slots(), 0) == WebServer.FirstFree(Slots(), i)
      {
        i := i + 1;
      }
    }

    method TakeId() returns (id: int)
      requires Valid()
      modifies this
      ensures Valid() && id == old(nextId) && Value() == old(Value()).(nextId := NextId(id))
    {
      id := nextId;
      nextId := if nextId == MAXIMUM_ID then 1 else nextId + 1;
      assert Slots() == old(Slots());
    }

    method OpenSlot(i: nat, id: int)
      requires Valid() && i < CONNECTIONS
      modifies Repr()
      ensures Valid()
      ensures var s := old(Value());
        var l := WebServer.EmitOrDrop(Local(s.queue, FREE.(used := true, id := id)), ACCEPTED, 0, []);
        Value() == s.(slots := s.slots[i := l.conn], queue := l.queue)
    {
      cs[i].Open(ring, id);
      assert Slots() == old(Slots())[i := cs[i].Value()];
    }

    static lemma Accepted(s: Server)
      requires Whole(s)
      ensures var i, l := WebServer.FirstFree(s.slots, 0),
                          WebServer.EmitOrDrop(Local(s.queue, FREE.(used := true, id := s.nextId)), ACCEPTED, 0, []);
        WebServer.Accept(s)
        == if i == CONNECTIONS then s else Server(s.slots[i := l.conn], l.queue, NextId(s.nextId))
    {
    }

    /** The slot is taken under the next number. */
    method OpenNext(i: nat)
      requires Valid() && i < CONNECTIONS
      modifies Repr()
      ensures Valid()
      ensures var s := old(Value());
        var l := WebServer.EmitOrDrop(Local(s.queue, FREE.(used := true, id := s.nextId)), ACCEPTED, 0, []);
        Value() == Server(s.slots[i := l.conn], l.queue, NextId(s.nextId))
    {
      var id := TakeId();
      OpenSlot(i, id);
    }

    /** A socket is accepted into the first free slot. */
    method Accept()
      requires Valid()
      modifies Repr()
      ensures Valid() && Value() == WebServer.Accept(old(Value()))
    {
      var i := FirstFree();
      Accepted(Value());
      if i < |cs| {
        OpenNext(i);
      }
    }

    method Read(i: nat, chunk: seq<byte>, key: bool)
      requires Valid() && i < CONNECTIONS && cs[i].used && !cs[i].dead
      requires Proper(cs[i].Value(), Receive(chunk, key))
      modifies Repr()
      ensures Valid() && Value() == StepSlot(old(Value()), i, Receive(chunk, key))
    {
      cs[i].Read(ring, chunk, key);
      assert Slots() == old(Slots())[i := cs[i].Value()];
    }

    method Locate(id: int) returns (i: nat)
      requires Valid()
      ensures i == WebServer.Locate(Value().slots, id, 0)
    {
      i := 0;
      while i < |cs| && !(cs[i].used && cs[i].id == id && !cs[i].dead)
        invariant i <= |cs| && WebServer.Locate(Slots(), id, 0) == WebServer.Locate(Slots(), id, i)
      {
        i := i + 1;
      }
    }

    static lemma Located(s: Server, id: int)
      requires Whole(s)
      ensures var i := WebServer.Locate(s.slots, id, 0);
        CloseById(s, id) == if i == CONNECTIONS then s else StepSlot(s, i, WebServer.CloseClient)
    {
    }

    method CloseClient(id: int) returns (ok: bool)
      requires Valid()
      modifies Repr()
      ensures Valid() && Value() == CloseById(old(Value()), id)
      ensures ok == (WebServer.Locate(old(Value()).slots, id, 0) < CONNECTIONS)
    {
      var i := Locate(id);
      Located(Value(), id);
      if i == |cs| {
        return false;
      }
      DropSlot(i);
      return true;
    }

    method DropSlot(i: nat)
      requires Valid() && i < CONNECTIONS && Value().slots[i].used && !Value().slots[i].dead
      modifies Repr()
      ensures Valid() && Value() == StepSlot(old(Value()), i, WebServer.CloseClient)
    {
      cs[i].CloseClient(ring);
      assert Slots() == old(Slots())[i := cs[i].Value()];
    }

    /** Frees the slots from number k back that the connection held. */
    method ReleaseSlots(id: int)
      requires Valid()
      modifies Repr()
      ensures Valid() && ring.Contents() == old(ring.Contents()) && nextId == old(nextId)
      ensures Slots() == Release(old(Slots()), id, 0)
    {
      ghost var was := Slots();
      for k := 0 to CONNECTIONS
        invariant Valid() && ring.Contents() == old(ring.Contents()) && nextId == old(nextId)
        invariant forall i | k <= i < CONNECTIONS :: Slots()[i] == was[i]
        invariant forall i | 0 <= i < k :: Slots()[i] == Release(was, id, 0)[i]
      {
        if cs[k].used && cs[k].id == id {
          FreeSlot(k);
        }
      }
    }

    method FreeSlot(i: nat)
      requires Valid() && i < CONNECTIONS
      modifies Repr()
      ensures Valid() && ring.Contents() == old(ring.Contents()) && nextId == old(nextId)
      ensures Slots() == old(Slots())[i := FREE]
    {
      cs[i].Clear();
      assert Slots() == old(Slots())[i := cs[i].Value()];
    }

    method NotifyFirst()
      requires Valid()
      modifies Repr()
      ensures Valid() && Value() == Notify(old(Value()))
    {
      var i := 0;
      while i < |cs| && !(cs[i].used && cs[i].dead && !cs[i].notified)
        invariant i <= |cs| && FirstOwed(Slots(), 0) == FirstOwed(Slots(), i)
      {
        i := i + 1;
      }
      if i < |cs| {
        NotifySlot(i);
      }
    }

    method NotifySlot(i: nat)
      requires Valid() && i < CONNECTIONS
      modifies Repr()
      ensures Valid()
      ensures var (queue, ok) := WebServer.Emit(old(ring.Contents()), Event(DISCONNECT, old(Slots())[i].id, 0, []));
        Value() == old(Value()).(queue := queue, slots := old(Slots())[i := old(Slots())[i].(notified := ok)])
    {
      cs[i].Notify(ring);
      assert Slots() == old(Slots())[i := cs[i].Value()];
    }

    method Poll() returns (e: Event)
      requires Valid() && ring.count > 0
      modifies Repr()
      ensures Valid() && e == old(ring.Contents())[0]
      ensures Value() == WebServer.Poll(old(Value()))
    {
      e := TakeEvent();
      if e.kind == DISCONNECT {
        ReleaseSlots(e.id);
      }
      NotifyFirst();
    }

    method TakeEvent() returns (e: Event)
      requires Valid() && ring.count > 0
      modifies ring
      ensures Valid() && [e] + ring.Contents() == old(ring.Contents()) && Slots() == old(Slots())
    {
      e := ring.Take();
      assert Slots() == old(Slots());
    }
  }
}
