/** What every run of the rendezvous keeps, what its replies carry, and how far its sequence numbers reach. */
module RendezvousLaws {
  import opened Results
  import opened Bytes
  import opened Datagrams
  import opened Rendezvous

  // ----- One room per address, two clients per room -----

  /** The room is the same or has lost clients. */
  ghost predicate Within(now: Room, was: Room) {
    now.number == was.number && forall a: Address :: Has(now, a) ==> Has(was, a)
  }

  lemma ReplaceSound(rooms: seq<Room>, i: nat, r: Room)
    requires Sound(rooms) && i < |rooms| && RoomSound(r) && Two(r.clients) && Within(r, rooms[i])
    ensures Sound(rooms[i := r])
  {
    var after := rooms[i := r];
    forall m, k | 0 <= m < k < |after|
      ensures after[m].number != after[k].number && forall a: Address :: !(Has(after[m], a) && Has(after[k], a))
    {
      assert rooms[m].number != rooms[k].number;
    }
  }

  lemma SetClientSound(rooms: seq<Room>, i: nat, j: nat, c: Client)
    requires Sound(rooms) && i < |rooms| && j < |rooms[i].clients| && ClientSound(c)
    requires c.address == rooms[i].clients[j].address
    ensures Sound(SetClient(rooms, i, j, c))
  {
    var was := rooms[i];
    var now := was.(clients := was.clients[j := c]);
    assert RoomSound(was) && Two(was.clients);
    forall a: Address | Has(now, a)
      ensures Has(was, a)
    {
      var k :| 0 <= k < |now.clients| && now.clients[k].address == a;
      assert was.clients[k].address == a;
    }
    ReplaceSound(rooms, i, now);
  }

  lemma DropRoomSound(rooms: seq<Room>, i: nat)
    requires Sound(rooms) && i < |rooms|
    ensures Sound(rooms[..i] + rooms[i + 1..])
  {
    var after := rooms[..i] + rooms[i + 1..];
    forall m, k | 0 <= m < k < |after|
      ensures after[m].number != after[k].number && forall a: Address :: !(Has(after[m], a) && Has(after[k], a))
    {
      var m0, k0 := if m < i then m else m + 1, if k < i then k else k + 1;
      assert after[m] == rooms[m0] && after[k] == rooms[k0];
    }
  }

  lemma RemoveSound(rooms: seq<Room>, i: nat, j: nat)
    requires Sound(rooms) && i < |rooms| && j < |rooms[i].clients|
    ensures Sound(Remove(rooms, i, j))
  {
    var was := rooms[i];
    var left := was.clients[..j] + was.clients[j + 1..];
    assert RoomSound(was) && Two(was.clients);
    if left == [] {
      DropRoomSound(rooms, i);
    } else {
      var now := was.(clients := left);
      forall k | 0 <= k < |left|
        ensures left[k] == was.clients[if k < j then k else k + 1]
      {
      }
      forall a: Address | Has(now, a)
        ensures Has(was, a)
      {
        var k :| 0 <= k < |left| && left[k].address == a;
        assert was.clients[if k < j then k else k + 1].address == a;
      }
      ReplaceSound(rooms, i, now);
    }
  }

  ghost predicate Nowhere(rooms: seq<Room>, address: Address) {
    forall i | 0 <= i < |rooms| :: !Has(rooms[i], address)
  }

  /** Whoever is removed was in no other room. */
  lemma RemovedNowhere(rooms: seq<Room>, i: nat, j: nat)
    requires Sound(rooms) && i < |rooms| && j < |rooms[i].clients|
    ensures Nowhere(Remove(rooms, i, j), rooms[i].clients[j].address)
  {
    var was, address := rooms[i], rooms[i].clients[j].address;
    var left := was.clients[..j] + was.clients[j + 1..];
    assert Two(was.clients) && Has(was, address);
    forall k | 0 <= k < |Remove(rooms, i, j)|
      ensures !Has(Remove(rooms, i, j)[k], address)
    {
      var now := Remove(rooms, i, j)[k];
      if left != [] && k == i {
        forall m | 0 <= m < |left|
          ensures left[m].address != address
        {
          assert left[m] == was.clients[if m < j then m else m + 1];
        }
      } else {
        var k0 := if left == [] && k >= i then k + 1 else k;
        assert now == rooms[k0] && k0 != i;
      }
    }
  }

  lemma FindNowhere(rooms: seq<Room>, address: Address)
    requires Find(rooms, address, 0) == |rooms|
    ensures Nowhere(rooms, address)
  {
    forall i | 0 <= i < |rooms|
      ensures !Has(rooms[i], address)
    {
      assert ClientIndex(rooms[i].clients, address, 0) == |rooms[i].clients|;
    }
  }

  lemma OpenRoomSound(rooms: seq<Room>, r: Room, address: Address)
    requires Sound(rooms) && |rooms| < MAX_ROOMS && RoomSound(r) && |r.clients| == 1 && r.clients[0].address == address
    requires Nowhere(rooms, address) && forall k | 0 <= k < |rooms| :: rooms[k].number != r.number
    ensures Sound(rooms + [r])
  {
    var after := rooms + [r];
    forall m, k | 0 <= m < k < |after|
      ensures after[m].number != after[k].number && forall a: Address :: !(Has(after[m], a) && Has(after[k], a))
    {
      assert !Has(rooms[m], address);
    }
  }

  lemma EnterRoomSound(rooms: seq<Room>, i: nat, c: Client)
    requires Sound(rooms) && i < |rooms| && |rooms[i].clients| < 2 && ClientSound(c) && Nowhere(rooms, c.address)
    ensures Sound(rooms[i := rooms[i].(clients := rooms[i].clients + [c])])
  {
    var was := rooms[i];
    var now := was.(clients := was.clients + [c]);
    var after := rooms[i := now];
    assert RoomSound(was) && !Has(was, c.address);
    forall a: Address | Has(now, a)
      ensures Has(was, a) || a == c.address
    {
      var k :| 0 <= k < |now.clients| && now.clients[k].address == a;
      if k < |was.clients| {
        assert was.clients[k].address == a;
      }
    }
    forall m, k | 0 <= m < k < |after|
      ensures after[m].number != after[k].number && forall a: Address :: !(Has(after[m], a) && Has(after[k], a))
    {
      assert rooms[m].number != rooms[k].number;
      assert !Has(rooms[m], c.address) && !Has(rooms[k], c.address);
    }
  }

  lemma JoinSound(rooms: seq<Room>, address: Address, q: Request, now: int)
    requires Sound(rooms) && Nowhere(rooms, address) && Proper(q)
    ensures Sound(Join(rooms, address, q, now).0)
  {
    var k, c := RoomIndex(rooms, q.room, 0), NewClient(address, q, now);
    if k == |rooms| && |rooms| < MAX_ROOMS {
      OpenRoomSound(rooms, Room(q.room, [c]), address);
    } else if k < |rooms| && |rooms[k].clients| < 2 {
      EnterRoomSound(rooms, k, c);
    }
  }

  lemma AdmitSound(rooms: seq<Room>, address: Address, q: Request, now: int)
    requires Sound(rooms) && Proper(q)
    ensures Sound(Admit(rooms, address, q, now).0)
  {
    var i := Find(rooms, address, 0);
    if i == |rooms| {
      FindNowhere(rooms, address);
      JoinSound(rooms, address, q, now);
    } else {
      var j := ClientIndex(rooms[i].clients, address, 0);
      assert RoomSound(rooms[i]);
      if rooms[i].number != q.room {
        RemoveSound(rooms, i, j);
        RemovedNowhere(rooms, i, j);
        JoinSound(Remove(rooms, i, j), address, q, now);
      } else if q.sequence > rooms[i].clients[j].lastSequence {
        SetClientSound(rooms, i, j, Refresh(rooms[i].clients[j], q, now));
      }
    }
  }

  lemma BothSentSound(rooms: seq<Room>, i: nat)
    requires Sound(rooms) && i < |rooms| && |rooms[i].clients| == 2
    ensures Sound(rooms[i := rooms[i].(clients := [Sent(rooms[i].clients[0]), Sent(rooms[i].clients[1])])])
  {
    var c0, c1 := Sent(rooms[i].clients[0]), Sent(rooms[i].clients[1]);
    assert RoomSound(rooms[i]);
    SetClientSound(rooms, i, 0, c0);
    var once := SetClient(rooms, i, 0, c0);
    SetClientSound(once, i, 1, c1);
    assert once[i].clients[1 := c1] == [c0, c1];
    assert SetClient(once, i, 1, c1) == rooms[i := rooms[i].(clients := [c0, c1])];
  }

  lemma GreetSound(mac: Tagger, rooms: seq<Room>, i: nat, j: nat)
    requires Sound(rooms) && i < |rooms| && j < |rooms[i].clients| <= 2 && rooms[i].number < LIMIT_32
    ensures Sound(Greet(mac, rooms, i, j).0)
  {
    assert RoomSound(rooms[i]);
    if |rooms[i].clients| < 2 {
      SetClientSound(rooms, i, j, Sent(rooms[i].clients[j]));
    } else {
      BothSentSound(rooms, i);
    }
  }

  /** Whatever datagram comes from whatever address, the rooms stay sound. */
  lemma HandleSound(mac: Tagger, rooms: seq<Room>, data: seq<byte>, address: Address, now: int)
    requires Sound(rooms)
    ensures Sound(Handle(mac, rooms, data, address, now).0)
  {
    var q := ReadRequest(mac, data);
    if q.Some? {
      AdmitRooms(rooms, address, q.value, now);
      AdmitSound(rooms, address, q.value, now);
      var (admitted, place) := Admit(rooms, address, q.value, now);
      if place.In? {
        assert RoomSound(admitted[place.i]);
        if q.value.operation == LEAVE {
          RemoveSound(admitted, place.i, place.j);
        } else if q.value.operation == HELLO {
          GreetSound(mac, admitted, place.i, place.j);
        }
      }
    }
  }

  // ----- Expiry -----

  lemma {:induction false} FreshFrom(clients: seq<Client>, now: int, k: nat)
    requires k < |Fresh(clients, now)|
    ensures exists j :: k <= j < |clients| && clients[j] == Fresh(clients, now)[k]
    decreases |clients|
  {
    if now - clients[0].lastSeen > ROOM_TTL {
      FreshFrom(clients[1..], now, k);
      var j :| k <= j < |clients[1..]| && clients[1..][j] == Fresh(clients, now)[k];
      assert clients[j + 1] == Fresh(clients, now)[k];
    } else if k > 0 {
      FreshFrom(clients[1..], now, k - 1);
      var j :| k - 1 <= j < |clients[1..]| && clients[1..][j] == Fresh(clients, now)[k];
      assert clients[j + 1] == Fresh(clients, now)[k];
    }
  }

  lemma FreshRoom(r: Room, now: int)
    requires RoomSound(r) && Two(r.clients) && Fresh(r.clients, now) != []
    ensures var f := r.(clients := Fresh(r.clients, now)); RoomSound(f) && Two(f.clients) && Within(f, r)
  {
    var clients := Fresh(r.clients, now);
    var f := r.(clients := clients);
    forall k | 0 <= k < |clients|
      ensures ClientSound(clients[k])
    {
      FreshFrom(r.clients, now, k);
    }
    if |clients| == 2 {
      FreshFrom(r.clients, now, 0);
      FreshFrom(r.clients, now, 1);
      FreshBoth(r.clients, now);
    }
    forall a: Address | Has(f, a)
      ensures Has(r, a)
    {
      var k :| 0 <= k < |clients| && clients[k].address == a;
      FreshFrom(r.clients, now, k);
    }
  }

  lemma FreshBoth(clients: seq<Client>, now: int)
    requires |clients| == 2 && |Fresh(clients, now)| == 2
    ensures Fresh(clients, now) == clients
  {
    var rest := clients[1..];
    assert rest[1..] == [];
    assert Fresh(rest[1..], now) == [];
    assert Fresh(rest, now) == (if now - rest[0].lastSeen <= ROOM_TTL then [rest[0]] else []) + [];
  }

  /** Room k after the expiry is a room from before, less the clients that were not heard of. */
  lemma {:induction false} ExpireFrom(rooms: seq<Room>, now: int, k: nat)
    requires k < |Expire(rooms, now)| && forall i | 0 <= i < |rooms| :: RoomSound(rooms[i]) && Two(rooms[i].clients)
    ensures exists i | 0 <= i < |rooms| :: Within(Expire(rooms, now)[k], rooms[i])
    ensures RoomSound(Expire(rooms, now)[k]) && Two(Expire(rooms, now)[k].clients)
    decreases |rooms|
  {
    var clients, rest := Fresh(rooms[0].clients, now), rooms[1..];
    var r := Expire(rooms, now)[k];
    if clients != [] && k == 0 {
      FreshRoom(rooms[0], now);
      assert Within(r, rooms[0]);
    } else {
      ExpireFrom(rest, now, if clients == [] then k else k - 1);
      var i :| 0 <= i < |rest| && Within(r, rest[i]);
      assert Within(r, rooms[i + 1]);
    }
  }

  /** Expiry keeps the rooms sound. */
  lemma {:induction false} ExpireSound(rooms: seq<Room>, now: int)
    requires Sound(rooms)
    ensures Sound(Expire(rooms, now)) && |Expire(rooms, now)| <= |rooms|
    decreases |rooms|
  {
    if rooms != [] {
      var rest, after := rooms[1..], Expire(rooms, now);
      forall m, k | 0 <= m < k < |rest|
        ensures rest[m].number != rest[k].number && forall a: Address :: !(Has(rest[m], a) && Has(rest[k], a))
      {
        assert rooms[m + 1].number != rooms[k + 1].number;
      }
      ExpireSound(rest, now);
      forall k | 0 <= k < |after|
        ensures RoomSound(after[k]) && Two(after[k].clients)
      {
        ExpireFrom(rooms, now, k);
      }
      FirstApart(rooms, now);
    }
  }

  lemma FirstApart(rooms: seq<Room>, now: int)
    requires Sound(rooms) && rooms != [] && Apart(Expire(rooms[1..], now))
    ensures Apart(Expire(rooms, now))
  {
    var rest, after := Expire(rooms[1..], now), Expire(rooms, now);
    if Fresh(rooms[0].clients, now) != [] {
      var first := after[0];
      FreshRoom(rooms[0], now);
      forall m, k | 0 <= m < k < |after|
        ensures after[m].number != after[k].number && forall a: Address :: !(Has(after[m], a) && Has(after[k], a))
      {
        assert after[k] == rest[k - 1];
        if m == 0 {
          ExpireFrom(rooms[1..], now, k - 1);
          var i :| 0 <= i < |rooms[1..]| && Within(rest[k - 1], rooms[1..][i]);
          assert rooms[0].number != rooms[i + 1].number;
        } else {
          assert after[m] == rest[m - 1];
        }
      }
    }
  }

  // ----- Every run -----

  datatype Event = Datagram(data: seq<byte>, address: Address, now: int) | Timeout(now: int)

  ghost function Stepped(mac: Tagger, rooms: seq<Room>, e: Event): seq<Room>
    requires Sound(rooms)
  {
    match e
    case Datagram(data, address, now) => Handle(mac, rooms, data, address, now).0
    case Timeout(now) => Expire(rooms, now)
  }

  lemma StepSound(mac: Tagger, rooms: seq<Room>, e: Event)
    requires Sound(rooms)
    ensures Sound(Stepped(mac, rooms, e))
  {
    match e
    case Datagram(data, address, now) => HandleSound(mac, rooms, data, address, now);
    case Timeout(now) => ExpireSound(rooms, now);
  }

  /** The rooms after these events. */
  ghost function After(mac: Tagger, rooms: seq<Room>, events: seq<Event>): (r: seq<Room>)
    requires Sound(rooms)
    ensures Sound(r)
    decreases |events|
  {
    if events == [] then rooms
    else
      StepSound(mac, rooms, events[0]);
      After(mac, Stepped(mac, rooms, events[0]), events[1..])
  }

  /**
   After any run of datagrams and timeouts every room has one or two clients, no address is in two rooms, and there are
   at most 4096 rooms.
   */
  lemma EveryRun(mac: Tagger, events: seq<Event>, address: Address, i: nat, k: nat)
    ensures var rooms := After(mac, [], events);
      && |rooms| <= MAX_ROOMS
      && (i < |rooms| ==> 1 <= |rooms[i].clients| <= 2)
      && (i < |rooms| && k < |rooms| && Has(rooms[i], address) && Has(rooms[k], address) ==> i == k)
  {
    var rooms := After(mac, [], events);
    if i < |rooms| {
      assert RoomSound(rooms[i]);
    }
  }

  // ----- Replies -----

  /** The frame that a client gets carries this payload, under the next number that it was sent. */
  lemma ReplyReads(mac: Tagger, c: Client, payload: seq<Word32>)
    requires 0 < |payload| <= MAX_WORDS
    ensures Unpack(mac, MAX_WORDS, ReplyTo(mac, c, payload).bytes) == Some(Message(NextSequence(c.sendSequence), payload))
  {
    UnpackPacked(mac, MAX_WORDS, NextSequence(c.sendSequence), payload);
  }

  /**
   A hello that is let in is answered: alone, its sender is told to wait; with a peer, both are told, each the other's
   address, in frames that unpack to just that.
   */
  lemma HelloAnswered(mac: Tagger, rooms: seq<Room>, data: seq<byte>, address: Address, now: int)
    requires Sound(rooms) && ReadRequest(mac, data).Some? && ReadRequest(mac, data).value.operation == HELLO
    requires Admit(rooms, address, ReadRequest(mac, data).value, now).1.In?
    ensures var (r, place) := Admit(rooms, address, ReadRequest(mac, data).value, now);
      var replies := Handle(mac, rooms, data, address, now).1;
      && place.i < |r| && place.j < |r[place.i].clients|
      && var clients, number: Word32 := r[place.i].clients, ReadRequest(mac, data).value.room;
      if |clients| == 1 then
        && |replies| == 1 && replies[0].to == address
        && Unpack(mac, MAX_WORDS, replies[0].bytes)
           == Some(Message(NextSequence(clients[0].sendSequence), WaitPayload(number)))
      else
        && |clients| == 2 && |replies| == 2 && (clients[0].address == address || clients[1].address == address)
        && replies[0].to == clients[0].address && replies[1].to == clients[1].address
        && Unpack(mac, MAX_WORDS, replies[0].bytes)
           == Some(Message(NextSequence(clients[0].sendSequence), PeerPayload(number, clients[1].address)))
        && Unpack(mac, MAX_WORDS, replies[1].bytes)
           == Some(Message(NextSequence(clients[1].sendSequence), PeerPayload(number, clients[0].address)))
  {
    var q := ReadRequest(mac, data).value;
    var (r, place) := Admit(rooms, address, q, now);
    AdmitRooms(rooms, address, q, now);
    AdmitSound(rooms, address, q, now);
    assert RoomSound(r[place.i]);
    var clients := r[place.i].clients;
    if |clients| == 1 {
      ReplyReads(mac, clients[0], WaitPayload(q.room));
    } else {
      ReplyReads(mac, clients[0], PeerPayload(q.room, clients[1].address));
      ReplyReads(mac, clients[1], PeerPayload(q.room, clients[0].address));
    }
  }

  // ----- Sequence numbers -----

  /** The sender is in the room that they ask for, and was heard there with this number or a later one. */
  ghost predicate HeardBefore(rooms: seq<Room>, address: Address, q: Request) {
    exists i, j | 0 <= i < |rooms| && 0 <= j < |rooms[i].clients| ::
      rooms[i].number == q.room && rooms[i].clients[j].address == address && q.sequence <= rooms[i].clients[j].lastSequence
  }

  /** There is no place for a sender who is in no room. */
  ghost predicate NoPlace(rooms: seq<Room>, q: Request) {
    var k := RoomIndex(rooms, q.room, 0);
    if k == |rooms| then |rooms| >= MAX_ROOMS else |rooms[k].clients| >= 2
  }

  lemma FindOnly(rooms: seq<Room>, address: Address, i: nat, j: nat)
    requires Sound(rooms) && i < |rooms| && j < |rooms[i].clients| && rooms[i].clients[j].address == address
    ensures Find(rooms, address, 0) == i && ClientIndex(rooms[i].clients, address, 0) == j
  {
    var f := Find(rooms, address, 0);
    assert Has(rooms[i], address) && Two(rooms[i].clients);
    assert ClientIndex(rooms[i].clients, address, 0) < |rooms[i].clients|;
    assert Has(rooms[f], address);
  }

  /** A request is put off, with nothing said and nothing changed, exactly if it was heard before or finds no place. */
  lemma PutOffExactly(rooms: seq<Room>, address: Address, q: Request, now: int)
    requires Sound(rooms) && Proper(q)
    ensures Admit(rooms, address, q, now) == (rooms, Out)
       <==> HeardBefore(rooms, address, q) || (Nowhere(rooms, address) && NoPlace(rooms, q))
  {
    var i := Find(rooms, address, 0);
    if HeardBefore(rooms, address, q) {
      var a, b :| 0 <= a < |rooms| && 0 <= b < |rooms[a].clients| && rooms[a].number == q.room
                  && rooms[a].clients[b].address == address && q.sequence <= rooms[a].clients[b].lastSequence;
      FindOnly(rooms, address, a, b);
    } else if i == |rooms| {
      FindNowhere(rooms, address);
    } else {
      var j := ClientIndex(rooms[i].clients, address, 0);
      assert Has(rooms[i], address) && RoomSound(rooms[i]);
      if rooms[i].number != q.room {
        RemovedNowhere(rooms, i, j);
        MovedOn(rooms, i, j, address, q, now);
      }
    }
  }

  /** Whoever asks for another room has left the old one, whether there is a place for them or not. */
  lemma MovedOn(rooms: seq<Room>, i: nat, j: nat, address: Address, q: Request, now: int)
    requires Sound(rooms) && i < |rooms| && j < |rooms[i].clients| && rooms[i].clients[j].address == address
    requires Nowhere(Remove(rooms, i, j), address)
    ensures Join(Remove(rooms, i, j), address, q, now) != (rooms, Out)
  {
    assert Has(rooms[i], address);
  }

  /** Within one stay in one room, whatever is let in has a higher number than all before it, and is noted. */
  lemma SequenceRises(rooms: seq<Room>, address: Address, q: Request, now: int, i: nat, j: nat)
    requires Sound(rooms) && Proper(q) && i < |rooms| && j < |rooms[i].clients|
    requires rooms[i].number == q.room && rooms[i].clients[j].address == address
    ensures var (r, place) := Admit(rooms, address, q, now);
      if q.sequence <= rooms[i].clients[j].lastSequence then (r, place) == (rooms, Out)
      else place == In(i, j) && r[i].clients[j].lastSequence == q.sequence
  {
    FindOnly(rooms, address, i, j);
  }

  /** What a client in no room asks for, and what a client who leaves asks for, of a rendezvous without rooms. */
  lemma StayForgotten(address: Address, hello: Request, leave: Request, now: int, again: int)
    requires Proper(hello) && Proper(leave) && hello.room == leave.room && hello.sequence < leave.sequence
    ensures var once := [Room(hello.room, [NewClient(address, hello, now)])];
      && Admit([], address, hello, now) == (once, In(0, 0)) && Admit(once, address, hello, again) == (once, Out)
      && var (twice, place) := Admit(once, address, leave, again);
      place == In(0, 0) && |twice| == 1 && |twice[0].clients| == 1 && Remove(twice, 0, 0) == []
  {
    var c := NewClient(address, hello, now);
    var once := [Room(hello.room, [c])];
    assert [] + once == once && RoomIndex([], hello.room, 0) == 0 && Find([], address, 0) == 0;
    assert Admit([], address, hello, now) == (once, In(0, 0));
    assert ClientIndex(once[0].clients, address, 0) == 0 && Find(once, address, 0) == 0;
    var twice := SetClient(once, 0, 0, Refresh(c, leave, again));
    assert Admit(once, address, leave, again) == (twice, In(0, 0));
    assert Remove(twice, 0, 0) == [];
  }

  /** The words of a request for this room, in this role and under this name. */
  function AskingWords(operation: Word32, room: Word32, role: Word32, name: Word32): seq<Word32> {
    [LOBBY_MAGIC, LOBBY_VERSION, operation, room, role, name]
  }

  lemma AskingReads(mac: Tagger, sequence: Word32, operation: Word32, room: Word32, role: Word32, name: Word32)
    requires 0 < sequence && 1 <= room <= MAX_ROOM_NUMBER && (role == 1 || role == 2)
    ensures ReadRequest(mac, Pack(mac, sequence, AskingWords(operation, room, role, name)))
         == Some(Request(sequence, operation, room, role, name))
  {
    UnpackPacked(mac, MAX_WORDS, sequence, AskingWords(operation, room, role, name));
  }

  /**
   A stay that has ended is forgotten. The datagram of a hello is passed over while its sender stays in the room; but
   once they have left, the very same bytes are let in and answered again, however old their number is.
   */
  lemma ReplayAfterLeave(
    mac: Tagger, address: Address, first: Word32, last: Word32, room: Word32, role: Word32, name: Word32,
    now: int, again: int)
    requires 0 < first < last && 1 <= room <= MAX_ROOM_NUMBER && (role == 1 || role == 2)
    ensures var hello := Pack(mac, first, AskingWords(HELLO, room, role, name));
      var leave := Pack(mac, last, AskingWords(LEAVE, room, role, name));
      var (once, replies) := Handle(mac, [], hello, address, now);
      && |once| == 1 && |replies| == 1 && RoomSound(once[0])
      && Handle(mac, once, hello, address, again) == (once, [])
      && Handle(mac, once, leave, address, again) == ([], [])
      && Handle(mac, [], hello, address, again).1 == replies
  {
    var q, bye := Request(first, HELLO, room, role, name), Request(last, LEAVE, room, role, name);
    AskingReads(mac, first, HELLO, room, role, name);
    AskingReads(mac, last, LEAVE, room, role, name);
    StayForgotten(address, q, bye, now, again);
    StayForgotten(address, q, bye, again, again);
  }
}
