/**
 What a datagram and the passing of time do to each room (scripts/kookie_rendezvous.py), told from the room's one or two
 clients alone, and the words of every reply.
 */
module RendezvousRooms {
  import opened Results
  import opened Bytes
  import opened Datagrams
  import opened Rendezvous
  import opened RendezvousLaws

  // ----- Looking a room up -----

  /** The clients of the room with this number; none if there is no such room. */
  function There(rooms: seq<Room>, number: nat): seq<Client> {
    if rooms == [] then []
    else if rooms[0].number == number then rooms[0].clients
    else There(rooms[1..], number)
  }

  ghost predicate Numbered(rooms: seq<Room>) {
    forall i, k | 0 <= i < k < |rooms| :: rooms[i].number != rooms[k].number
  }

  lemma {:induction false} ThereAt(rooms: seq<Room>, i: nat)
    requires Numbered(rooms) && i < |rooms|
    ensures There(rooms, rooms[i].number) == rooms[i].clients
    decreases i
  {
    if i > 0 {
      assert rooms[0].number != rooms[i].number;
      ThereAt(rooms[1..], i - 1);
    }
  }

  lemma {:induction false} ThereNone(rooms: seq<Room>, number: nat)
    requires forall i | 0 <= i < |rooms| :: rooms[i].number != number
    ensures There(rooms, number) == []
  {
    if rooms != [] {
      ThereNone(rooms[1..], number);
    }
  }

  lemma {:induction false} ThereIndexed(rooms: seq<Room>, number: nat)
    requires Numbered(rooms)
    ensures var k := RoomIndex(rooms, number, 0); There(rooms, number) == if k < |rooms| then rooms[k].clients else []
  {
    var k := RoomIndex(rooms, number, 0);
    if k < |rooms| {
      ThereAt(rooms, k);
    } else {
      ThereNone(rooms, number);
    }
  }

  /** The room at place i has other clients now; the rest is as it was. */
  lemma {:induction false} ThereSet(rooms: seq<Room>, i: nat, clients: seq<Client>, number: nat)
    requires Numbered(rooms) && i < |rooms|
    ensures There(rooms[i := rooms[i].(clients := clients)], number)
         == if number == rooms[i].number then clients else There(rooms, number)
  {
    var after := rooms[i := rooms[i].(clients := clients)];
    assert forall k | 0 <= k < |rooms| :: after[k].number == rooms[k].number;
    ThereIndexed(rooms, number);
    ThereIndexed(after, number);
    ThereAt(after, i);
  }

  lemma {:induction false} ThereDropped(rooms: seq<Room>, i: nat, number: nat)
    requires Numbered(rooms) && i < |rooms|
    ensures There(rooms[..i] + rooms[i + 1..], number)
         == if number == rooms[i].number then [] else There(rooms, number)
  {
    var after := rooms[..i] + rooms[i + 1..];
    assert forall k | 0 <= k < |after| :: after[k] == rooms[if k < i then k else k + 1];
    var k := RoomIndex(rooms, number, 0);
    ThereIndexed(rooms, number);
    if k == |rooms| || k == i {
      ThereNone(after, number);
    } else {
      ThereAt(after, if k < i then k else k - 1);
    }
  }

  lemma {:induction false} ThereMore(rooms: seq<Room>, r: Room, number: nat)
    requires Numbered(rooms) && forall k | 0 <= k < |rooms| :: rooms[k].number != r.number
    ensures There(rooms + [r], number) == if number == r.number then r.clients else There(rooms, number)
  {
    var after, k := rooms + [r], RoomIndex(rooms, number, 0);
    ThereIndexed(rooms, number);
    if number == r.number {
      ThereAt(after, |rooms|);
    } else if k < |rooms| {
      ThereAt(after, k);
    } else {
      ThereNone(after, number);
    }
  }

  // ----- A room's clients -----

  function Name(name: nat): nat { if name == 1 || name == 2 || name == 3 || name == 4 then name else 1 }

  predicate Here(clients: seq<Client>, address: Address) {
    (|clients| >= 1 && clients[0].address == address) || (|clients| == 2 && clients[1].address == address)
  }

  /** The one of the clients that has this address. */
  function Mine(clients: seq<Client>, address: Address): Client
    requires Here(clients, address)
  {
    if clients[0].address == address then clients[0] else clients[1]
  }

  /** The clients but the one with this address. */
  function Others(clients: seq<Client>, address: Address): seq<Client> {
    (if |clients| >= 1 && clients[0].address != address then [clients[0]] else [])
    + (if |clients| == 2 && clients[1].address != address then [clients[1]] else [])
  }

  /** The client with this address is heard again; the other stays as it is. */
  function Heard(clients: seq<Client>, address: Address, q: Request, now: int): seq<Client>
    requires Here(clients, address)
  {
    var sent := Mine(clients, address).sendSequence;
    var me := Client(address, q.role, Name(q.name), q.sequence, sent, now);
    if |clients| == 1 then [me] else if clients[0].address == address then [me, clients[1]] else [clients[0], me]
  }

  function Newcomer(address: Address, q: Request, now: int): Client {
    Client(address, q.role, Name(q.name), q.sequence, 0, now)
  }

  /** The client is the only one of a room other than this one. */
  ghost predicate AloneElsewhere(rooms: seq<Room>, address: Address, number: nat) {
    exists i | 0 <= i < |rooms| :: rooms[i].number != number && |rooms[i].clients| == 1
        && rooms[i].clients[0].address == address
  }

  /** How many rooms there are once the sender has left a room other than the one asked for. */
  ghost function RoomsLeft(rooms: seq<Room>, address: Address, number: nat): int {
    |rooms| - if AloneElsewhere(rooms, address, number) then 1 else 0
  }

  lemma {:induction false} FoundHere(rooms: seq<Room>, address: Address, number: nat)
    requires Sound(rooms)
    ensures var i := Find(rooms, address, 0);
      Here(There(rooms, number), address) <==> i < |rooms| && rooms[i].number == number
  {
    var i, k := Find(rooms, address, 0), RoomIndex(rooms, number, 0);
    ThereIndexed(rooms, number);
    if k < |rooms| {
      assert RoomSound(rooms[k]);
      if Here(rooms[k].clients, address) {
        FindOnly(rooms, address, k, if rooms[k].clients[0].address == address then 0 else 1);
      }
    }
    if i < |rooms| {
      var j := ClientIndex(rooms[i].clients, address, 0);
      assert RoomSound(rooms[i]) && rooms[i].clients[j].address == address && (j == 0 || j == 1);
      assert rooms[i].number == number ==> k == i;
    }
  }

  lemma {:induction false} RoomShape(rooms: seq<Room>, i: nat)
    requires Sound(rooms) && i < |rooms|
    ensures 1 <= |rooms[i].clients| <= 2 && There(rooms, rooms[i].number) == rooms[i].clients
    ensures |rooms[i].clients| == 2 ==> rooms[i].clients[0].address != rooms[i].clients[1].address
  {
    assert RoomSound(rooms[i]) && Two(rooms[i].clients);
    ThereAt(rooms, i);
  }

  lemma {:induction false} RemovedOthers(clients: seq<Client>, j: nat)
    requires 1 <= |clients| <= 2 && j < |clients| && (|clients| == 2 ==> clients[0].address != clients[1].address)
    ensures clients[..j] + clients[j + 1..] == Others(clients, clients[j].address)
  {
  }

  /** Whoever leaves is in their room no more, and in no other. */
  lemma {:induction false} RemoveMeans(rooms: seq<Room>, i: nat, j: nat, number: nat)
    requires Sound(rooms) && i < |rooms| && j < |rooms[i].clients|
    ensures var r, address := Remove(rooms, i, j), rooms[i].clients[j].address;
      && There(r, number) == (if number == rooms[i].number then Others(rooms[i].clients, address)
          else There(rooms, number))
      && |r| == |rooms| - (if |rooms[i].clients| == 1 then 1 else 0)
  {
    var left := rooms[i].clients[..j] + rooms[i].clients[j + 1..];
    RoomShape(rooms, i);
    RemovedOthers(rooms[i].clients, j);
    if left == [] {
      ThereDropped(rooms, i, number);
    } else {
      ThereSet(rooms, i, left, number);
    }
  }

  // ----- Coming in -----

  lemma {:induction false} OthersAll(rooms: seq<Room>, address: Address, number: nat)
    requires Sound(rooms) && !Here(There(rooms, number), address)
    ensures Others(There(rooms, number), address) == There(rooms, number)
  {
    ThereIndexed(rooms, number);
    if RoomIndex(rooms, number, 0) < |rooms| {
      RoomShape(rooms, RoomIndex(rooms, number, 0));
    }
  }

  /** There is no place in the room for one who is not in it: it has two clients, or is one too many. */
  predicate Full(here: seq<Client>, rooms: int) {
    |here| == 2 || (here == [] && rooms >= 4096)
  }

  lemma {:induction false} JoinMeans(rooms: seq<Room>, address: Address, q: Request, now: int, number: nat)
    requires Sound(rooms) && Proper(q)
    ensures var (r, place), here := Join(rooms, address, q, now), There(rooms, q.room);
      if Full(here, |rooms|) then (r, place) == (rooms, Out)
      else
        && place.In?
        && There(r, number) == if number == q.room then here + [Newcomer(address, q, now)] else There(rooms, number)
  {
    var k := RoomIndex(rooms, q.room, 0);
    ThereIndexed(rooms, q.room);
    if k < |rooms| {
      RoomShape(rooms, k);
      ThereSet(rooms, k, rooms[k].clients + [Newcomer(address, q, now)], number);
    } else {
      ThereMore(rooms, Room(q.room, [Newcomer(address, q, now)]), number);
    }
  }

  /** The request is passed over: it is not newer than the last one of its sender's stay, or there is no place. */
  ghost predicate PutOff(rooms: seq<Room>, address: Address, q: Request) {
    var here := There(rooms, q.room);
    if Here(here, address) then q.sequence <= Mine(here, address).lastSequence
    else Full(here, RoomsLeft(rooms, address, q.room))
  }

  /** The clients of the room asked for once the sender is let in. */
  function LetIn(here: seq<Client>, address: Address, q: Request, now: int): seq<Client> {
    if Here(here, address) then Heard(here, address, q, now) else here + [Newcomer(address, q, now)]
  }

  /** What one room has become after a request, leaving aside what the sender wanted in it. */
  ghost function Attended(rooms: seq<Room>, address: Address, q: Request, now: int, number: nat): seq<Client> {
    if number != q.room then Others(There(rooms, number), address)
    else if PutOff(rooms, address, q) then There(rooms, number)
    else LetIn(There(rooms, number), address, q, now)
  }

  lemma {:induction false} AloneMeans(rooms: seq<Room>, address: Address, number: nat, i: nat, j: nat)
    requires Sound(rooms) && i < |rooms| && j < |rooms[i].clients| && rooms[i].clients[j].address == address
    ensures AloneElsewhere(rooms, address, number) <==> rooms[i].number != number && |rooms[i].clients| == 1
  {
    if AloneElsewhere(rooms, address, number) {
      var k :| 0 <= k < |rooms| && rooms[k].number != number && |rooms[k].clients| == 1
          && rooms[k].clients[0].address == address;
      FindOnly(rooms, address, i, j);
      FindOnly(rooms, address, k, 0);
    }
  }

  lemma {:induction false} NobodyAlone(rooms: seq<Room>, address: Address, number: nat)
    requires Find(rooms, address, 0) == |rooms|
    ensures !AloneElsewhere(rooms, address, number)
  {
    FindNowhere(rooms, address);
    forall i | 0 <= i < |rooms| && |rooms[i].clients| == 1
      ensures rooms[i].clients[0].address != address
    {
      assert !Has(rooms[i], address);
    }
  }

  lemma {:induction false} StayMeans(rooms: seq<Room>, address: Address, q: Request, now: int, number: nat)
    requires Sound(rooms) && Proper(q) && Here(There(rooms, q.room), address)
    ensures var (r, place) := Admit(rooms, address, q, now);
      (place.Out? <==> PutOff(rooms, address, q)) && There(r, number) == Attended(rooms, address, q, now, number)
      && (place.Out? ==> r == rooms)
  {
    var i := Find(rooms, address, 0);
    FoundHere(rooms, address, q.room);
    FoundHere(rooms, address, number);
    RoomShape(rooms, i);
    var j := ClientIndex(rooms[i].clients, address, 0);
    var c := Refresh(rooms[i].clients[j], q, now);
    assert Mine(rooms[i].clients, address) == rooms[i].clients[j];
    ThereSet(rooms, i, rooms[i].clients[j := c], number);
    if number != q.room {
      OthersAll(rooms, address, number);
    } else {
      assert rooms[i].clients[j := c] == Heard(rooms[i].clients, address, q, now);
    }
  }

  lemma {:induction false} ComeMeans(rooms: seq<Room>, address: Address, q: Request, now: int, number: nat)
    requires Sound(rooms) && Proper(q) && !Here(There(rooms, q.room), address)
    ensures var (r, place) := Admit(rooms, address, q, now);
      (place.Out? <==> PutOff(rooms, address, q)) && There(r, number) == Attended(rooms, address, q, now, number)
  {
    var i := Find(rooms, address, 0);
    FoundHere(rooms, address, q.room);
    FoundHere(rooms, address, number);
    if i == |rooms| {
      NobodyAlone(rooms, address, q.room);
      OthersAll(rooms, address, number);
      JoinMeans(rooms, address, q, now, number);
    } else {
      RoomShape(rooms, i);
      var j := ClientIndex(rooms[i].clients, address, 0);
      var left := Remove(rooms, i, j);
      AloneMeans(rooms, address, q.room, i, j);
      RemoveSound(rooms, i, j);
      RemoveMeans(rooms, i, j, number);
      RemoveMeans(rooms, i, j, q.room);
      JoinMeans(left, address, q, now, number);
      if number != rooms[i].number {
        OthersAll(rooms, address, number);
      }
    }
  }

  lemma {:induction false} AdmitMeans(rooms: seq<Room>, address: Address, q: Request, now: int, number: nat)
    requires Sound(rooms) && Proper(q)
    ensures var (r, place) := Admit(rooms, address, q, now);
      (place.Out? <==> PutOff(rooms, address, q)) && There(r, number) == Attended(rooms, address, q, now, number)
      && (place.Out? && Here(There(rooms, q.room), address) ==> r == rooms)
  {
    if Here(There(rooms, q.room), address) {
      StayMeans(rooms, address, q, now, number);
    } else {
      ComeMeans(rooms, address, q, now, number);
    }
  }

  // ----- The answers -----

  /** The next number under which a client is answered: one more, and 1 after 4294967294. */
  function Next(number: SendNumber): SendNumber {
    if number < 4_294_967_294 then number + 1 else 1
  }

  function Answered(c: Client): Client {
    Client(c.address, c.role, c.name, c.lastSequence, Next(c.sendSequence), c.lastSeen)
  }

  function AllAnswered(clients: seq<Client>): seq<Client>
    requires 1 <= |clients| <= 2
  {
    if |clients| == 1 then [Answered(clients[0])] else [Answered(clients[0]), Answered(clients[1])]
  }

  function Waiting(mac: Tagger, c: Client, room: Word32): Reply {
    Reply(c.address, Pack(mac, Next(c.sendSequence), [1263488843, 1, 4, room]))
  }

  /** The address of the other client is told as its four bytes and its port. */
  function Meeting(mac: Tagger, c: Client, room: Word32, other: Address): Reply {
    Reply(c.address, Pack(mac, Next(c.sendSequence),
                          [1263488843, 1, 5, room, other.a, other.b, other.c, other.d, other.port]))
  }

  /** Who is alone is told to wait; of two, each is told where the other is. */
  function Answers(mac: Tagger, clients: seq<Client>, room: Word32): seq<Reply>
    requires 1 <= |clients| <= 2
  {
    if |clients| == 1 then [Waiting(mac, clients[0], room)]
    else
      [Meeting(mac, clients[0], room, clients[1].address), Meeting(mac, clients[1], room, clients[0].address)]
  }

  lemma {:induction false} GreetMeans(mac: Tagger, rooms: seq<Room>, i: nat, j: nat, number: nat)
    requires Sound(rooms) && i < |rooms| && j < |rooms[i].clients| && rooms[i].number < LIMIT_32
    ensures 1 <= |rooms[i].clients| <= 2
    ensures var (r, replies), clients := Greet(mac, rooms, i, j), rooms[i].clients;
      && replies == Answers(mac, clients, rooms[i].number)
      && There(r, number) == if number == rooms[i].number then AllAnswered(clients) else There(rooms, number)
  {
    RoomShape(rooms, i);
    var clients := rooms[i].clients;
    if |clients| == 1 {
      assert clients[j := Sent(clients[j])] == AllAnswered(clients);
    } else {
      MeetingWords(rooms[i].number, clients[0].address);
      MeetingWords(rooms[i].number, clients[1].address);
    }
    ThereSet(rooms, i, AllAnswered(clients), number);
  }

  lemma {:induction false} MeetingWords(room: Word32, other: Address)
    ensures PeerPayload(room, other) == [1263488843, 1, 5, room, other.a, other.b, other.c, other.d, other.port]
  {
  }

  lemma {:induction false} LetInFew(rooms: seq<Room>, address: Address, q: Request, now: int)
    requires Sound(rooms) && !PutOff(rooms, address, q)
    ensures 1 <= |LetIn(There(rooms, q.room), address, q, now)| <= 2
  {
    ThereIndexed(rooms, q.room);
    if RoomIndex(rooms, q.room, 0) < |rooms| {
      RoomShape(rooms, RoomIndex(rooms, q.room, 0));
    }
  }

  /** The clients of the room asked for, once the request is dealt with. */
  ghost function Dealt(here: seq<Client>, address: Address, operation: nat): seq<Client>
    requires 1 <= |here| <= 2
  {
    if operation == 1 then AllAnswered(here) else if operation == 3 then Others(here, address) else here
  }

  /** How a request goes on once its sender is in. */
  function Served(mac: Tagger, rooms: seq<Room>, i: nat, j: nat, operation: nat): (seq<Room>, seq<Reply>)
    requires i < |rooms| && j < |rooms[i].clients| <= 2 && rooms[i].number < LIMIT_32
  {
    if operation == 3 then (Remove(rooms, i, j), [])
    else if operation != 1 then (rooms, [])
    else Greet(mac, rooms, i, j)
  }

  lemma {:induction false} ServedMeans(
    mac: Tagger, rooms: seq<Room>, i: nat, j: nat, operation: nat, here: seq<Client>, number: nat)
    requires Sound(rooms) && i < |rooms| && j < |rooms[i].clients| <= 2 && rooms[i].number < LIMIT_32
    requires here == rooms[i].clients
    ensures 1 <= |here| <= 2
    ensures var (r, replies) := Served(mac, rooms, i, j, operation);
      && replies == (if operation == 1 then Answers(mac, here, rooms[i].number) else [])
      && There(r, number)
         == if number == rooms[i].number then Dealt(here, here[j].address, operation) else There(rooms, number)
  {
    RoomShape(rooms, i);
    if operation == 1 {
      GreetMeans(mac, rooms, i, j, number);
    } else if operation == 3 {
      RemoveMeans(rooms, i, j, number);
    }
  }

  lemma {:induction false} HandleServes(mac: Tagger, rooms: seq<Room>, data: seq<byte>, address: Address, now: int)
    requires Sound(rooms) && ReadRequest(mac, data).Some?
    ensures var q := ReadRequest(mac, data).value; var (admitted, place) := Admit(rooms, address, q, now);
      && Sound(admitted)
      && if place.Out? then Handle(mac, rooms, data, address, now) == (admitted, [])
         else
           && place.i < |admitted| && place.j < |admitted[place.i].clients| <= 2
           && admitted[place.i].clients[place.j].address == address && admitted[place.i].number == q.room < LIMIT_32
           && There(admitted, q.room) == admitted[place.i].clients
           && Handle(mac, rooms, data, address, now) == Served(mac, admitted, place.i, place.j, q.operation)
  {
    var q := ReadRequest(mac, data).value;
    AdmitRooms(rooms, address, q, now);
    AdmitSound(rooms, address, q, now);
    var (admitted, place) := Admit(rooms, address, q, now);
    if place.In? {
      RoomShape(admitted, place.i);
    }
  }

  /**
   What a request does. The sender is in no other room any more. If there is a place for them in the room that they ask
   for, and they did not say as much before, they are in it under their role and name; and a hello (1) is then answered
   to all who are in the room, while a leave (3) takes the sender out again. Nothing else happens in any room.
   */
  lemma {:induction false} RequestMeans(
    mac: Tagger, rooms: seq<Room>, data: seq<byte>, address: Address, now: int, number: nat)
    requires Sound(rooms) && ReadRequest(mac, data).Some?
    ensures var q, (r, replies) := ReadRequest(mac, data).value, Handle(mac, rooms, data, address, now);
      var was, here := There(rooms, number), LetIn(There(rooms, q.room), address, q, now);
      if PutOff(rooms, address, q) then
        replies == [] && There(r, number) == (if number == q.room then was else Others(was, address))
      else
        && 1 <= |here| <= 2
        && replies == (if q.operation == 1 then Answers(mac, here, q.room) else [])
        && There(r, number) == if number == q.room then Dealt(here, address, q.operation) else Others(was, address)
  {
    var q := ReadRequest(mac, data).value;
    var (admitted, place) := Admit(rooms, address, q, now);
    AdmitMeans(rooms, address, q, now, number);
    HandleServes(mac, rooms, data, address, now);
    if !PutOff(rooms, address, q) {
      LetInFew(rooms, address, q, now);
      AdmitMeans(rooms, address, q, now, q.room);
      ServedMeans(mac, admitted, place.i, place.j, q.operation, admitted[place.i].clients, number);
    }
  }

  /** A datagram that is no request changes nothing and is not answered. */
  lemma {:induction false} OthersIgnored(mac: Tagger, rooms: seq<Room>, data: seq<byte>, address: Address, now: int)
    requires Sound(rooms) && ReadRequest(mac, data).None?
    ensures Handle(mac, rooms, data, address, now) == (rooms, [])
  {
  }

  ghost predicate Asks(mac: Tagger, data: seq<byte>, q: Request, payload: seq<Word32>) {
    && 0 < q.sequence < 0x1_0000_0000 && 6 <= |payload| <= 300 && data == Pack(mac, q.sequence, payload)
    && payload[0] == 1263488843 && payload[1] == 1 && payload[2] == q.operation
    && payload[3] == q.room && payload[4] == q.role && payload[5] == q.name
    && 1 <= q.room <= 1_000_000 && (q.role == 1 || q.role == 2)
  }

  /**
   A datagram is a request exactly if it is the packing of its six words, or more, under a number that is not zero.
   */
  lemma {:induction false} RequestExactly(mac: Tagger, data: seq<byte>, q: Request)
    ensures ReadRequest(mac, data) == Some(q) <==> exists payload: seq<Word32> :: Asks(mac, data, q, payload)
  {
    if ReadRequest(mac, data) == Some(q) {
      PackUnpacked(mac, MAX_WORDS, data);
      assert Asks(mac, data, q, Unpack(mac, MAX_WORDS, data).value.payload);
    }
    forall payload: seq<Word32> | Asks(mac, data, q, payload)
      ensures ReadRequest(mac, data) == Some(q)
    {
      UnpackPacked(mac, MAX_WORDS, q.sequence, payload);
    }
  }

  // ----- Time -----

  /** Those of the clients that were heard of in the last thirty seconds. */
  function Lately(clients: seq<Client>, now: int): seq<Client> {
    (if |clients| >= 1 && clients[0].lastSeen >= now - 30 then [clients[0]] else [])
    + (if |clients| == 2 && clients[1].lastSeen >= now - 30 then [clients[1]] else [])
  }

  lemma {:induction false} FreshLately(clients: seq<Client>, now: int)
    requires 1 <= |clients| <= 2
    ensures Fresh(clients, now) == Lately(clients, now)
  {
    var rest := clients[1..];
    if |clients| == 1 {
      assert Fresh(rest, now) == [];
    } else {
      assert rest[0] == clients[1] && rest[1..] == [];
      assert Fresh(rest[1..], now) == [];
      assert Fresh(rest, now) == (if now - clients[1].lastSeen <= 30 then [clients[1]] else []) + [];
    }
  }

  lemma {:induction false} ExpireNone(rooms: seq<Room>, now: int, number: nat)
    requires forall i | 0 <= i < |rooms| :: rooms[i].number != number
    ensures There(Expire(rooms, now), number) == []
  {
    if rooms != [] {
      ExpireNone(rooms[1..], now, number);
      ExpireFirst(rooms, now, number);
    }
  }

  lemma {:induction false} ExpireFirst(rooms: seq<Room>, now: int, number: nat)
    requires rooms != []
    ensures var kept := Fresh(rooms[0].clients, now);
      There(Expire(rooms, now), number)
      == if kept != [] && rooms[0].number == number then kept else There(Expire(rooms[1..], now), number)
  {
    var kept, rest := Fresh(rooms[0].clients, now), Expire(rooms[1..], now);
    if kept == [] {
      assert Expire(rooms, now) == [] + rest == rest;
    } else {
      assert Expire(rooms, now)[1..] == rest;
    }
  }

  /**
   After thirty seconds without a word a client is gone, and its room with the last one; all others stay as they are.
   */
  lemma {:induction false} ExpireMeans(rooms: seq<Room>, now: int, number: nat)
    requires Numbered(rooms) && forall i | 0 <= i < |rooms| :: RoomSound(rooms[i])
    ensures There(Expire(rooms, now), number) == Lately(There(rooms, number), now)
    decreases |rooms|
  {
    if rooms != [] {
      assert RoomSound(rooms[0]);
      FreshLately(rooms[0].clients, now);
      ExpireFirst(rooms, now, number);
      if rooms[0].number == number {
        forall i | 0 <= i < |rooms[1..]|
          ensures rooms[1..][i].number != number
        {
          assert rooms[0].number != rooms[i + 1].number;
        }
        ExpireNone(rooms[1..], now, number);
      } else {
        ExpireMeans(rooms[1..], now, number);
      }
    }
  }
}
