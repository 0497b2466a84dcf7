/** The rooms in which two peers find each other's address (scripts/kookie_rendezvous.py). */
module Rendezvous {
  import opened Results
  import opened Bytes
  import opened Datagrams

  const MAX_WORDS: nat := 300
  const LOBBY_MAGIC: nat := 1263488843
  const LOBBY_VERSION: nat := 1
  const HELLO: nat := 1
  const LEAVE: nat := 3
  const WAIT: nat := 4
  const PEER: nat := 5
  const ROOM_TTL: int := 30
  const MAX_ROOMS: nat := 4096
  const MAX_ROOM_NUMBER: nat := 1_000_000
  const LAST_SEND: nat := 0xffff_ffff

  type Port = p: nat | p < 0x1_0000

  /** The number of the last frame sent to a client; it starts over before the last 32-bit number. */
  type SendNumber = n: nat | n < 0xffff_ffff

  datatype Address = Address(a: byte, b: byte, c: byte, d: byte, port: Port)

  datatype Client = Client(address: Address, role: nat, name: nat, lastSequence: nat, sendSequence: SendNumber, lastSeen: int)

  datatype Room = Room(number: nat, clients: seq<Client>)

  datatype Reply = Reply(to: Address, bytes: seq<byte>)

  datatype Request = Request(sequence: nat, operation: nat, room: nat, role: nat, name: nat)

  /** What a datagram asks for, if it is one that the rendezvous attends to. */
  function ReadRequest(mac: Tagger, data: seq<byte>): Option<Request> {
    var m := Unpack(mac, MAX_WORDS, data);
    if m.None? then None
    else
      var p := m.value.payload;
      if |p| < 6 || p[0] != LOBBY_MAGIC || p[1] != LOBBY_VERSION then None
      else if p[3] == 0 || p[3] > MAX_ROOM_NUMBER || (p[4] != 1 && p[4] != 2) then None
      else Some(Request(m.value.sequence, p[2], p[3], p[4], p[5]))
  }

  // ----- The rooms, in the order in which they were opened -----

  /** The first client from number j on with this address; past the end if there is none. */
  function ClientIndex(clients: seq<Client>, address: Address, j: nat): (r: nat)
    requires j <= |clients|
    ensures j <= r <= |clients| && (r < |clients| ==> clients[r].address == address)
    ensures forall k | j <= k < r :: clients[k].address != address
    decreases |clients| - j
  {
    if j == |clients| || clients[j].address == address then j else ClientIndex(clients, address, j + 1)
  }

  /** The first room from number i on that has a client with this address. */
  function Find(rooms: seq<Room>, address: Address, i: nat): (r: nat)
    requires i <= |rooms|
    ensures i <= r <= |rooms| && (r < |rooms| ==> ClientIndex(rooms[r].clients, address, 0) < |rooms[r].clients|)
    ensures forall k | i <= k < r :: ClientIndex(rooms[k].clients, address, 0) == |rooms[k].clients|
    decreases |rooms| - i
  {
    if i == |rooms| || ClientIndex(rooms[i].clients, address, 0) < |rooms[i].clients| then i
    else Find(rooms, address, i + 1)
  }

  function RoomIndex(rooms: seq<Room>, number: nat, i: nat): (r: nat)
    requires i <= |rooms|
    ensures i <= r <= |rooms| && (r < |rooms| ==> rooms[r].number == number)
    ensures forall k | i <= k < r :: rooms[k].number != number
    decreases |rooms| - i
  {
    if i == |rooms| || rooms[i].number == number then i else RoomIndex(rooms, number, i + 1)
  }

  /** The rooms without client j of room i. An empty room is closed. */
  function Remove(rooms: seq<Room>, i: nat, j: nat): seq<Room>
    requires i < |rooms| && j < |rooms[i].clients|
  {
    var left := rooms[i].clients[..j] + rooms[i].clients[j + 1..];
    if left == [] then rooms[..i] + rooms[i + 1..] else rooms[i := rooms[i].(clients := left)]
  }

  function Named(name: nat): nat { if 1 <= name <= 4 then name else 1 }

  function NewClient(address: Address, q: Request, now: int): Client {
    Client(address, q.role, Named(q.name), q.sequence, 0, now)
  }

  /** Where a request left its sender: out, or as this client of this room. */
  datatype Place = Out | In(i: nat, j: nat)

  /** Puts a sender who is in no room into the room they ask for. */
  function Join(rooms: seq<Room>, address: Address, q: Request, now: int): (seq<Room>, Place) {
    var k := RoomIndex(rooms, q.room, 0);
    if k == |rooms| then
      if |rooms| >= MAX_ROOMS then (rooms, Out)
      else (rooms + [Room(q.room, [NewClient(address, q, now)])], In(k, 0))
    else if |rooms[k].clients| >= 2 then (rooms, Out)
    else
      (rooms[k := rooms[k].(clients := rooms[k].clients + [NewClient(address, q, now)])], In(k, |rooms[k].clients|))
  }

  function Refresh(c: Client, q: Request, now: int): Client {
    c.(lastSequence := q.sequence, role := q.role, name := Named(q.name), lastSeen := now)
  }

  function Admit(rooms: seq<Room>, address: Address, q: Request, now: int): (seq<Room>, Place) {
    var i := Find(rooms, address, 0);
    if i == |rooms| then Join(rooms, address, q, now)
    else
      var j := ClientIndex(rooms[i].clients, address, 0);
      if rooms[i].number != q.room then Join(Remove(rooms, i, j), address, q, now)
      else if q.sequence <= rooms[i].clients[j].lastSequence then (rooms, Out)
      else (SetClient(rooms, i, j, Refresh(rooms[i].clients[j], q, now)), In(i, j))
  }

  function SetClient(rooms: seq<Room>, i: nat, j: nat, c: Client): seq<Room>
    requires i < |rooms| && j < |rooms[i].clients|
  {
    rooms[i := rooms[i].(clients := rooms[i].clients[j := c])]
  }

  // ----- Replies -----

  function NextSequence(sequence: SendNumber): SendNumber {
    if sequence + 1 >= LAST_SEND then 1 else sequence + 1
  }

  function AddressWords(a: Address): seq<Word32> {
    [a.a, a.b, a.c, a.d, a.port]
  }

  function WaitPayload(room: Word32): seq<Word32> {
    [LOBBY_MAGIC, LOBBY_VERSION, WAIT, room]
  }

  function PeerPayload(room: Word32, other: Address): seq<Word32> {
    [LOBBY_MAGIC, LOBBY_VERSION, PEER, room] + AddressWords(other)
  }

  /** The client once it was sent one more frame. */
  function Sent(c: Client): Client {
    c.(sendSequence := NextSequence(c.sendSequence))
  }

  function ReplyTo(mac: Tagger, c: Client, payload: seq<Word32>): Reply
    requires |payload| < LIMIT_32
  {
    Reply(c.address, Pack(mac, NextSequence(c.sendSequence), payload))
  }

  /** The answer to a client that says hello: to wait, or to both peers where the other one is. */
  function Greet(mac: Tagger, rooms: seq<Room>, i: nat, j: nat): (r: (seq<Room>, seq<Reply>))
    requires i < |rooms| && j < |rooms[i].clients| <= 2 && rooms[i].number < LIMIT_32
  {
    var room := rooms[i];
    if |room.clients| < 2 then
      (SetClient(rooms, i, j, Sent(room.clients[j])), [ReplyTo(mac, room.clients[j], WaitPayload(room.number))])
    else
      var first, second := room.clients[0], room.clients[1];
      (rooms[i := room.(clients := [Sent(first), Sent(second)])],
       [ReplyTo(mac, first, PeerPayload(room.number, second.address)),
        ReplyTo(mac, second, PeerPayload(room.number, first.address))])
  }

  // ----- What every run keeps -----

  predicate ClientSound(c: Client) {
    (c.role == 1 || c.role == 2) && 1 <= c.name <= 4
  }

  predicate RoomSound(r: Room) {
    && 1 <= r.number <= MAX_ROOM_NUMBER && 1 <= |r.clients| <= 2
    && forall k | 0 <= k < |r.clients| :: ClientSound(r.clients[k])
  }

  ghost predicate Has(r: Room, address: Address) {
    exists k | 0 <= k < |r.clients| :: r.clients[k].address == address
  }

  /** The two clients of a room are different ones. */
  ghost predicate Two(clients: seq<Client>) {
    forall j, k | 0 <= j < k < |clients| :: clients[j].address != clients[k].address
  }

  /** No number and no address is in two rooms. */
  ghost predicate Apart(rooms: seq<Room>) {
    forall i, k | 0 <= i < k < |rooms| ::
      rooms[i].number != rooms[k].number && forall a: Address :: !(Has(rooms[i], a) && Has(rooms[k], a))
  }

  ghost predicate Sound(rooms: seq<Room>) {
    && |rooms| <= MAX_ROOMS
    && (forall i | 0 <= i < |rooms| :: RoomSound(rooms[i]) && Two(rooms[i].clients))
    && Apart(rooms)
  }

  /** The rendezvous after a datagram, and its replies. */
  function Handle(mac: Tagger, rooms: seq<Room>, data: seq<byte>, address: Address, now: int): (seq<Room>, seq<Reply>)
    requires forall i | 0 <= i < |rooms| :: RoomSound(rooms[i])
  {
    var q := ReadRequest(mac, data);
    if q.None? then (rooms, [])
    else
      AdmitRooms(rooms, address, q.value, now);
      var (admitted, place) := Admit(rooms, address, q.value, now);
      if place.Out? then (admitted, [])
      else if q.value.operation == LEAVE then (Remove(admitted, place.i, place.j), [])
      else if q.value.operation != HELLO then (admitted, [])
      else Greet(mac, admitted, place.i, place.j)
  }

  /** A request that ReadRequest can give. */
  predicate Proper(q: Request) {
    1 <= q.room <= MAX_ROOM_NUMBER && (q.role == 1 || q.role == 2)
  }

  lemma JoinRooms(rooms: seq<Room>, address: Address, q: Request, now: int)
    requires Proper(q) && forall k | 0 <= k < |rooms| :: RoomSound(rooms[k])
    ensures var (r, place) := Join(rooms, address, q, now);
      && (forall k | 0 <= k < |r| :: RoomSound(r[k])) && (|rooms| <= MAX_ROOMS ==> |r| <= MAX_ROOMS)
      && (place.In? ==> place.i < |r| && place.j < |r[place.i].clients| && r[place.i].clients[place.j] == NewClient(address, q, now)
                        && r[place.i].number == q.room)
  {
  }

  lemma AdmitRooms(rooms: seq<Room>, address: Address, q: Request, now: int)
    requires Proper(q) && forall k | 0 <= k < |rooms| :: RoomSound(rooms[k])
    ensures var (r, place) := Admit(rooms, address, q, now);
      && (forall k | 0 <= k < |r| :: RoomSound(r[k])) && (|rooms| <= MAX_ROOMS ==> |r| <= MAX_ROOMS)
      && (place.In? ==> place.i < |r| && place.j < |r[place.i].clients| && r[place.i].clients[place.j].address == address
                        && r[place.i].number == q.room)
  {
    var i := Find(rooms, address, 0);
    if i == |rooms| {
      JoinRooms(rooms, address, q, now);
    } else {
      var j := ClientIndex(rooms[i].clients, address, 0);
      JoinRooms(Remove(rooms, i, j), address, q, now);
    }
  }

  // ----- Time -----

  /** The clients that were heard of lately. */
  function Fresh(clients: seq<Client>, now: int): (r: seq<Client>)
    ensures |r| <= |clients|
  {
    if clients == [] then []
    else (if now - clients[0].lastSeen <= ROOM_TTL then [clients[0]] else []) + Fresh(clients[1..], now)
  }

  function Expire(rooms: seq<Room>, now: int): seq<Room> {
    if rooms == [] then []
    else
      var clients := Fresh(rooms[0].clients, now);
      (if clients == [] then [] else [rooms[0].(clients := clients)]) + Expire(rooms[1..], now)
  }
}
