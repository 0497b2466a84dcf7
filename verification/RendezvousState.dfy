/** The rendezvous and its rooms, updated in place (scripts/kookie_rendezvous.py, Rendezvous). */
module RendezvousState {
  import opened Bytes
  import opened Datagrams
  import opened Rendezvous

  class State {
    const mac: Tagger
    var rooms: seq<Room>

    ghost predicate Valid()
      reads this
    {
      forall i | 0 <= i < |rooms| :: RoomSound(rooms[i])
    }

    constructor (mac: Tagger)
      ensures Valid() && rooms == [] && this.mac == mac
    {
      this.mac := mac;
      rooms := [];
    }

    /** The room and the client with this address, if there is one. */
    method FindClient(address: Address) returns (place: Place)
      ensures var i := Find(rooms, address, 0);
        place == if i == |rooms| then Out else In(i, ClientIndex(rooms[i].clients, address, 0))
    {
      for i := 0 to |rooms|
        invariant Find(rooms, address, 0) == Find(rooms, address, i)
      {
        var clients := rooms[i].clients;
        for j := 0 to |clients|
          invariant ClientIndex(clients, address, 0) == ClientIndex(clients, address, j)
        {
          if clients[j].address == address {
            return In(i, j);
          }
        }
      }
      return Out;
    }

    method RemoveClient(i: nat, j: nat)
      requires i < |rooms| && j < |rooms[i].clients|
      modifies this
      ensures rooms == Remove(old(rooms), i, j)
    {
      var left := rooms[i].clients[..j] + rooms[i].clients[j + 1..];
      rooms := rooms[i := rooms[i].(clients := left)];
      if left == [] {
        rooms := rooms[..i] + rooms[i + 1..];
      }
    }

    method FindRoom(number: nat) returns (k: nat)
      ensures k == RoomIndex(rooms, number, 0)
    {
      k := 0;
      while k < |rooms| && rooms[k].number != number
        invariant k <= |rooms| && RoomIndex(rooms, number, 0) == RoomIndex(rooms, number, k)
      {
        k := k + 1;
      }
    }

    method JoinRoom(address: Address, q: Request, now: int) returns (place: Place)
      modifies this
      ensures (rooms, place) == Join(old(rooms), address, q, now)
    {
      var client := NewClient(address, q, now);
      var k := FindRoom(q.room);
      if k == |rooms| {
        if |rooms| >= MAX_ROOMS {
          return Out;
        }
        rooms := rooms + [Room(q.room, [])];
      } else if |rooms[k].clients| >= 2 {
        return Out;
      }
      var n := |rooms[k].clients|;
      rooms := rooms[k := rooms[k].(clients := rooms[k].clients + [client])];
      assert k == |old(rooms)| ==> rooms[k].clients == [client] && rooms == old(rooms) + [rooms[k]];
      return In(k, n);
    }

    method AdmitClient(address: Address, q: Request, now: int) returns (place: Place)
      modifies this
      ensures (rooms, place) == Admit(old(rooms), address, q, now)
    {
      place := FindClient(address);
      match place {
        case Out =>
          place := JoinRoom(address, q, now);
        case In(i, j) =>
          if rooms[i].number != q.room {
            RemoveClient(i, j);
            place := JoinRoom(address, q, now);
          } else if q.sequence <= rooms[i].clients[j].lastSequence {
            place := Out;
          } else {
            rooms := SetClient(rooms, i, j, Refresh(rooms[i].clients[j], q, now));
          }
      }
    }

    /** Sends the payload to a client, under the next number. */
    method Send(i: nat, j: nat, payload: seq<Word32>) returns (reply: Reply)
      requires i < |rooms| && j < |rooms[i].clients| && |payload| < LIMIT_32
      modifies this
      ensures reply == ReplyTo(mac, old(rooms)[i].clients[j], payload)
      ensures rooms == SetClient(old(rooms), i, j, Sent(old(rooms)[i].clients[j]))
    {
      var c := Sent(rooms[i].clients[j]);
      rooms := SetClient(rooms, i, j, c);
      reply := Reply(c.address, Pack(mac, c.sendSequence, payload));
    }

    method GreetClient(i: nat, j: nat) returns (replies: seq<Reply>)
      requires i < |rooms| && j < |rooms[i].clients| <= 2 && rooms[i].number < LIMIT_32
      modifies this
      ensures (rooms, replies) == Greet(mac, old(rooms), i, j)
    {
      ghost var was := rooms[i];
      var number: Word32 := rooms[i].number;
      if |rooms[i].clients| < 2 {
        var reply := Send(i, j, WaitPayload(number));
        return [reply];
      }
      var first, second := rooms[i].clients[0].address, rooms[i].clients[1].address;
      var toFirst := Send(i, 0, PeerPayload(number, second));
      var toSecond := Send(i, 1, PeerPayload(number, first));
      assert rooms[i].clients == [Sent(was.clients[0]), Sent(was.clients[1])];
      assert rooms == old(rooms)[i := was.(clients := rooms[i].clients)];
      return [toFirst, toSecond];
    }

    method HandleDatagram(data: seq<byte>, address: Address, now: int) returns (replies: seq<Reply>)
      requires Valid()
      modifies this
      ensures (rooms, replies) == Handle(mac, old(rooms), data, address, now)
    {
      var q := ReadRequest(mac, data);
      if q.None? {
        return [];
      }
      AdmitRooms(rooms, address, q.value, now);
      var place := AdmitClient(address, q.value, now);
      match place {
        case Out =>
          return [];
        case In(i, j) =>
          if q.value.operation == LEAVE {
            RemoveClient(i, j);
            return [];
          }
          if q.value.operation != HELLO {
            return [];
          }
          replies := GreetClient(i, j);
      }
    }

    method ExpireClients(now: int)
      modifies this
      ensures rooms == Expire(old(rooms), now)
    {
      var kept: seq<Room> := [];
      for i := 0 to |rooms|
        modifies {}
        invariant Expire(rooms, now) == kept + Expire(rooms[i..], now)
      {
        var clients := FreshClients(rooms[i].clients, now);
        assert rooms[i..][0] == rooms[i] && rooms[i..][1..] == rooms[i + 1..];
        if clients != [] {
          kept := kept + [rooms[i].(clients := clients)];
        }
      }
      rooms := kept;
    }

    method FreshClients(clients: seq<Client>, now: int) returns (r: seq<Client>)
      ensures r == Fresh(clients, now)
    {
      r := [];
      for k := 0 to |clients|
        invariant Fresh(clients, now) == r + Fresh(clients[k..], now)
      {
        assert clients[k..][0] == clients[k] && clients[k..][1..] == clients[k + 1..];
        if now - clients[k].lastSeen <= ROOM_TTL {
          r := r + [clients[k]];
        }
      }
    }
  }
}
