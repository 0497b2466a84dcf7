/** One slot of the datagram transport, updated in place (native/kookie_transport.c). */
module TransportState {
  import opened Results
  import opened Bytes
  import opened Datagrams
  import opened Transport

  /** A datagram as the words of a wire buffer, and the bytes that they are in network order. */
  class Slot {
    const mac: Tagger
    var peerValid: bool
    var sendCount: nat
    var sendSequence: Word32
    const sendWords: array<Word32>
    var lastSendValid: bool
    var lastSend: seq<byte>
    var receiveCount: nat
    var receiveSequence: Word32
    const receiveWords: array<Word32>
    var lastStatus: int

    ghost predicate Valid()
      reads this
    {
      && sendWords.Length == MAXIMUM_WORDS && receiveWords.Length == MAXIMUM_WORDS && sendWords != receiveWords
      && sendCount <= MAXIMUM_WORDS && receiveCount <= MAXIMUM_WORDS
    }

    ghost function Sending(): (r: Sender)
      requires Valid()
      reads this, sendWords
      ensures Sound(r)
    {
      Sender(sendCount, sendSequence, sendWords[..], if lastSendValid then Some(lastSend) else None)
    }

    /** What the receiver can be asked for: the words beyond the count are out of reach. */
    ghost function Receiving(): Receiver
      requires Valid()
      reads this, receiveWords
    {
      Receiver(receiveCount, receiveSequence, receiveWords[..receiveCount], lastStatus)
    }

    constructor (mac: Tagger)
      ensures Valid() && fresh(sendWords) && fresh(receiveWords) && this.mac == mac
      ensures Sending() == NewSender() && Receiving() == NEW_RECEIVER
    {
      this.mac := mac;
      peerValid, sendCount, sendSequence, lastSendValid, lastSend := false, 0, 0, false, [];
      receiveCount, receiveSequence, lastStatus := 0, 0, 0;
      sendWords := new Word32[MAXIMUM_WORDS](_ => 0);
      receiveWords := new Word32[MAXIMUM_WORDS](_ => 0);
      new;
      assert sendWords[..] == seq(MAXIMUM_WORDS, _ => 0);
    }

    method SendBegin(count: int) returns (ok: bool)
      requires Valid()
      modifies this`sendCount
      ensures Valid() && (Sending(), ok) == Begin(old(Sending()), count)
    {
      if count <= 0 || count > MAXIMUM_WORDS {
        return false;
      }
      sendCount := count;
      return true;
    }

    method SendWord(index: int, word: Word32) returns (ok: bool)
      requires Valid()
      modifies sendWords
      ensures Valid() && (Sending(), ok) == SetWord(old(Sending()), index, word)
    {
      if index < 0 || index >= sendCount {
        return false;
      }
      sendWords[index] := word;
      return true;
    }

    /** The wire words of the next datagram, not tagged yet. */
    method FillWire() returns (wire: array<Word32>)
      requires Valid() && sendSequence != LAST_SEQUENCE
      ensures fresh(wire) && wire[..] == Words(sendSequence + 1, sendWords[..sendCount], 0)
    {
      wire := new Word32[HEADER + sendCount](_ => 0);
      wire[0], wire[1], wire[2], wire[3] := MAGIC, VERSION, sendCount, sendSequence + 1;
      for k := 0 to sendCount
        invariant wire[..6] == [MAGIC, VERSION, sendCount, sendSequence + 1, 0, 0]
        invariant forall i | 0 <= i < k :: wire[HEADER + i] == sendWords[i]
      {
        wire[HEADER + k] := sendWords[k];
      }
      assert wire[6..] == sendWords[..sendCount];
      assert wire[..] == wire[..6] + wire[6..];
    }

    static lemma Stamped(
      mac: Tagger, blank: seq<Word32>, wire: seq<Word32>, sequence: Word32, payload: seq<Word32>)
      requires |payload| < LIMIT_32 && blank == Words(sequence, payload, 0)
      requires var tag := mac(ToBytes(blank)); wire == blank[4 := Low(tag)][5 := High(tag)]
      ensures wire == Words(sequence, payload, mac(ToBytes(blank)))
    {
    }

    method BuildWire() returns (wire: array<Word32>)
      requires Valid() && sendSequence != LAST_SEQUENCE
      ensures fresh(wire) && ToBytes(wire[..]) == Datagram(mac, Sending())
    {
      wire := FillWire();
      ghost var payload, blank: seq<Word32> := sendWords[..sendCount], wire[..];
      var tag := mac(ToBytes(wire[..]));
      wire[4], wire[5] := Low(tag), High(tag);
      assert wire[..] == blank[4 := Low(tag)][5 := High(tag)];
      Stamped(mac, blank, wire[..], sendSequence + 1, payload);
    }

    /** taken: whether the socket takes the whole datagram, should it be asked to. */
    method SendCommit(taken: bool) returns (ok: bool)
      requires Valid()
      modifies this
      ensures Valid() && (Sending(), ok) == Commit(mac, old(Sending()), old(peerValid), taken)
      ensures Receiving() == old(Receiving())
    {
      if !peerValid || sendCount == 0 || sendSequence == LAST_SEQUENCE {
        return false;
      }
      var wire := BuildWire();
      sendCount := 0;
      if !taken {
        return false;
      }
      lastSend, lastSendValid := ToBytes(wire[..]), true;
      sendSequence := sendSequence + 1;
      return true;
    }

    method ReplayLastDatagram() returns (sent: Option<seq<byte>>)
      requires Valid()
      ensures sent == Replay(Sending(), peerValid)
    {
      sent := if peerValid && lastSendValid then Some(lastSend) else None;
    }

    method Refuse(status: int)
      requires Valid()
      modifies this`receiveCount, this`lastStatus
      ensures Valid() && Sending() == old(Sending())
      ensures Receiving() == Transport.Refuse(old(Receiving()), status)
    {
      receiveCount, lastStatus := 0, status;
    }

    method Accept(m: Message)
      requires Valid() && |m.payload| <= MAXIMUM_WORDS
      modifies this`receiveCount, this`receiveSequence, this`lastStatus, receiveWords
      ensures Valid() && Sending() == old(Sending())
      ensures Receiving() == Receiver(|m.payload|, m.sequence, m.payload, 1)
    {
      receiveCount, receiveSequence := |m.payload|, m.sequence;
      for k := 0 to receiveCount
        modifies receiveWords
        invariant receiveWords[..k] == m.payload[..k]
      {
        receiveWords[k] := m.payload[k];
      }
      lastStatus := 1;
    }

    method ReceiveDatagram(a: Arrival)
      requires Valid()
      modifies this`receiveCount, this`receiveSequence, this`lastStatus, receiveWords
      ensures Valid() && Sending() == old(Sending())
      ensures Receiving() == Receive(mac, old(Receiving()), a)
    {
      match a {
        case Nothing(failed) =>
          Refuse(if failed then 3 else 2);
        case Arrival(bytes, fromPeer) =>
          if !fromPeer || |bytes| < 4 * HEADER || |bytes| % 4 != 0 {
            Refuse(3);
            return;
          }
          var wire := ToWords(bytes);
          if wire[0] != MAGIC || wire[1] != VERSION || wire[2] == 0 || wire[2] > MAXIMUM_WORDS
             || |wire| != HEADER + wire[2] || wire[3] == 0 || wire[3] <= receiveSequence {
            Refuse(3);
            return;
          }
          if mac(ToBytes(wire[4 := 0][5 := 0])) != Joined(wire[4], wire[5]) {
            Refuse(3);
            return;
          }
          Accept(Message(wire[3], wire[HEADER..]));
      }
    }
  }
}
