/**
 The sequenced datagram transport (native/kookie_transport.c) over a network that loses, repeats and reorders
 datagrams and may make some up: one end that sends and one that receives.
 */
module Transport {
  import opened Results
  import opened Bytes
  import opened Datagrams

  const MAXIMUM_WORDS: nat := 1740
  const LAST_SEQUENCE: nat := 0xffff_ffff

  /** count: the words that the next datagram is to carry. last: the datagram that was sent last. */
  datatype Sender = Sender(count: nat, sequence: Word32, words: seq<Word32>, last: Option<seq<byte>>)

  datatype Receiver = Receiver(count: nat, sequence: Word32, words: seq<Word32>, status: int)

  ghost predicate Sound(s: Sender) {
    |s.words| == MAXIMUM_WORDS && s.count <= MAXIMUM_WORDS
  }

  function NewSender(): Sender {
    Sender(0, 0, seq(MAXIMUM_WORDS, _ => 0), None)
  }

  const NEW_RECEIVER := Receiver(0, 0, [], 0)

  function Begin(s: Sender, count: int): (r: (Sender, bool))
    requires Sound(s)
    ensures Sound(r.0)
  {
    if count <= 0 || count > MAXIMUM_WORDS then (s, false) else (s.(count := count), true)
  }

  function SetWord(s: Sender, index: int, word: Word32): (r: (Sender, bool))
    requires Sound(s)
    ensures Sound(r.0)
  {
    if index < 0 || index >= s.count then (s, false) else (s.(words := s.words[index := word]), true)
  }

  predicate CanCommit(s: Sender, peer: bool) {
    peer && s.count > 0 && s.sequence != LAST_SEQUENCE
  }

  function Datagram(mac: Tagger, s: Sender): seq<byte>
    requires Sound(s) && s.sequence != LAST_SEQUENCE
  {
    Pack(mac, s.sequence + 1, s.words[..s.count])
  }

  /** peer: there is somebody to send to. taken: the socket took the whole datagram. */
  function Commit(mac: Tagger, s: Sender, peer: bool, taken: bool): (r: (Sender, bool))
    requires Sound(s)
    ensures Sound(r.0)
  {
    if !CanCommit(s, peer) then (s, false)
    else if !taken then (s.(count := 0), false)
    else (s.(count := 0, sequence := s.sequence + 1, last := Some(Datagram(mac, s))), true)
  }

  /** The datagram that a replay hands to the network again. */
  function Replay(s: Sender, peer: bool): Option<seq<byte>> {
    if peer then s.last else None
  }

  /** What comes of a receive: None when nothing was there or the socket failed. */
  datatype Arrival = Nothing(failed: bool) | Arrival(bytes: seq<byte>, fromPeer: bool)

  /** Nothing is left to read. */
  function Refuse(r: Receiver, status: int): Receiver {
    r.(count := 0, words := [], status := status)
  }

  function Receive(mac: Tagger, r: Receiver, a: Arrival): Receiver {
    match a
    case Nothing(failed) => Refuse(r, if failed then 3 else 2)
    case Arrival(bytes, fromPeer) =>
      var m := Unpack(mac, MAXIMUM_WORDS, bytes);
      if !fromPeer || m.None? || m.value.sequence <= r.sequence then Refuse(r, 3)
      else Receiver(|m.value.payload|, m.value.sequence, m.value.payload, 1)
  }

  // ----- Every run -----

  /**
   One sender, one receiver and the network between them. committed: the payloads that were sent, the k-th under number
   k + 1. accepted: the payloads that the receiver was given. picks: which of the committed ones they are.
   */
  datatype Run = Run(
    sender: Sender, receiver: Receiver,
    committed: seq<seq<Word32>>, accepted: seq<seq<Word32>>, picks: seq<nat>)

  datatype Move =
    | Beginning(count: int)
    | Setting(index: int, word: Word32)
    | Committing(peer: bool, taken: bool)
    | Arriving(a: Arrival)

  function NewRun(): Run {
    Run(NewSender(), NEW_RECEIVER, [], [], [])
  }

  /** The datagram is the one that carried payload k. */
  ghost predicate CarriesAt(mac: Tagger, r: Run, bytes: seq<byte>, k: nat) {
    k < |r.committed| < LIMIT_32 && |r.committed[k]| <= MAXIMUM_WORDS && bytes == Pack(mac, k + 1, r.committed[k])
  }

  /** The bytes were handed to the network at some time, first or in a replay. */
  ghost predicate WasSent(mac: Tagger, r: Run, bytes: seq<byte>) {
    exists k: nat :: CarriesAt(mac, r, bytes, k)
  }

  /** Anything can arrive, but only what the sender sent carries a valid tag. */
  ghost predicate CanMove(mac: Tagger, r: Run, m: Move) {
    Sound(r.sender) && (m.Arriving? && m.a.Arrival? && Unpack(mac, MAXIMUM_WORDS, m.a.bytes).Some? ==> WasSent(mac, r, m.a.bytes))
  }

  ghost function Moved(mac: Tagger, r: Run, m: Move): Run
    requires CanMove(mac, r, m)
  {
    match m
    case Beginning(count) => r.(sender := Begin(r.sender, count).0)
    case Setting(index, word) => r.(sender := SetWord(r.sender, index, word).0)
    case Committing(peer, taken) =>
      var (sender, ok) := Commit(mac, r.sender, peer, taken);
      r.(sender := sender, committed := if ok then r.committed + [r.sender.words[..r.sender.count]] else r.committed)
    case Arriving(a) =>
      var receiver := Receive(mac, r.receiver, a);
      if receiver.status == 1 then
        r.(receiver := receiver, accepted := r.accepted + [receiver.words[..]], picks := r.picks + [receiver.sequence - 1])
      else r.(receiver := receiver)
  }

  ghost predicate Rising(picks: seq<nat>) {
    forall a, b | 0 <= a < b < |picks| :: picks[a] < picks[b]
  }

  /** The picks name the accepted payloads among the committed ones, in rising order. */
  ghost predicate Subsequence(accepted: seq<seq<Word32>>, committed: seq<seq<Word32>>, picks: seq<nat>) {
    && |picks| == |accepted| && Rising(picks)
    && forall k | 0 <= k < |picks| :: picks[k] < |committed| && accepted[k] == committed[picks[k]]
  }

  /** The accepted payloads are some of the committed ones, in their order, each at most once. */
  ghost predicate SomeInOrder(accepted: seq<seq<Word32>>, committed: seq<seq<Word32>>) {
    exists picks: seq<nat> :: Subsequence(accepted, committed, picks)
  }

  ghost predicate Consistent(mac: Tagger, r: Run) {
    && Sound(r.sender) && r.sender.sequence == |r.committed|
    && (forall k | 0 <= k < |r.committed| :: 0 < |r.committed[k]| <= MAXIMUM_WORDS)
    && (r.sender.last.Some? ==> WasSent(mac, r, r.sender.last.value))
    && Subsequence(r.accepted, r.committed, r.picks)
    && (forall k | 0 <= k < |r.picks| :: r.picks[k] < r.receiver.sequence)
  }

  lemma NewConsistent(mac: Tagger)
    ensures Consistent(mac, NewRun())
  {
  }

  lemma CommitConsistent(mac: Tagger, r: Run, peer: bool, taken: bool)
    requires Consistent(mac, r)
    ensures Consistent(mac, Moved(mac, r, Committing(peer, taken)))
  {
    var a := Moved(mac, r, Committing(peer, taken));
    var payload := r.sender.words[..r.sender.count];
    if CanCommit(r.sender, peer) && taken {
      assert a.committed == r.committed + [payload];
      assert CarriesAt(mac, a, Datagram(mac, r.sender), |r.committed|);
    } else {
      LastStaysSent(mac, r, a);
    }
  }

  /** The receiver takes payload k only if it is beyond all that it took before. */
  lemma ReceiveMeans(mac: Tagger, r: Run, bytes: seq<byte>, fromPeer: bool, k: nat)
    requires Consistent(mac, r) && CarriesAt(mac, r, bytes, k)
    ensures Receive(mac, r.receiver, Arrival(bytes, fromPeer))
         == if fromPeer && k >= r.receiver.sequence then Receiver(|r.committed[k]|, k + 1, r.committed[k], 1)
            else Refuse(r.receiver, 3)
  {
    UnpackPacked(mac, MAXIMUM_WORDS, k + 1, r.committed[k]);
  }

  lemma PickNext(r: Run, k: nat)
    requires Subsequence(r.accepted, r.committed, r.picks) && k < |r.committed| && forall i | 0 <= i < |r.picks| :: r.picks[i] < k
    ensures Subsequence(r.accepted + [r.committed[k]], r.committed, r.picks + [k])
  {
  }

  lemma LastStaysSent(mac: Tagger, r: Run, next: Run)
    requires Consistent(mac, r) && next.committed == r.committed
    ensures r.sender.last.Some? ==> WasSent(mac, next, r.sender.last.value)
  {
    if r.sender.last.Some? {
      var k: nat :| CarriesAt(mac, r, r.sender.last.value, k);
      assert CarriesAt(mac, next, r.sender.last.value, k);
    }
  }

  lemma AcceptedConsistent(mac: Tagger, r: Run, next: Run, k: nat)
    requires Consistent(mac, r) && r.receiver.sequence <= k < |r.committed|
    requires next == r.(receiver := next.receiver, accepted := r.accepted + [r.committed[k]], picks := r.picks + [k])
    requires next.receiver.sequence == k + 1
    ensures Consistent(mac, next)
  {
    LastStaysSent(mac, r, next);
    PickNext(r, k);
  }

  lemma ArrivalConsistent(mac: Tagger, r: Run, a: Arrival)
    requires Consistent(mac, r) && CanMove(mac, r, Arriving(a))
    ensures Consistent(mac, Moved(mac, r, Arriving(a)))
  {
    var next := Moved(mac, r, Arriving(a));
    LastStaysSent(mac, r, next);
    if a.Arrival? && Unpack(mac, MAXIMUM_WORDS, a.bytes).Some? {
      var k: nat :| CarriesAt(mac, r, a.bytes, k);
      ReceiveMeans(mac, r, a.bytes, a.fromPeer, k);
      if a.fromPeer && k >= r.receiver.sequence {
        assert r.committed[k][..] == r.committed[k];
        AcceptedConsistent(mac, r, next, k);
      }
    }
  }

  lemma MoveConsistent(mac: Tagger, r: Run, m: Move)
    requires Consistent(mac, r) && CanMove(mac, r, m)
    ensures Consistent(mac, Moved(mac, r, m))
  {
    match m
    case Committing(peer, taken) => CommitConsistent(mac, r, peer, taken);
    case Arriving(a) => ArrivalConsistent(mac, r, a);
    case _ => LastStaysSent(mac, r, Moved(mac, r, m));
  }

  ghost predicate CanMoveAll(mac: Tagger, r: Run, moves: seq<Move>)
    decreases |moves|
  {
    moves == [] || (CanMove(mac, r, moves[0]) && CanMoveAll(mac, Moved(mac, r, moves[0]), moves[1..]))
  }

  ghost function MovedAll(mac: Tagger, r: Run, moves: seq<Move>): Run
    requires CanMoveAll(mac, r, moves)
    decreases |moves|
  {
    if moves == [] then r else MovedAll(mac, Moved(mac, r, moves[0]), moves[1..])
  }

  lemma {:induction false} MovesConsistent(mac: Tagger, r: Run, moves: seq<Move>)
    requires Consistent(mac, r) && CanMoveAll(mac, r, moves)
    ensures Consistent(mac, MovedAll(mac, r, moves))
    decreases |moves|
  {
    if moves != [] {
      MoveConsistent(mac, r, moves[0]);
      MovesConsistent(mac, Moved(mac, r, moves[0]), moves[1..]);
    }
  }

  /**
   However the network loses, repeats and reorders what is sent and replayed, the payloads that the receiver accepts
   are some of those that were sent, in the order in which they were sent, each at most once.
   */
  lemma AcceptedInOrder(mac: Tagger, moves: seq<Move>)
    requires CanMoveAll(mac, NewRun(), moves)
    ensures var r := MovedAll(mac, NewRun(), moves); SomeInOrder(r.accepted, r.committed)
  {
    NewConsistent(mac);
    MovesConsistent(mac, NewRun(), moves);
    var r := MovedAll(mac, NewRun(), moves);
    assert Subsequence(r.accepted, r.committed, r.picks);
  }

  /** What a replay hands to the network was sent before. */
  lemma ReplaySendsOld(mac: Tagger, r: Run, peer: bool)
    requires Consistent(mac, r) && Replay(r.sender, peer).Some?
    ensures WasSent(mac, r, Replay(r.sender, peer).value)
  {
  }

  /** With nothing lost or out of order every payload is accepted: the next datagram always is. */
  lemma NextAccepted(mac: Tagger, r: Run, fromPeer: bool)
    requires Consistent(mac, r) && r.receiver.sequence < |r.committed| < LIMIT_32 && fromPeer
    ensures var k := r.receiver.sequence; var bytes := Pack(mac, k + 1, r.committed[k]);
      Receive(mac, r.receiver, Arrival(bytes, fromPeer)) == Receiver(|r.committed[k]|, k + 1, r.committed[k], 1)
  {
    UnpackPacked(mac, MAXIMUM_WORDS, r.receiver.sequence + 1, r.committed[r.receiver.sequence]);
  }
}
