/**
 The words that a caller sets one by one, the datagram that they make, and the words that come out of it
 (native/kookie_transport.c).
 */
module TransportWords {
  import opened Results
  import opened Bytes
  import opened Datagrams
  import opened Transport

  datatype Placing = Placing(index: int, word: Word32)

  function SetAll(s: Sender, placings: seq<Placing>): (r: Sender)
    requires Sound(s)
    ensures Sound(r)
    decreases |placings|
  {
    if placings == [] then s else SetAll(SetWord(s, placings[0].index, placings[0].word).0, placings[1..])
  }

  /** The word that was set last at this index, or the one before if none was. */
  function LastSet(placings: seq<Placing>, i: nat, before: Word32): Word32
    decreases |placings|
  {
    if placings == [] then before
    else LastSet(placings[1..], i, if placings[0].index == i then placings[0].word else before)
  }

  /** A word is set exactly if its index is one of the message that was begun; then that word changes, and no other. */
  lemma {:induction false} SettingExactly(s: Sender, index: int, word: Word32, i: nat)
    requires Sound(s) && i < MAXIMUM_WORDS
    ensures var (t, ok) := SetWord(s, index, word);
      && (ok <==> 0 <= index < s.count)
      && t == s.(words := t.words) && t.words[i] == if ok && i == index then word else s.words[i]
  {
  }

  lemma {:induction false} SettingsKeep(s: Sender, placings: seq<Placing>, i: nat)
    requires Sound(s) && i < s.count
    ensures var t := SetAll(s, placings); t == s.(words := t.words) && t.words[i] == LastSet(placings, i, s.words[i])
    decreases |placings|
  {
    if placings != [] {
      var next := SetWord(s, placings[0].index, placings[0].word).0;
      SettingExactly(s, placings[0].index, placings[0].word, i);
      SettingsKeep(next, placings[1..], i);
    }
  }

  /** The message is what was set: word i of it was set last to words[i]. */
  ghost predicate Sets(placings: seq<Placing>, words: seq<Word32>) {
    forall i, before: Word32 | 0 <= i < |words| :: LastSet(placings, i, before) == words[i]
  }

  lemma {:induction false} MessageSet(s: Sender, words: seq<Word32>, placings: seq<Placing>)
    requires Sound(s) && 0 < |words| <= MAXIMUM_WORDS && Sets(placings, words)
    ensures var t := SetAll(Begin(s, |words|).0, placings);
      t.count == |words| && t.sequence == s.sequence && t.last == s.last && t.words[..t.count] == words
  {
    var begun := Begin(s, |words|).0;
    var t := SetAll(begun, placings);
    SettingsKeep(begun, placings, 0);
    forall i | 0 <= i < |words|
      ensures t.words[i] == words[i]
    {
      SettingsKeep(begun, placings, i);
      assert LastSet(placings, i, begun.words[i]) == words[i];
    }
  }

  /**
   From the caller's words to the other side's: a message that is begun, set word by word in any order and as often as
   one likes, and committed, arrives as just the words that were set last, under the next number.
   */
  lemma {:induction false} WordsArrive(mac: Tagger, s: Sender, words: seq<Word32>, placings: seq<Placing>, r: Receiver)
    requires Sound(s) && 0 < |words| <= MAXIMUM_WORDS && Sets(placings, words)
    requires s.sequence != LAST_SEQUENCE && r.sequence <= s.sequence
    ensures var ready := SetAll(Begin(s, |words|).0, placings);
      var (t, ok) := Commit(mac, ready, true, true);
      && ok && t.sequence == s.sequence + 1 && t.count == 0 && t.last.Some?
      && Receive(mac, r, Arrival(t.last.value, true)) == Receiver(|words|, s.sequence + 1, words, 1)
  {
    MessageSet(s, words, placings);
    UnpackPacked(mac, MAXIMUM_WORDS, s.sequence + 1, words);
  }

  /** The words of a message from number k on, set in their order. */
  function InOrder(words: seq<Word32>, k: nat): seq<Placing>
    requires k <= |words|
    decreases |words| - k
  {
    if k == |words| then [] else [Placing(k, words[k])] + InOrder(words, k + 1)
  }

  lemma {:induction false} LastSetFirst(first: Placing, rest: seq<Placing>, i: nat, before: Word32)
    ensures LastSet([first] + rest, i, before) == LastSet(rest, i, if first.index == i then first.word else before)
  {
    assert ([first] + rest)[1..] == rest;
  }

  lemma {:induction false} InOrderSets(words: seq<Word32>, k: nat, i: nat, before: Word32)
    requires k <= |words| && i < |words|
    ensures LastSet(InOrder(words, k), i, before) == if k <= i then words[i] else before
    decreases |words| - k
  {
    if k < |words| {
      var now := if k == i then words[k] else before;
      LastSetFirst(Placing(k, words[k]), InOrder(words, k + 1), i, before);
      InOrderSets(words, k + 1, i, now);
    }
  }

  /** Setting them in their order is one way. */
  lemma {:induction false} InOrderIs(words: seq<Word32>)
    ensures Sets(InOrder(words, 0), words)
  {
    forall i, before: Word32 | 0 <= i < |words|
      ensures LastSet(InOrder(words, 0), i, before) == words[i]
    {
      InOrderSets(words, 0, i, before);
    }
  }

  // ----- When a datagram goes out, and when it is taken -----

  lemma {:induction false} BeginExactly(s: Sender, count: int)
    requires Sound(s)
    ensures var (t, ok) := Begin(s, count); (ok <==> 1 <= count <= 1740) && t == if ok then s.(count := count) else s
  {
  }

  /**
   A message is sent exactly if words were begun, there is a peer whose socket takes it all, and the numbers have not
   run out. One that the socket did not take is given up, and its number is used for the next.
   */
  lemma {:induction false} CommitExactly(mac: Tagger, s: Sender, peer: bool, taken: bool)
    requires Sound(s)
    ensures var (t, ok) := Commit(mac, s, peer, taken);
      && (ok <==> peer && taken && s.count > 0 && s.sequence < 0xffff_ffff)
      && t.words == s.words && t.sequence == s.sequence + (if ok then 1 else 0)
      && t.count == (if peer && s.count > 0 && s.sequence < 0xffff_ffff then 0 else s.count)
      && t.last == if ok then Some(Pack(mac, s.sequence + 1, s.words[..s.count])) else s.last
  {
  }

  ghost predicate IsPacked(mac: Tagger, bytes: seq<byte>, sequence: Word32, payload: seq<Word32>) {
    sequence > 0 && 0 < |payload| <= 1740 && bytes == Pack(mac, sequence, payload)
  }

  /**
   A datagram is taken exactly if it comes from the peer and is the packing of a message under a number higher than the
   last; then its words can be read. Any other leaves nothing to read, and the last number as it was.
   */
  lemma {:induction false} TakenExactly(mac: Tagger, r: Receiver, bytes: seq<byte>, fromPeer: bool)
    ensures var t := Receive(mac, r, Arrival(bytes, fromPeer));
      && (t.status == 1
          <==> fromPeer && exists n: Word32, p: seq<Word32> :: n > r.sequence && IsPacked(mac, bytes, n, p))
      && (t.status == 1 ==>
            t.sequence > r.sequence && t.count == |t.words| && IsPacked(mac, bytes, t.sequence, t.words))
      && (t.status != 1 ==> t == Receiver(0, r.sequence, [], 3))
  {
    var t := Receive(mac, r, Arrival(bytes, fromPeer));
    if Unpack(mac, MAXIMUM_WORDS, bytes).Some? {
      var m := Unpack(mac, MAXIMUM_WORDS, bytes).value;
      PackUnpacked(mac, MAXIMUM_WORDS, bytes);
      assert IsPacked(mac, bytes, m.sequence, m.payload);
    }
    forall n: Word32, p: seq<Word32> | n > r.sequence && IsPacked(mac, bytes, n, p)
      ensures fromPeer ==> t == Receiver(|p|, n, p, 1)
    {
      UnpackPacked(mac, MAXIMUM_WORDS, n, p);
    }
  }

  // ----- The bytes of a datagram -----

  lemma {:induction false} WordsInBytes(words: seq<Word32>, k: nat)
    requires k < |words|
    ensures ToBytes(words)[4 * k..4 * k + 4] == Be32(words[k])
    decreases k
  {
    if k > 0 {
      WordsInBytes(words[1..], k - 1);
      assert ToBytes(words)[4 * k..4 * k + 4] == ToBytes(words[1..])[4 * (k - 1)..4 * (k - 1) + 4];
    }
  }

  /**
   A datagram is the text KOOK, the version, the number of words, the number of the datagram, the tag with its lower
   half first, and the words, each with its highest byte first. The tag is that of the same bytes with zeros in its place.
   */
  lemma {:induction false} DatagramLayout(mac: Tagger, sequence: Word32, payload: seq<Word32>, k: nat)
    requires 0 < |payload| < 0x1_0000_0000 && k < |payload|
    ensures var d, tag := Pack(mac, sequence, payload), mac(ToBytes(Words(sequence, payload, 0)));
      && |d| == 24 + 4 * |payload|
      && d[0..4] == [0x4b, 0x4f, 0x4f, 0x4b] && d[4..8] == [0, 0, 0, 1]
      && d[8..12] == Be32(|payload|) && d[12..16] == Be32(sequence)
      && d[16..20] == Be32(tag % 0x1_0000_0000) && d[20..24] == Be32(tag / 0x1_0000_0000)
      && d[24 + 4 * k..28 + 4 * k] == Be32(payload[k])
  {
    var tag := mac(ToBytes(Words(sequence, payload, 0)));
    var words := Words(sequence, payload, tag);
    WordsInBytes(words, 0);
    WordsInBytes(words, 1);
    WordsInBytes(words, 2);
    WordsInBytes(words, 3);
    WordsInBytes(words, 4);
    WordsInBytes(words, 5);
    WordsInBytes(words, 6 + k);
    HighestFirst();
  }

  lemma {:induction false} HighestFirst()
    ensures Be32(0x4b4f4f4b) == [0x4b, 0x4f, 0x4f, 0x4b] && Be32(1) == [0, 0, 0, 1]
    ensures Be32(0x1234_5678) == [0x12, 0x34, 0x56, 0x78] && Be16(0x1234) == [0x12, 0x34]
  {
  }
}
