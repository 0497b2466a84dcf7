/**
 The words that the caller of the sync client stages and reads, one by one, and what every step changes
 (native/kookie_kutter_sync.c).
 */
module KutterWords {
  import opened Bytes
  import opened KutterFrames
  import opened Kutter

  // ----- Sending -----

  /** A message is begun exactly while the session is open and no other is staged or waits to go out. */
  lemma {:induction false} BeginExactly(c: Client, n: int)
    ensures var (r, ok) := SendBegin(c, n);
      && (ok <==> 3 <= n <= 320 && c.state == 2 && !c.active && !c.pending)
      && r == if ok then c.(count := n, staged := 0, active := true) else c
  {
  }

  /** A word is staged exactly if it is the next one. Then it is the word at its place, and no other changes. */
  lemma {:induction false} WordExactly(c: Client, i: int, w: int, k: nat)
    requires Shaped(c) && k < 320
    ensures var (r, ok) := SendWord(c, i, w);
      && (ok <==> c.active && i == c.staged && i < c.count)
      && r == c.(words := r.words, staged := c.staged + (if ok then 1 else 0))
      && |r.words| == 320 && r.words[k] == if ok && i == k then w else c.words[k]
  {
  }

  /** A message is committed exactly once all of its words are staged and the session is still open. */
  lemma {:induction false} CommitExactly(c: Client)
    requires Shaped(c)
    ensures var (r, ok) := SendCommit(c);
      && (ok <==> c.active && c.staged == c.count && c.state == 2)
      && r == if ok then c.(active := false, pending := true) else c
  {
  }

  /** The caller stages the words from number k on, in their order, and whether all were taken. */
  function StageAll(c: Client, words: seq<int>, k: nat): (r: (Client, bool))
    requires Shaped(c) && k <= |words|
    ensures Shaped(r.0)
    decreases |words| - k
  {
    if k == |words| then (c, true)
    else
      var (next, ok) := SendWord(c, k, words[k]);
      var (last, all) := StageAll(next, words, k + 1);
      (last, ok && all)
  }

  lemma {:induction false} StagedAll(c: Client, words: seq<int>, k: nat, i: nat)
    requires Shaped(c) && c.active && c.count == |words| && c.staged == k <= |words| && i < |words|
    ensures var (r, all) := StageAll(c, words, k);
      && all && r == c.(words := r.words, staged := |words|)
      && |r.words| == 320 && r.words[i] == if i < k then c.words[i] else words[i]
    decreases |words| - k
  {
    if k < |words| {
      WordExactly(c, k, words[k], i);
      StagedAll(SendWord(c, k, words[k]).0, words, k + 1, i);
    }
  }

  /** Whatever was in the buffer, a message that is begun, staged word by word and committed is what waits to go out. */
  lemma {:induction false} MessageStaged(c: Client, words: seq<int>)
    requires Shaped(c) && c.state == 2 && !c.active && !c.pending && 3 <= |words| <= 320
    ensures var (begun, began) := SendBegin(c, |words|);
      var (staged, all) := StageAll(begun, words, 0);
      var (r, ok) := SendCommit(staged);
      && began && all && ok && r.pending && !r.active && r.count == |words| && r.words[..r.count] == words
      && r.state == 2 && r.epoch == c.epoch && r.stopping == c.stopping && r.queue == c.queue
  {
    var begun := SendBegin(c, |words|).0;
    StagedAll(begun, words, 0, 0);
    var staged := StageAll(begun, words, 0).0;
    forall i | 0 <= i < |words|
      ensures staged.words[i] == words[i]
    {
      StagedAll(begun, words, 0, i);
    }
  }

  /** The worker of the epoch takes just those words, and once they are sent there is room for the next message. */
  lemma {:induction false} MessageGoesOut(c: Client, words: seq<int>, epoch: nat, looks: Outcome)
    requires Shaped(c) && c.pending && c.words[..c.count] == words && c.epoch == epoch && !c.stopping
    ensures Turn(c, Worker(epoch, Looking), looks) == (c, Worker(epoch, Sending(words)))
    ensures var (r, w) := Turn(c, Worker(epoch, Sending(words)), Succeeded);
      r == c.(pending := false, count := 0) && w == Worker(epoch, Receiving)
  {
  }

  // ----- Receiving -----

  /**
   What is read is the word at that place of the first message, or -1 if there is none; its last word takes it off.
   */
  lemma {:induction false} ReadExactly(c: Client, i: int)
    requires Shaped(c)
    ensures var (r, word) := ReceiveWord(c, i);
      if c.queue != [] && 0 <= i < |c.queue[0]| then
        word == c.queue[0][i] && r == c.(queue := if i + 1 == |c.queue[0]| then c.queue[1..] else c.queue)
      else word == -1 && r == c
    ensures ReceiveAvailable(c) == if c.queue == [] then 0 else |c.queue[0]|
  {
  }

  /** The caller reads n words from number k on, in their order. */
  function ReadAll(c: Client, k: nat, n: nat): (Client, seq<int>)
    requires Shaped(c)
    decreases n
  {
    if n == 0 then (c, [])
    else
      var (next, word) := ReceiveWord(c, k);
      var (last, words) := ReadAll(next, k + 1, n - 1);
      (last, [word] + words)
  }

  lemma {:induction false} ReadFrom(c: Client, words: seq<int>, others: seq<seq<int>>, k: nat)
    requires Shaped(c) && c.queue == [words] + others && k < |words|
    ensures ReadAll(c, k, |words| - k) == (c.(queue := others), words[k..])
    decreases |words| - k
  {
    var n := |words| - k;
    var (next, word) := ReceiveWord(c, k);
    assert c.queue[0] == words && c.queue[1..] == others;
    assert ReadAll(c, k, n).1 == [word] + ReadAll(next, k + 1, n - 1).1;
    if k + 1 < |words| {
      assert next == c;
      ReadFrom(c, words, others, k + 1);
      assert words[k..] == [words[k]] + words[k + 1..];
    } else {
      assert ReadAll(next, k + 1, n - 1) == (next, []) && [word] + [] == [word];
      assert words[k..] == [words[k]];
    }
  }

  /** Reading as many words as there are of the first message yields the message, and the next one comes up. */
  lemma {:induction false} MessageRead(c: Client)
    requires Shaped(c) && c.queue != []
    ensures ReadAll(c, 0, ReceiveAvailable(c)) == (c.(queue := c.queue[1..]), c.queue[0])
  {
    assert c.queue == [c.queue[0]] + c.queue[1..];
    assert Packable(c.queue[0]);
    ReadFrom(c, c.queue[0], c.queue[1..], 0);
    assert c.queue[0][0..] == c.queue[0];
  }

  /**
   A message whose kind is a byte comes through: packed at the far end, it is the last that the caller gets to read.
   */
  lemma {:induction false} MessageComesIn(c: Client, words: seq<int>, epoch: nat, waits: Outcome)
    requires Shaped(c) && c.epoch == epoch && !c.stopping && |c.queue| < 16
    requires Packable(words) && (forall v <- words :: FitsSigned32(v)) && 0 <= words[1] < 256
    ensures Turn(c, Worker(epoch, Receiving), Came(Packed(words))) == (c, Worker(epoch, Holding(words)))
    ensures Turn(c, Worker(epoch, Holding(words)), waits) == (c.(queue := c.queue + [words]), Worker(epoch, Looking))
  {
    PackedDeliveredExactly(words);
  }

  // ----- What a step changes -----

  /**
   A session is opened unless it is open or about to be: its epoch begins with nothing staged and nothing received.
   */
  lemma {:induction false} OpenExactly(c: Client)
    ensures var r := Open(c);
      if c.state == 1 || c.state == 2 then r == c
      else
        && r.state == 1 && !r.stopping && r.epoch == (c.epoch + 1) % 0x1_0000_0000
        && r.count == r.staged == 0 && !r.pending && !r.active && r.queue == [] && r.words == c.words
  {
  }

  lemma {:induction false} CloseExactly(c: Client)
    ensures var r := Close(c);
      && r.state == 0 && r.stopping && r.epoch == (c.epoch + 1) % 0x1_0000_0000
      && r.count == r.staged == 0 && !r.pending && !r.active && r.queue == [] && r.words == c.words
  {
  }

  /** The worker belongs to the present epoch, and that is not being closed. */
  predicate Wanted(c: Client, w: Worker) {
    w.epoch == c.epoch && !c.stopping
  }

  /** What a turn of a worker changes of what is shared: the state, the message that waits to go out, and the queue. */
  lemma {:induction false} TurnChanges(c: Client, w: Worker, o: Outcome)
    requires Shaped(c)
    ensures var r, mine, s := Turn(c, w, o).0, w.epoch == c.epoch, w.stage;
      && r == c.(state := r.state, pending := r.pending, count := r.count, queue := r.queue)
      && r.state == (if s.Connecting? && !o.Failed? && Wanted(c, w) then 2
                     else if mine && (s.Leaving? || (s.Connecting? && o.Failed?)) then (if c.stopping then 0 else -1)
                     else c.state)
      && (r.pending, r.count) == (if s.Sending? && !o.Failed? && mine then (false, 0) else (c.pending, c.count))
      && r.queue == (if s.Holding? && Wanted(c, w) && |c.queue| < 16 then c.queue + [s.words] else c.queue)
  {
  }

  /**
   Where the turn leaves the worker: it goes round by looking, sending and receiving until it fails or is not wanted.
   */
  lemma {:induction false} TurnLeads(c: Client, w: Worker, o: Outcome)
    requires Shaped(c)
    ensures var after := Turn(c, w, o).1;
      && after.epoch == w.epoch
      && match w.stage
         case Connecting => after.stage == if !o.Failed? && Wanted(c, w) then Looking else Gone
         case Looking =>
           after.stage == if !Wanted(c, w) then Leaving else if c.pending then Sending(c.words[..c.count])
               else Receiving
         case Sending(_) => after.stage == if o.Failed? then Leaving else Receiving
         case Receiving => after.stage == if Fetched(o).Some? then Holding(Fetched(o).value) else Leaving
         case Holding(words) =>
           after.stage == if !Wanted(c, w) then Leaving else if |c.queue| < 16 then Looking else Holding(words)
         case Leaving => after.stage == Gone
         case Gone => after.stage == Gone
  {
  }
}
