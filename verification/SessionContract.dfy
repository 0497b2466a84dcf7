/** The session contract in numbers (scripts/kookie_websocket_session.py): just which words each message may have. */
module SessionContract {
  import opened SessionMessages

  /** The words begin with these, and end with the checksum of all that comes before it. */
  predicate Sealed(words: seq<int>, start: seq<int>) {
    start != [] && |words| == |start| + 1 && words == start + [MessageChecksum(start)]
  }

  /** Two sequences that begin alike are sealed alike. */
  lemma {:induction false} SealedAs(words: seq<int>, start: seq<int>)
    requires start != []
    ensures Sealed(words, start)
       <==> |words| == |start| + 1 && words[..|start|] == start && words[|start|] == MessageChecksum(words[..|start|])
  {
    if |words| == |start| + 1 && words[..|start|] == start {
      assert words == start + [words[|start|]];
    }
  }

  /** A browser's hello is just one message for each number; so are the two acknowledgements, the ping and the pong. */
  lemma {:induction false} GreetingsExactly(sequence: int, words: seq<int>)
    ensures Valid(1, sequence, words) <==> Sealed(words, [2, 1, sequence, 1, 1, 1, 1])
    ensures Valid(2, sequence, words)
       <==> Sealed(words, [2, 2, sequence, 0, 1, 1]) || Sealed(words, [2, 2, sequence, 1, 1, 1])
    ensures Valid(3, sequence, words) <==> Sealed(words, [2, 3, sequence])
    ensures Valid(4, sequence, words) <==> Sealed(words, [2, 4, sequence])
  {
    SealedAs(words, [2, 1, sequence, 1, 1, 1, 1]);
    SealedAs(words, [2, 2, sequence, 0, 1, 1]);
    SealedAs(words, [2, 2, sequence, 1, 1, 1]);
    SealedAs(words, [2, 3, sequence]);
    SealedAs(words, [2, 4, sequence]);
  }

  /** An error may carry anything; of any other kind than these six there is no message. */
  lemma {:induction false} OthersExactly(kind: int, sequence: int, words: seq<int>)
    requires kind < 1 || kind == 5 || kind > 6
    ensures Valid(kind, sequence, words)
       <==> && kind == 5 && |words| >= 3 && words[0] == 2 && words[1] == 5 && words[2] == sequence
            && words[|words| - 1] == MessageChecksum(words[..|words| - 1])
  {
  }

  /** The value that a command must carry: the way it moves or turns, if it does. */
  const VALUES: map<int, int> := map[
    1 := -8, 2 := 8, 3 := 0, 4 := 0, 5 := 0, 6 := 0, 7 := 0, 8 := 8, 9 := -8, 10 := -8, 11 := 8, 12 := -15, 13 := 15,
    14 := 0, 15 := 0]

  /** A game message of seven words is one of fifteen commands, with its own value; of five, the probe. */
  lemma {:induction false} CommandsExactly(sequence: int, words: seq<int>)
    ensures |words| == 7 ==>
      (Valid(6, sequence, words)
       <==> words[4] in VALUES && Sealed(words, [2, 6, sequence, 1, words[4], VALUES[words[4]]]))
    ensures |words| == 5 ==> (Valid(6, sequence, words) <==> Sealed(words, [2, 6, sequence, 7127]))
    ensures Valid(6, sequence, words) ==> |words| in {5, 7, 11, 30} || |words| >= 70
  {
    if |words| == 7 && words[4] in VALUES {
      SealedAs(words, [2, 6, sequence, 1, words[4], VALUES[words[4]]]);
    }
    SealedAs(words, [2, 6, sequence, 7127]);
  }

  predicate Named(words: seq<int>, sequence: int) {
    |words| >= 5 && words[0] == 2 && words[1] == 6 && words[2] == sequence
    && words[|words| - 1] == MessageChecksum(words[..|words| - 1])
  }

  /** A snapshot has marker 2, the tick, the position, health, stamina, the combo and the effect. */
  lemma {:induction false} SnapshotsExactly(sequence: int, words: seq<int>)
    requires |words| == 11
    ensures Valid(6, sequence, words)
       <==> && Named(words, sequence) && words[3] == 2 && 0 <= words[4] <= 10_000_000 && -100 <= words[5] <= 100
            && 0 <= words[6] <= 100 && 0 <= words[7] <= 100 && 0 <= words[8] <= 1_000_000 && 0 <= words[9] <= 15
  {
  }

  /** A scene has marker 3 and three actors; words 7, 13 to 15, 17 to 19 and 21 to 23 may be anything. */
  lemma {:induction false} ScenesExactly(sequence: int, words: seq<int>)
    requires |words| == 30
    ensures Valid(6, sequence, words)
       <==> && Named(words, sequence) && words[3] == 3 && 0 <= words[4] <= 10_000_000
            && -100 <= words[5] <= 100 && -60 <= words[6] <= 60 && 0 <= words[8] <= 100 && 0 <= words[9] <= 100
            && 0 <= words[10] <= 1_000_000 && 0 <= words[11] <= 15 && words[12] == 3
            && 0 <= words[16] <= 100 && 0 <= words[20] <= 100 && 0 <= words[24] <= 100
            && 0 <= words[25] <= 1 && -100 <= words[26] <= 100 && -60 <= words[27] <= 60 && 0 <= words[28] <= 6
  {
  }

  /** A place in the world, in the three words from p on. */
  predicate PlaceAt(w: seq<int>, p: nat)
    requires p + 3 <= |w|
  {
    4 <= w[p] <= 316 && 1 <= w[p + 1] <= 20 && 4 <= w[p + 2] <= 276
  }

  predicate StageAt(w: seq<int>)
    requires |w| >= 21
  {
    && w[3] == 4 && 0 <= w[4] <= 10_000_000 && PlaceAt(w, 5) && 0 <= w[8] <= 359 && -90 <= w[9] <= 90
    && 0 <= w[10] <= 100 && 0 <= w[11] <= 100 && 0 <= w[12] <= 99 && 0 <= w[13] <= 1_000_000 && 0 <= w[14] <= 15
    && 4 <= w[15] <= 316 && 1 <= w[16] <= 36 && -12 <= w[17] <= 276 && 0 <= w[18] <= 359 && -90 <= w[19] <= 90
    && w[20] == 4
  }

  predicate ActorAt(w: seq<int>, p: nat)
    requires p + 8 <= |w|
  {
    && w[p] >= 1 && PlaceAt(w, p + 1) && 0 <= w[p + 4] <= 100 && 1 <= w[p + 5] <= 4
    && (w[p + 6] == 1 || w[p + 6] == 2) && 0 <= w[p + 7] <= 359
  }

  predicate ActionAt(w: seq<int>)
    requires |w| >= 68
  {
    && (w[53] == 0 || w[53] == 1)
    && ((w[54] == 0 && w[55] == 0 && w[56] == 0 && w[57] == 0 && w[58] == 0)
        || (w[54] == 1 && PlaceAt(w, 55) && 1 <= w[58] <= 10))
    && (w[59] == 0 || w[59] == 1) && 0 <= w[60] <= 6 && PlaceAt(w, 61) && PlaceAt(w, 64) && 1 <= w[67] <= 4
  }

  /** Object number k: its nine words begin with word 69 + 9 * k. */
  predicate ObjectIs(w: seq<int>, k: nat)
    requires 69 + 9 * k + 9 <= |w|
  {
    var p := 69 + 9 * k;
    && w[p + 1] >= 1 && PlaceAt(w, p + 3) && 1 <= w[p + 6] <= 32 && 1 <= w[p + 7] <= 32 && 1 <= w[p + 8] <= 32
    && ((1 <= w[p] <= 3 && (w[p + 2] == 0 || w[p + 2] == 1)) || (w[p] == 4 && 1 <= w[p + 2] <= 3))
  }

  /** Label number k of those whose number is in word l. */
  predicate LabelIs(w: seq<int>, l: nat, k: nat)
    requires l + 1 + 6 * k + 6 <= |w|
  {
    var p := l + 1 + 6 * k;
    w[p] >= 1 && 1 <= w[p + 1] <= 4 && PlaceAt(w, p + 2) && (w[p + 5] == 0 || w[p + 5] == 1)
  }

  /**
   Objects of nine words each from word 69 on, then the number of labels, the labels of six words each, the checksum.
   */
  predicate ListsAt(w: seq<int>)
    requires |w| >= 70
  {
    && 0 <= w[68] <= 17 && 69 + 9 * w[68] < |w|
    && var p := 69 + 9 * w[68];
    && 0 <= w[p] <= 8 && |w| == p + 1 + 6 * w[p] + 1
    && (forall k | 0 <= k < w[68] :: ObjectIs(w, k))
    && (forall k | 0 <= k < w[p] :: LabelIs(w, p, k))
  }

  lemma {:induction false} StageIs(w: seq<int>)
    requires |w| >= 70
    ensures ValidStage(w[..21]) <==> StageAt(w)
  {
    var s := w[..21];
    assert forall k | 0 <= k < 21 :: s[k] == w[k];
  }

  lemma {:induction false} ActorIs(w: seq<int>, k: nat)
    requires |w| >= 70 && k < 4
    ensures ValidActor(w[21 + 8 * k..29 + 8 * k]) <==> ActorAt(w, 21 + 8 * k)
  {
  }

  lemma {:induction false} ActionIs(w: seq<int>)
    requires |w| >= 70
    ensures ValidAction(w[53..68]) <==> ActionAt(w)
  {
    var s := w[53..68];
    assert forall k | 0 <= k < 15 :: s[k] == w[53 + k];
  }

  lemma {:induction false} ObjectIsValid(w: seq<int>, k: nat)
    requires 69 + 9 * k + 9 <= |w|
    ensures ObjectIs(w, k) <==> ValidObject(w[ObjectAt(k)..ObjectAt(k + 1)])
  {
  }

  lemma {:induction false} LabelIsValid(w: seq<int>, p: nat, k: nat)
    requires p + 1 + 6 * k + 6 <= |w|
    ensures LabelIs(w, p, k) <==> ValidLabel(w[LabelAt(p, k)..LabelAt(p, k + 1)])
  {
  }

  lemma {:induction false} ObjectsAre(w: seq<int>, n: nat)
    requires 69 + 9 * n <= |w|
    ensures (forall k | 0 <= k < n :: ObjectIs(w, k))
        <==> forall k | 0 <= k < n :: ValidObject(w[ObjectAt(k)..ObjectAt(k + 1)])
  {
    forall k | 0 <= k < n
      ensures ObjectIs(w, k) <==> ValidObject(w[ObjectAt(k)..ObjectAt(k + 1)])
    {
      ObjectIsValid(w, k);
    }
    if forall k | 0 <= k < n :: ValidObject(w[ObjectAt(k)..ObjectAt(k + 1)]) {
      forall k | 0 <= k < n
        ensures ObjectIs(w, k)
      {
        assert ValidObject(w[ObjectAt(k)..ObjectAt(k + 1)]);
      }
    }
  }

  lemma {:induction false} LabelsAre(w: seq<int>, p: nat, n: nat)
    requires p + 1 + 6 * n <= |w|
    ensures (forall k | 0 <= k < n :: LabelIs(w, p, k))
       <==> forall k | 0 <= k < n :: ValidLabel(w[LabelAt(p, k)..LabelAt(p, k + 1)])
  {
    forall k | 0 <= k < n
      ensures LabelIs(w, p, k) <==> ValidLabel(w[LabelAt(p, k)..LabelAt(p, k + 1)])
    {
      LabelIsValid(w, p, k);
    }
    if forall k | 0 <= k < n :: ValidLabel(w[LabelAt(p, k)..LabelAt(p, k + 1)]) {
      forall k | 0 <= k < n
        ensures LabelIs(w, p, k)
      {
        assert ValidLabel(w[LabelAt(p, k)..LabelAt(p, k + 1)]);
      }
    }
  }

  lemma {:induction false} ListsAre(w: seq<int>)
    requires |w| >= 70
    ensures ListsAt(w)
       <==> && Within(0, w[68], 17) && ObjectAt(w[68]) < |w| && Within(0, w[ObjectAt(w[68])], 8)
            && var p := ObjectAt(w[68]);
            && |w| == LabelAt(p, w[p]) + 1
            && (forall k | 0 <= k < w[68] :: ValidObject(w[ObjectAt(k)..ObjectAt(k + 1)]))
            && (forall k | 0 <= k < w[p] :: ValidLabel(w[LabelAt(p, k)..LabelAt(p, k + 1)]))
  {
    if 0 <= w[68] <= 17 && 69 + 9 * w[68] < |w| {
      var p := 69 + 9 * w[68];
      ObjectsAre(w, w[68]);
      if 0 <= w[p] && |w| == p + 1 + 6 * w[p] + 1 {
        LabelsAre(w, p, w[p]);
      }
    }
  }

  /** A full scene has marker 4: the player and the camera, four actors, what happens, and the two lists. */
  lemma {:induction false} FullScenesExactly(sequence: int, words: seq<int>)
    requires |words| >= 70
    ensures Valid(6, sequence, words)
       <==> && Named(words, sequence) && StageAt(words) && ActionAt(words) && ListsAt(words)
            && ActorAt(words, 21) && ActorAt(words, 29) && ActorAt(words, 37) && ActorAt(words, 45)
  {
    StageIs(words);
    ActionIs(words);
    ListsAre(words);
    ActorIs(words, 0);
    ActorIs(words, 1);
    ActorIs(words, 2);
    ActorIs(words, 3);
    assert (forall k | 0 <= k < 4 :: ValidActor(words[21 + 8 * k..29 + 8 * k]))
      <==> ActorAt(words, 21) && ActorAt(words, 29) && ActorAt(words, 37) && ActorAt(words, 45);
  }
}
