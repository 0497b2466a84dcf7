/** What the sync client keeps under its mutex, updated in place (native/kookie_kutter_sync.c). */
module KutterState {
  import opened KutterFrames
  import opened Kutter
  import opened Ring

  class State {
    var state: int
    var stopping: bool
    var epoch: nat
    var sendCount: nat
    var sendStaged: nat
    var sendActive: bool
    var sendPending: bool
    const sendWords: array<int>
    const received: Ring<seq<int>>

    ghost function Repr(): set<object> {
      {this, sendWords, received, received.items}
    }

    ghost predicate Valid()
      reads Repr()
    {
      received.Valid() && received.items.Length == QUEUE && Shaped(Value())
    }

    ghost function Value(): Client
      requires received.Valid()
      reads this, sendWords, received, received.items
    {
      Client(state, stopping, epoch, sendCount, sendStaged, sendActive, sendPending, sendWords[..], received.Contents())
    }

    constructor ()
      ensures Valid() && fresh(Repr()) && Value() == NewClient()
    {
      state, stopping, epoch := CLOSED, false, 0;
      sendCount, sendStaged, sendActive, sendPending := 0, 0, false, false;
      sendWords := new int[MAX_WORDS](_ => 0);
      received := new Ring<seq<int>>(QUEUE, []);
      new;
      assert sendWords[..] == seq(MAX_WORDS, _ => 0);
    }

    /** A new epoch begins unless one is under way. */
    method Open() returns (starts: bool)
      requires Valid()
      modifies Repr()
      ensures Valid() && Value() == Kutter.Open(old(Value()))
      ensures starts <==> epoch != old(epoch)
    {
      if state == CONNECTING || state == OPEN {
        return false;
      }
      state, stopping, epoch := CONNECTING, false, NextEpoch(epoch);
      sendCount, sendStaged, sendPending, sendActive := 0, 0, false, false;
      received.Reset();
      return true;
    }

    method SendBegin(n: int) returns (ok: bool)
      requires Valid()
      modifies this
      ensures Valid() && (Value(), ok) == Kutter.SendBegin(old(Value()), n)
    {
      if n < 3 || n > MAX_WORDS || state != OPEN || sendActive || sendPending {
        return false;
      }
      sendCount, sendStaged, sendActive := n, 0, true;
      return true;
    }

    method SendWord(i: int, w: int) returns (ok: bool)
      requires Valid()
      modifies this, sendWords
      ensures Valid() && (Value(), ok) == Kutter.SendWord(old(Value()), i, w)
    {
      if !sendActive || i != sendStaged || i >= sendCount {
        return false;
      }
      sendWords[i] := w;
      sendStaged := sendStaged + 1;
      return true;
    }

    method SendCommit() returns (ok: bool)
      requires Valid()
      modifies this
      ensures Valid() && (Value(), ok) == Kutter.SendCommit(old(Value()))
    {
      if !sendActive || sendStaged != sendCount || state != OPEN || sendPending {
        return false;
      }
      sendActive, sendPending := false, true;
      return true;
    }

    method ReceiveAvailable() returns (n: nat)
      requires Valid()
      ensures n == Kutter.ReceiveAvailable(Value())
    {
      n := 0;
      if received.count > 0 {
        var first := received.First();
        n := |first|;
      }
    }

    method ReceiveWord(i: int) returns (w: int)
      requires Valid()
      modifies received
      ensures Valid() && (Value(), w) == Kutter.ReceiveWord(old(Value()), i)
    {
      if received.count == 0 {
        return -1;
      }
      var first := received.First();
      if i < 0 || i >= |first| {
        return -1;
      }
      ghost var was := received.Contents();
      if i == |first| - 1 {
        var taken := received.Take();
        assert received.Contents() == was[1..];
      }
      return first[i];
    }

    method Close()
      requires Valid()
      modifies Repr()
      ensures Valid() && Value() == Kutter.Close(old(Value()))
    {
      stopping, epoch, state := true, NextEpoch(epoch), CLOSED;
      sendActive, sendCount, sendStaged, sendPending := false, 0, 0, false;
      received.Reset();
    }

    // ----- The regions of a worker -----

    method LeaveWorker(mine: nat)
      requires Valid()
      modifies this`state
      ensures Valid() && Value() == GiveUp(old(Value()), mine)
    {
      if epoch == mine {
        state := if stopping then CLOSED else FAILED;
      }
    }

    method Connected(mine: nat) returns (goesOn: bool)
      requires Valid()
      modifies this`state
      ensures Valid()
      ensures (Value(), Worker(mine, if goesOn then Looking else Gone)) == Turn(old(Value()), Worker(mine, Connecting), Succeeded)
    {
      goesOn := !(stopping || epoch != mine);
      if goesOn {
        state := OPEN;
      }
    }

    /** What a worker finds to send. */
    method Look(mine: nat) returns (next: Worker)
      requires Valid()
      ensures (Value(), next) == Turn(Value(), Worker(mine, Looking), Succeeded)
    {
      if stopping || epoch != mine {
        return Worker(mine, Leaving);
      }
      if sendPending {
        return Worker(mine, Sending(sendWords[..sendCount]));
      }
      return Worker(mine, Receiving);
    }

    /** The stage went out. Until now nothing else could be staged. */
    method Sent(mine: nat, ghost words: seq<int>)
      requires Valid() && (epoch == mine ==> sendPending)
      modifies this
      ensures Valid() && (Value(), Worker(mine, Receiving)) == Turn(old(Value()), Worker(mine, Sending(words)), Succeeded)
    {
      if epoch == mine {
        sendPending, sendCount := false, 0;
      }
    }

    /** Hands a message over, or leaves it with a worker that has to wait or to leave. */
    method Deliver(mine: nat, words: seq<int>) returns (next: Worker)
      requires Valid() && Packable(words)
      modifies received, received.items
      ensures Valid() && (Value(), next) == Turn(old(Value()), Worker(mine, Holding(words)), Succeeded)
    {
      if stopping || epoch != mine {
        return Worker(mine, Leaving);
      }
      var ok := received.Push(words);
      return if ok then Worker(mine, Looking) else Worker(mine, Holding(words));
    }
  }
}
