/** A queue in a fixed array that wraps around, as the web server, the worker pool and the sync client keep theirs. */
module Ring {

  /** The place that lies i places after the head. */
  function Place(head: nat, i: nat, size: nat): (r: nat)
    requires head < size && i <= size
    ensures r < size
  {
    if head + i < size then head + i else head + i - size
  }

  lemma NextPlace(p: nat, size: nat)
    requires p < size
    ensures (p + 1) % size == Place(p, 1, size)
  {
  }

  class Ring<T(0)> {
    const items: array<T>
    var head: nat
    var tail: nat
    var count: nat

    ghost predicate Valid()
      reads this
    {
      0 < items.Length && head < items.Length && count <= items.Length && tail == Place(head, count, items.Length)
    }

    ghost function Contents(): (r: seq<T>)
      requires Valid()
      reads this, items
      ensures |r| == count
    {
      seq(count, i requires 0 <= i < count reads this, items requires Valid() => items[Place(head, i, items.Length)])
    }

    constructor (size: nat, filler: T)
      requires size > 0
      ensures Valid() && fresh(items) && items.Length == size && Contents() == []
    {
      items := new T[size](_ => filler);
      head, tail, count := 0, 0, 0;
    }

    /** Adds an item at the end; refused when the ring is full. */
    method Push(item: T) returns (ok: bool)
      requires Valid()
      modifies this, items
      ensures Valid() && ok == (|old(Contents())| < items.Length)
      ensures Contents() == if ok then old(Contents()) + [item] else old(Contents())
    {
      if count == items.Length {
        return false;
      }
      ghost var was := Contents();
      items[tail] := item;
      NextPlace(tail, items.Length);
      tail, count := (tail + 1) % items.Length, count + 1;
      assert Contents() == was + [item];
      return true;
    }

    /** The ring is as it was made. */
    method Reset()
      requires Valid()
      modifies this
      ensures Valid() && Contents() == []
    {
      head, tail, count := 0, 0, 0;
    }

    method First() returns (item: T)
      requires Valid() && count > 0
      ensures item == Contents()[0]
    {
      item := items[head];
    }

    method Take() returns (item: T)
      requires Valid() && count > 0
      modifies this
      ensures Valid() && [item] + Contents() == old(Contents())
    {
      ghost var was := Contents();
      item := items[head];
      NextPlace(head, items.Length);
      head, count := (head + 1) % items.Length, count - 1;
      assert Contents() == was[1..] && was[0] == item;
    }
  }
}
