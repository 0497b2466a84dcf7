/** Which symbols of a COFF object survive the stripping, and what their records and indices become. */
module CoffSymbols {
  import opened Bytes
  import opened CoffObject

  /** Record a starts a group when the records are walked group by group from record i. */
  ghost predicate Head(data: seq<byte>, ptr: nat, count: nat, i: nat, a: nat)
    requires ptr + Symbols(count) <= |data|
    decreases count - i
  {
    && i <= a < count
    && (a == i || Head(data, ptr, count, i + GroupSize(data, ptr, i), a))
  }

  /** The index map is strictly increasing. */
  ghost predicate Increasing(index: map<nat, nat>) {
    forall a, b | a in index && b in index && a < b :: index[a] < index[b]
  }

  ghost predicate Image(index: map<nat, nat>, j: nat) {
    exists a :: a in index && index[a] == j
  }

  /** Every new record is the image of an old one. */
  ghost predicate Dense(symbols: SymbolTable) {
    forall j | 0 <= j < Count(symbols) :: Image(symbols.index, j)
  }

  /** New record j is old record a: a group's first record with its section renumbered, an auxiliary record unchanged. */
  ghost predicate SameRecord(data: seq<byte>, ptr: nat, count: nat, sections: Sections, a: nat, record: seq<byte>)
    requires ptr + Symbols(count) <= |data| && a < count
  {
    record == if Head(data, ptr, count, 0, a) then Renumbered(sections, Record(data, ptr, a)) else Record(data, ptr, a)
  }

  /** Every record the index leads to is the old record. */
  ghost predicate RecordsKept(data: seq<byte>, ptr: nat, count: nat, sections: Sections, symbols: SymbolTable)
    requires ptr + Symbols(count) <= |data| && Indexed(symbols, count)
  {
    forall a <- symbols.index :: SameRecord(data, ptr, count, sections, a, Record(symbols.records, 0, symbols.index[a]))
  }

  /** The group at record a ends before record n, and stays with all its records unless it names a removed section. */
  ghost predicate GroupKept(data: seq<byte>, ptr: nat, sections: Sections, index: map<nat, nat>, n: nat, a: nat)
    requires ptr + Symbols(a + 1) <= |data|
  {
    && a + GroupSize(data, ptr, a) <= n
    && forall b | a <= b < a + GroupSize(data, ptr, a) :: b in index <==> !NamesRemoved(sections, Record(data, ptr, a))
  }

  /** Of the groups that start before record n, just those that name no removed section stay. */
  ghost predicate GroupsKept(data: seq<byte>, ptr: nat, count: nat, sections: Sections, index: map<nat, nat>, n: nat)
    requires ptr + Symbols(count) <= |data|
  {
    forall a | 0 <= a < n && Head(data, ptr, count, 0, a) :: GroupKept(data, ptr, sections, index, n, a)
  }

  /** The walk has come to record i. */
  ghost predicate WalkedTo(data: seq<byte>, ptr: nat, count: nat, i: nat)
    requires ptr + Symbols(count) <= |data|
  {
    forall a | i <= a :: Head(data, ptr, count, 0, a) == Head(data, ptr, count, i, a)
  }

  lemma WalkOn(data: seq<byte>, ptr: nat, count: nat, i: nat)
    requires ptr + Symbols(count) <= |data| && i < count && WalkedTo(data, ptr, count, i)
    ensures Head(data, ptr, count, 0, i)
    ensures forall a | i < a < i + GroupSize(data, ptr, i) :: !Head(data, ptr, count, 0, a)
    ensures WalkedTo(data, ptr, count, i + GroupSize(data, ptr, i))
  {
    var next := i + GroupSize(data, ptr, i);
    assert Head(data, ptr, count, i, i);
    forall a | i < a
      ensures Head(data, ptr, count, 0, a) == Head(data, ptr, count, next, a)
    {
      assert Head(data, ptr, count, 0, a) == Head(data, ptr, count, i, a);
    }
  }

  /** A slice of the last of three strings, itself cut from data, taken in the three joined. */
  lemma SliceOfLast(a: seq<byte>, b: seq<byte>, data: seq<byte>, from: nat, to: nat, lo: nat, hi: nat)
    requires from <= to <= |data| && lo <= hi <= to - from
    ensures (a + b + data[from..to])[|a| + |b| + lo..|a| + |b| + hi] == data[from + lo..from + hi]
  {
    var all, part := a + b + data[from..to], data[from + lo..from + hi];
    forall k | 0 <= k < hi - lo
      ensures all[|a| + |b| + lo..|a| + |b| + hi][k] == part[k]
    {
      assert all[|a| + |b| + lo + k] == data[from..to][lo + k] == data[from + (lo + k)];
    }
  }

  lemma SliceOfFirst(a: seq<byte>, b: seq<byte>, c: seq<byte>, lo: nat, hi: nat)
    requires lo <= hi <= |a|
    ensures (a + b + c)[lo..hi] == a[lo..hi]
  {
  }

  lemma SliceOfMiddle(a: seq<byte>, b: seq<byte>, c: seq<byte>)
    ensures (a + b + c)[|a|..|a| + |b|] == b
  {
  }

  lemma KeepGroupRecord(data: seq<byte>, ptr: nat, sections: Sections, i: nat, symbols: SymbolTable, j: nat)
    requires ptr + Symbols(i + 1) <= |data| && ptr + Symbols(i + GroupSize(data, ptr, i)) <= |data|
    requires Indexed(symbols, i) && j < Count(symbols) + GroupSize(data, ptr, i)
    ensures Record(KeepGroup(data, ptr, sections, i, symbols).records, 0, j) ==
            if j < Count(symbols) then Record(symbols.records, 0, j)
            else if j == Count(symbols) then Renumbered(sections, Record(data, ptr, i))
            else Record(data, ptr, i + (j - Count(symbols)))
  {
    var group, head := GroupSize(data, ptr, i), Renumbered(sections, Record(data, ptr, i));
    var from, to := ptr + Symbols(i + 1), ptr + Symbols(i + group);
    if j < Count(symbols) {
      SliceOfFirst(symbols.records, head, data[from..to], Symbols(j), Symbols(j + 1));
    } else if j == Count(symbols) {
      SliceOfMiddle(symbols.records, head, data[from..to]);
    } else {
      var m := j - Count(symbols);
      SliceOfLast(symbols.records, head, data, from, to, Symbols(m - 1), Symbols(m));
    }
  }

  /** What holds of the kept symbols when the walk has come to record i. */
  ghost predicate KeptTo(data: seq<byte>, ptr: nat, count: nat, sections: Sections, symbols: SymbolTable, i: nat)
    requires ptr + Symbols(count) <= |data|
  {
    && i <= count && Indexed(symbols, i)
    && WalkedTo(data, ptr, count, i)
    && Increasing(symbols.index) && Dense(symbols)
    && RecordsKept(data, ptr, count, sections, symbols)
    && GroupsKept(data, ptr, count, sections, symbols.index, i)
  }

  lemma KeepGroupNumbers(data: seq<byte>, ptr: nat, sections: Sections, symbols: SymbolTable, i: nat)
    requires ptr + Symbols(i + 1) <= |data| && ptr + Symbols(i + GroupSize(data, ptr, i)) <= |data|
    requires Indexed(symbols, i) && Increasing(symbols.index) && Dense(symbols)
    ensures Increasing(KeepGroup(data, ptr, sections, i, symbols).index)
    ensures Dense(KeepGroup(data, ptr, sections, i, symbols))
  {
    var r := KeepGroup(data, ptr, sections, i, symbols);
    forall j | 0 <= j < Count(r)
      ensures Image(r.index, j)
    {
      if j < Count(symbols) {
        assert Image(symbols.index, j);
        var a :| a in symbols.index && symbols.index[a] == j;
        assert a in r.index && r.index[a] == j;
      } else {
        assert i + (j - Count(symbols)) in r.index;
      }
    }
  }

  lemma KeepGroupRecords(data: seq<byte>, ptr: nat, count: nat, sections: Sections, symbols: SymbolTable, i: nat)
    requires ptr + Symbols(count) <= |data| && i < count && i + GroupSize(data, ptr, i) <= count
    requires Indexed(symbols, i) && WalkedTo(data, ptr, count, i)
    requires RecordsKept(data, ptr, count, sections, symbols)
    ensures RecordsKept(data, ptr, count, sections, KeepGroup(data, ptr, sections, i, symbols))
  {
    var r := KeepGroup(data, ptr, sections, i, symbols);
    WalkOn(data, ptr, count, i);
    forall a <- r.index
      ensures SameRecord(data, ptr, count, sections, a, Record(r.records, 0, r.index[a]))
    {
      KeepGroupRecord(data, ptr, sections, i, symbols, r.index[a]);
      if a < i {
        assert SameRecord(data, ptr, count, sections, a, Record(symbols.records, 0, symbols.index[a]));
      }
    }
  }

  lemma GroupsKeptOn(
    data: seq<byte>, ptr: nat, count: nat, sections: Sections, index: map<nat, nat>, next: map<nat, nat>, i: nat)
    requires ptr + Symbols(count) <= |data| && i < count && i + GroupSize(data, ptr, i) <= count
    requires WalkedTo(data, ptr, count, i) && GroupsKept(data, ptr, count, sections, index, i)
    requires forall b | 0 <= b < i :: b in index <==> b in next
    requires GroupKept(data, ptr, sections, next, i + GroupSize(data, ptr, i), i)
    ensures GroupsKept(data, ptr, count, sections, next, i + GroupSize(data, ptr, i))
  {
    WalkOn(data, ptr, count, i);
    forall a | 0 <= a < i + GroupSize(data, ptr, i) && Head(data, ptr, count, 0, a)
      ensures GroupKept(data, ptr, sections, next, i + GroupSize(data, ptr, i), a)
    {
      if a < i {
        assert GroupKept(data, ptr, sections, index, i, a);
      }
    }
  }

  lemma KeepGroupKept(data: seq<byte>, ptr: nat, count: nat, sections: Sections, symbols: SymbolTable, i: nat)
    requires ptr + Symbols(count) <= |data| && KeptTo(data, ptr, count, sections, symbols, i)
    requires i < count && i + GroupSize(data, ptr, i) <= count
    requires !NamesRemoved(sections, Record(data, ptr, i))
    ensures KeptTo(data, ptr, count, sections, KeepGroup(data, ptr, sections, i, symbols), i + GroupSize(data, ptr, i))
  {
    WalkOn(data, ptr, count, i);
    KeepGroupNumbers(data, ptr, sections, symbols, i);
    KeepGroupRecords(data, ptr, count, sections, symbols, i);
    GroupsKeptOn(data, ptr, count, sections, symbols.index, KeepGroup(data, ptr, sections, i, symbols).index, i);
  }

  lemma SkipGroupKept(data: seq<byte>, ptr: nat, count: nat, sections: Sections, symbols: SymbolTable, i: nat)
    requires ptr + Symbols(count) <= |data| && KeptTo(data, ptr, count, sections, symbols, i)
    requires i < count && i + GroupSize(data, ptr, i) <= count
    requires NamesRemoved(sections, Record(data, ptr, i))
    ensures KeptTo(data, ptr, count, sections, symbols, i + GroupSize(data, ptr, i))
  {
    WalkOn(data, ptr, count, i);
    GroupsKeptOn(data, ptr, count, sections, symbols.index, symbols.index, i);
  }

  /** The kept symbols: which they are, what their records say, and that their numbering has no gaps and keeps the order. */
  lemma {:induction false} KeepSymbolsKept(
    data: seq<byte>, ptr: nat, count: nat, sections: Sections, i: nat, symbols: SymbolTable)
    requires ptr + Symbols(count) <= |data| && KeptTo(data, ptr, count, sections, symbols, i)
    requires KeepSymbols(data, ptr, count, sections, i, symbols).Ok?
    ensures KeptTo(data, ptr, count, sections, KeepSymbols(data, ptr, count, sections, i, symbols).value, count)
    decreases count - i
  {
    if i < count {
      var group := GroupSize(data, ptr, i);
      if NamesRemoved(sections, Record(data, ptr, i)) {
        SkipGroupKept(data, ptr, count, sections, symbols, i);
        KeepSymbolsKept(data, ptr, count, sections, i + group, symbols);
      } else {
        KeepGroupKept(data, ptr, count, sections, symbols, i);
        KeepSymbolsKept(data, ptr, count, sections, i + group, KeepGroup(data, ptr, sections, i, symbols));
      }
    }
  }
}
