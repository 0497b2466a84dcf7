/**
 What a stripped COFF object holds byte by byte (scripts/strip_coff_debug.py): its file header, and each section's row
 and chunks, where the fields of the original say they were.
 */
module CoffBytes {
  import opened Bytes
  import opened Results
  import opened CoffObject
  import opened CoffStrip

  /** Little-endian: the lowest byte comes first. */
  lemma {:induction false} LittleEndian()
    ensures Get16([0x34, 0x12], 0) == 0x1234 && Get32([0x78, 0x56, 0x34, 0x12], 0) == 0x1234_5678
    ensures Put16([0, 0], 0, 0x1234) == [0x34, 0x12] && Put32([0, 0, 0, 0], 0, 0x1234_5678) == [0x78, 0x56, 0x34, 0x12]
    ensures Signed16(0x7fff) == 0x7fff && Signed16(0x8000) == -0x8000 && Signed16(0xffff) == -1
  {
  }

  // ----- Reading -----

  /** Nothing, or so many bytes at a pointer that is not zero, inside the object. */
  ghost predicate Chunk(data: seq<byte>, pointer: nat, size: nat, chunk: seq<byte>) {
    if size == 0 then chunk == []
    else pointer != 0 && pointer + size <= |data| && chunk == data[pointer..pointer + size]
  }

  ghost predicate ChunkInside(data: seq<byte>, pointer: nat, size: nat) {
    size == 0 || (pointer != 0 && pointer + size <= |data|)
  }

  /** The three chunks of the section with this row lie inside the object. */
  ghost predicate RowReadable(data: seq<byte>, row: seq<byte>)
    requires |row| == 40
  {
    && ChunkInside(data, Get32(row, 20), Get32(row, 16))
    && ChunkInside(data, Get32(row, 24), 10 * Get16(row, 32))
    && ChunkInside(data, Get32(row, 28), 6 * Get16(row, 34))
  }

  /** s is the section with this row. */
  ghost predicate RowHolds(data: seq<byte>, row: seq<byte>, s: Section)
    requires |row| == 40
  {
    && s.header == row
    && Chunk(data, Get32(row, 20), Get32(row, 16), s.raw)
    && Chunk(data, Get32(row, 24), 10 * Get16(row, 32), s.reloc)
    && Chunk(data, Get32(row, 28), 6 * Get16(row, 34), s.line)
  }

  /** Row k of the section table at this place. */
  function RowAt(data: seq<byte>, table: nat, k: nat): (r: seq<byte>)
    requires table + 40 * k + 40 <= |data|
    ensures |r| == 40
  {
    data[table + 40 * k..table + 40 * k + 40]
  }

  lemma {:induction false} SectionRead(data: seq<byte>, table: nat, i: nat)
    requires table + Headers(i + 1) <= |data|
    ensures ReadSection(data, table, i).Ok? <==> RowReadable(data, RowAt(data, table, i))
    ensures ReadSection(data, table, i).Ok? ==> RowHolds(data, RowAt(data, table, i), ReadSection(data, table, i).value)
  {
  }

  /** The rows can all be read. */
  ghost predicate RowsReadable(data: seq<byte>, table: nat, count: nat)
    requires table + 40 * count <= |data|
  {
    forall k | 0 <= k < count :: RowReadable(data, RowAt(data, table, k))
  }

  /** The first item and those behind it, unless one of them could not be read. */
  function Both<T>(first: Outcome<T>, rest: Outcome<seq<T>>): Outcome<seq<T>> {
    if first.Err? then Err(first.error) else if rest.Err? then Err(rest.error) else Ok([first.value] + rest.value)
  }

  /** The items from number i on. */
  function Items<T>(item: nat -> Outcome<T>, count: nat, i: nat): Outcome<seq<T>>
    requires i <= count
    decreases count - i
  {
    if i == count then Ok([]) else Both(item(i), Items(item, count, i + 1))
  }

  lemma {:induction false} ItemAt<T>(item: nat -> Outcome<T>, count: nat, i: nat, k: nat)
    requires i <= k < count && Items(item, count, i).Ok?
    ensures k - i < |Items(item, count, i).value| && item(k) == Ok(Items(item, count, i).value[k - i])
    decreases count - i
  {
    if i < k {
      ItemAt(item, count, i + 1, k);
    }
  }

  lemma {:induction false} ItemsReadable<T>(item: nat -> Outcome<T>, count: nat, i: nat)
    requires i <= count
    ensures Items(item, count, i).Ok? <==> forall k | i <= k < count :: item(k).Ok?
    decreases count - i
  {
    if i < count {
      ItemsReadable(item, count, i + 1);
    }
  }

  /** Section k of the table. */
  function SectionAt(data: seq<byte>, table: nat, count: nat): nat -> Outcome<Section>
    requires table + 40 * count <= |data|
  {
    (k: nat) => if k < count then ReadSection(data, table, k) else Err(TruncatedSectionTable)
  }

  lemma {:induction false} ReadFirst(data: seq<byte>, table: nat, count: nat, i: nat)
    requires i < count && table + 40 * count <= |data|
    ensures ReadSections(data, table, count, i)
         == Both(ReadSection(data, table, i), ReadSections(data, table, count, i + 1))
  {
  }

  lemma {:induction false} ItemsFirst<T>(item: nat -> Outcome<T>, count: nat, i: nat)
    requires i < count
    ensures Items(item, count, i) == Both(item(i), Items(item, count, i + 1))
  {
  }

  lemma {:induction false} ItemIs(data: seq<byte>, table: nat, count: nat, i: nat)
    requires i < count && table + 40 * count <= |data|
    ensures ReadSection(data, table, i) == SectionAt(data, table, count)(i)
  {
  }

  lemma {:induction false} BothSame<T>(
    all: Outcome<seq<T>>, first: Outcome<T>, rest: Outcome<seq<T>>,
    items: Outcome<seq<T>>, item: Outcome<T>, others: Outcome<seq<T>>)
    requires all == Both(first, rest) && items == Both(item, others) && first == item && rest == others
    ensures all == items
  {
  }

  /** The table is read item by item. */
  lemma {:induction false} SectionsAreItems(data: seq<byte>, table: nat, count: nat, i: nat)
    requires i <= count && table + 40 * count <= |data|
    ensures ReadSections(data, table, count, i) == Items(SectionAt(data, table, count), count, i)
    decreases count - i
  {
    if i < count {
      var item := SectionAt(data, table, count);
      ReadFirst(data, table, count, i);
      ItemsFirst(item, count, i);
      ItemIs(data, table, count, i);
      SectionsAreItems(data, table, count, i + 1);
      BothSame(ReadSections(data, table, count, i), ReadSection(data, table, i), ReadSections(data, table, count, i + 1),
               Items(item, count, i), item(i), Items(item, count, i + 1));
    }
  }

  lemma {:induction false} SectionsRead(data: seq<byte>, table: nat, count: nat)
    requires table + 40 * count <= |data|
    ensures ReadSections(data, table, count, 0).Ok? <==> RowsReadable(data, table, count)
  {
    var item := SectionAt(data, table, count);
    SectionsAreItems(data, table, count, 0);
    ItemsReadable(item, count, 0);
    forall k | 0 <= k < count
      ensures item(k).Ok? <==> RowReadable(data, RowAt(data, table, k))
    {
      SectionRead(data, table, k);
    }
  }

  /** If the rows from number i on can be read, section k is read from row k. */
  lemma {:induction false} SectionReadAt(data: seq<byte>, table: nat, count: nat, i: nat, k: nat)
    requires i <= k < count && table + 40 * count <= |data| && ReadSections(data, table, count, i).Ok?
    ensures ReadSection(data, table, k) == Ok(ReadSections(data, table, count, i).value[k - i])
  {
    SectionsAreItems(data, table, count, i);
    ItemAt(SectionAt(data, table, count), count, i, k);
  }

  /** An object can be read exactly if its header, its section table and all chunks of its sections lie inside it. */
  ghost predicate Readable(data: seq<byte>) {
    && |data| >= 20
    && 20 + Get16(data, 16) + 40 * Get16(data, 2) <= |data|
    && RowsReadable(data, 20 + Get16(data, 16), Get16(data, 2))
  }

  /** Where the table is, and that it is read row by row. */
  lemma {:induction false} TableIs(data: seq<byte>, table: nat, count: nat)
    requires |data| >= 20 && table == 20 + Get16(data, 16) && count == Get16(data, 2)
    ensures SectionTable(data).Ok? ==> table + 40 * count <= |data|
    ensures table + 40 * count <= |data| ==> SectionTable(data) == ReadSections(data, table, count, 0)
  {
  }

  lemma {:induction false} ReadableExactly(data: seq<byte>)
    ensures SectionTable(data).Ok? <==> Readable(data)
    ensures SectionTable(data).Ok? ==> |SectionTable(data).value| == Get16(data, 2)
  {
    if |data| >= 20 {
      var table, count := 20 + Get16(data, 16), Get16(data, 2);
      TableIs(data, table, count);
      if table + 40 * count <= |data| {
        assert SectionTable(data).Ok? <==> RowsReadable(data, table, count) by {
          SectionsRead(data, table, count);
        }
      }
    }
  }

  lemma {:induction false} RowRead(data: seq<byte>, table: nat, k: nat, s: Section)
    requires table + 40 * k + 40 <= |data| && ReadSection(data, table, k) == Ok(s)
    ensures RowHolds(data, RowAt(data, table, k), s)
  {
    SectionRead(data, table, k);
  }

  /** Section k is what the bytes of row k say. */
  lemma {:induction false} TableRead(data: seq<byte>, k: nat)
    requires SectionTable(data).Ok? && k < |SectionTable(data).value|
    ensures var table := 20 + Get16(data, 16);
      table + 40 * k + 40 <= |data| && RowHolds(data, RowAt(data, table, k), SectionTable(data).value[k])
  {
    var table, count := 20 + Get16(data, 16), Get16(data, 2);
    TableIs(data, table, count);
    SectionReadAt(data, table, count, 0, k);
    RowRead(data, table, k, SectionTable(data).value[k]);
  }

  lemma {:induction false} UpToZeroKeeps(s: seq<byte>, n: nat)
    requires n <= |s| && forall k | 0 <= k < n :: s[k] != 0
    ensures |UpToZero(s)| >= n && UpToZero(s)[..n] == s[..n]
  {
    if n > 0 {
      UpToZeroKeeps(s[1..], n - 1);
      assert s[..n] == [s[0]] + s[1..][..n - 1];
      assert UpToZero(s)[..n] == [s[0]] + UpToZero(s[1..])[..n - 1];
    }
  }

  lemma {:induction false} UpToZeroIs(s: seq<byte>)
    ensures UpToZero(s) <= s
  {
    if s != [] && s[0] != 0 {
      UpToZeroIs(s[1..]);
    }
  }

  /** A debug section is one whose row starts with this text. */
  lemma {:induction false} DebugNames(s: Section)
    requires s.Valid()
    ensures s.Debug() <==> forall k | 0 <= k < 6 :: s.header[k] == ".debug"[k] as int
  {
    var name: seq<byte> := [0x2e, 0x64, 0x65, 0x62, 0x75, 0x67];
    assert forall k | 0 <= k < 6 :: name[k] == ".debug"[k] as int;
    UpToZeroIs(s.header[..8]);
    if s.Debug() {
      forall k | 0 <= k < 6
        ensures s.header[k] == ".debug"[k] as int
      {
        assert s.header[k] == s.Name()[k] == s.Name()[..6][k];
      }
    }
    if forall k | 0 <= k < 6 :: s.header[k] == ".debug"[k] as int {
      UpToZeroKeeps(s.header[..8], 6);
      assert s.Name()[..6] == name;
    }
  }

  // ----- What is written -----

  /** How many of the first n sections stay. */
  function Staying(sections: Sections, n: nat): nat
    requires n <= |sections|
  {
    if n == 0 then 0 else Staying(sections, n - 1) + if sections[n - 1].Debug() then 0 else 1
  }

  lemma {:induction false} StayingIs(sections: Sections, n: nat)
    requires n <= |sections|
    ensures Staying(sections, n) + RemovedBefore(sections, n) == n
  {
    if n > 0 {
      StayingIs(sections, n - 1);
    }
  }

  ghost predicate Stripped(data: seq<byte>) {
    SectionTable(data).Ok? && HasDebug(SectionTable(data).value) && Strip(data).Ok?
  }

  lemma {:induction false} BodyOf(data: seq<byte>) returns (kept: Sections, index: map<nat, nat>, body: seq<byte>)
    requires Stripped(data)
    ensures kept == Kept(SectionTable(data).value, 0) && index == SymbolsOf(data).0.index && Shrinking(index)
    ensures |kept| < LIMIT_16 && SameFileHeader(body, Skeleton(data, |kept|))
    ensures RowStart(|kept|) <= |body| && Laid(body, kept, index, |kept|)
    ensures PlaceSymbols(body, SymbolsOf(data).0, SymbolsOf(data).1) == Strip(data)
  {
    kept, index := Kept(SectionTable(data).value, 0), SymbolsOf(data).0.index;
    var start := Skeleton(data, |kept|);
    body := PlaceSections(start, kept, index, 0).value;
    PlaceSectionsLay(start, kept, index, 0);
  }

  lemma {:induction false} SkeletonBytes(data: seq<byte>, n: nat, k: nat)
    requires HasHeader(data) && n < LIMIT_16 && k < 20
    ensures k < 2 || 4 <= k ==> Skeleton(data, n)[k] == data[k]
    ensures Get16(Skeleton(data, n), 2) == n
  {
    var header := Put16(data[..20], 2, n);
    assert Skeleton(data, n)[k] == header[k];
    assert Skeleton(data, n)[2] == header[2] && Skeleton(data, n)[3] == header[3];
  }

  /**
   Of the file header the machine, the time stamp, the size of the optional header and the flags stay as they are; the
   number of sections is that of the sections that are not debug sections.
   */
  lemma {:induction false} HeaderSurvives(data: seq<byte>)
    requires Stripped(data)
    ensures var sections, out := SectionTable(data).value, Strip(data).value;
      && |out| >= 20
      && (forall k | 0 <= k < 2 || 4 <= k < 8 || 16 <= k < 20 :: out[k] == data[k])
      && Get16(out, 2) == Staying(sections, |sections|)
  {
    var sections, out := SectionTable(data).value, Strip(data).value;
    var kept, index, body := BodyOf(data);
    forall k | 0 <= k < 2 || 4 <= k < 8 || 16 <= k < 20
      ensures out[k] == data[k]
    {
      SkeletonBytes(data, |kept|, k);
    }
    SkeletonBytes(data, |kept|, 2);
    assert out[2] == body[2] == Skeleton(data, |kept|)[2] && out[3] == body[3] == Skeleton(data, |kept|)[3];
    StayingIs(sections, |sections|);
    KeptCount(sections, 0);
  }

  /** The chunk of the original is there in the written object, behind its n rows; an empty one has pointer zero. */
  ghost predicate Moved(out: seq<byte>, n: nat, pointer: nat, chunk: seq<byte>) {
    if chunk == [] then pointer == 0
    else 20 + 40 * n <= pointer && pointer + |chunk| <= |out| && out[pointer..pointer + |chunk|] == chunk
  }

  /** Relocation i is the one of the original, under the symbol's new number. */
  ghost predicate Redirected(written: seq<byte>, reloc: seq<byte>, index: map<nat, nat>, i: nat)
    requires |written| == |reloc| && 10 * i + 10 <= |reloc|
  {
    var symbol := Get32(reloc, 10 * i + 4);
    && written[10 * i..10 * i + 4] == reloc[10 * i..10 * i + 4]
    && written[10 * i + 8..10 * i + 10] == reloc[10 * i + 8..10 * i + 10]
    && symbol in index && Get32(written, 10 * i + 4) == index[symbol]
  }

  /** The rows are the same but for the three pointers, and the chunks of s are where the pointers say. */
  ghost predicate SectionMoved(out: seq<byte>, n: nat, row: seq<byte>, s: Section, index: map<nat, nat>)
    requires s.Valid() && |row| == 40
  {
    && row[..20] == s.header[..20] && row[32..] == s.header[32..]
    && Moved(out, n, Get32(row, 20), s.raw) && Moved(out, n, Get32(row, 28), s.line)
    && exists written: seq<byte> ::
         && |written| == |s.reloc| && Moved(out, n, Get32(row, 24), written)
         && forall i | 0 <= i < Get16(s.header, 32) :: Redirected(written, s.reloc, index, i)
  }

  lemma {:induction false} RelocationsMoved(s: Section, index: map<nat, nat>, i: nat)
    requires s.Valid() && Shrinking(index) && Relocated(s, index).Ok? && i < Get16(s.header, 32)
    ensures Redirected(Relocated(s, index).value, s.reloc, index, i)
  {
    RelocateAt(s.reloc, index, 0, RelocCount(s.header), i);
  }

  lemma {:induction false} DescribedMoved(out: seq<byte>, n: nat, j: nat, s: Section, index: map<nat, nat>)
    requires s.Valid() && Shrinking(index) && Relocated(s, index).Ok?
    requires Describes(out, n, j, s, Relocated(s, index).value)
    ensures SectionMoved(out, n, RowAt(out, 20, j), s, index)
  {
    var row, written := RowAt(out, 20, j), Relocated(s, index).value;
    assert row == Row(out, j);
    forall i | 0 <= i < Get16(s.header, 32)
      ensures Redirected(written, s.reloc, index, i)
    {
      RelocationsMoved(s, index, i);
    }
    assert Moved(out, n, Get32(row, 24), written);
  }

  /** Where a section that stays is among those that stay. */
  lemma {:induction false} StaysAt(sections: Sections, k: nat)
    requires k < |sections| && !sections[k].Debug()
    ensures var kept, j := Kept(sections, 0), Staying(sections, k);
      |kept| == Staying(sections, |sections|) && j < |kept| && kept[j] == sections[k]
  {
    var kept, j := Kept(sections, 0), Staying(sections, k);
    assert |kept| == Staying(sections, |sections|) by {
      StayingIs(sections, |sections|);
      KeptCount(sections, 0);
    }
    assert j == k - RemovedBefore(sections, k) by {
      StayingIs(sections, k);
    }
    KeptAt(sections, 0, k);
  }

  lemma {:induction false} KeptMoved(data: seq<byte>, j: nat)
    requires Stripped(data) && j < |Kept(SectionTable(data).value, 0)|
    ensures var kept, out := Kept(SectionTable(data).value, 0), Strip(data).value;
      20 + 40 * |kept| <= |out| && SectionMoved(out, |kept|, RowAt(out, 20, j), kept[j], SymbolsOf(data).0.index)
  {
    var kept, index, body := BodyOf(data);
    var (symbols, strings) := SymbolsOf(data);
    PlaceSymbolsKeepsSections(body, symbols, strings, kept, index);
    DescribedMoved(Strip(data).value, |kept|, j, kept[j], index);
  }

  /**
   Section k of the original, if it is no debug section, has a row in the written table, in its turn among those that
   stay. The row is the old one but for its pointers; they lead to the same raw bytes, the same line numbers and the
   same relocations, each under its symbol's new number. This holds with an optional header and without.
   */
  lemma {:induction false} SectionsMoved(data: seq<byte>, k: nat)
    requires Stripped(data) && k < |SectionTable(data).value| && !SectionTable(data).value[k].Debug()
    ensures var sections, out := SectionTable(data).value, Strip(data).value;
      var n, j := Staying(sections, |sections|), Staying(sections, k);
      && j < n && 20 + 40 * n <= |out|
      && SectionMoved(out, n, RowAt(out, 20, j), sections[k], SymbolsOf(data).0.index)
  {
    StaysAt(SectionTable(data).value, k);
    KeptMoved(data, Staying(SectionTable(data).value, k));
  }
}
