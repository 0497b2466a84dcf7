/** Removing the debug sections of a COFF object (scripts/strip_coff_debug.py), and what the result preserves. */
module CoffStrip {
  import opened Bytes
  import opened Results
  import opened CoffObject
  import opened CoffSymbols

  /** The object without its debug sections. */
  function Strip(data: seq<byte>): (r: Outcome<seq<byte>>) {
    var sections :- SectionTable(data);
    if !HasDebug(sections) then Ok(data)
    else
      var (symbols, strings) :- StripSymbols(data, sections);
      var kept := Kept(sections, 0);
      var body :- PlaceSections(Skeleton(data, |kept|), kept, symbols.index, 0);
      PlaceSymbols(body, symbols, strings)
  }

  // ----- The written sections -----

  /** The output holds the chunk at p, behind the section table; an empty chunk has pointer zero. */
  ghost predicate Holds(out: seq<byte>, base: nat, p: nat, chunk: seq<byte>) {
    if chunk == [] then p == 0
    else base <= p && p + |chunk| <= |out| && out[p..p + |chunk|] == chunk
  }

  /** The two section headers differ only in the three file pointers. */
  ghost predicate SameButPointers(a: seq<byte>, b: seq<byte>) {
    && |a| == |b| == 40
    && forall k | 0 <= k < 40 && (k < 20 || 32 <= k) :: a[k] == b[k]
  }

  function Row(out: seq<byte>, j: nat): (r: seq<byte>)
    requires RowStart(j + 1) <= |out|
    ensures |r| == 40
  {
    out[RowStart(j)..RowStart(j + 1)]
  }

  /** Row j of the section table describes s, with its chunks behind the table of n rows. */
  ghost predicate Describes(out: seq<byte>, n: nat, j: nat, s: Section, reloc: seq<byte>)
    requires s.Valid()
  {
    && j < n
    && RowStart(n) <= |out|
    && SameButPointers(Row(out, j), s.header)
    && var base := RowStart(n);
    && Holds(out, base, Get32(Row(out, j), 20), s.raw)
    && Holds(out, base, Get32(Row(out, j), 24), reloc)
    && Holds(out, base, Get32(Row(out, j), 28), s.line)
  }

  /** b continues a: it changed at most the file header and the rows from `from` on. */
  ghost predicate Continues(a: seq<byte>, b: seq<byte>, n: nat, from: nat) {
    && from <= n
    && RowStart(n) <= |a| <= |b|
    && forall i | 20 <= i < |a| && !(RowStart(from) <= i < RowStart(n))
         :: b[i] == a[i]
  }

  ghost predicate SameFileHeader(a: seq<byte>, b: seq<byte>) {
    HasHeader(a) && HasHeader(b) && forall i | 0 <= i < 20 :: a[i] == b[i]
  }

  lemma DescribesLater(a: seq<byte>, b: seq<byte>, n: nat, from: nat, j: nat, s: Section, reloc: seq<byte>)
    requires s.Valid() && Describes(a, n, j, s, reloc) && Continues(a, b, n, from) && j < from
    ensures Describes(b, n, j, s, reloc)
  {
    assert Row(b, j) == Row(a, j);
    HoldsLater(a, b, n, from, Get32(Row(a, j), 20), s.raw);
    HoldsLater(a, b, n, from, Get32(Row(a, j), 24), reloc);
    HoldsLater(a, b, n, from, Get32(Row(a, j), 28), s.line);
  }

  lemma HoldsLater(a: seq<byte>, b: seq<byte>, n: nat, from: nat, p: nat, chunk: seq<byte>)
    requires Continues(a, b, n, from) && Holds(a, RowStart(n), p, chunk)
    ensures Holds(b, RowStart(n), p, chunk)
  {
    if chunk != [] {
      assert a[p..p + |chunk|] == b[p..p + |chunk|];
    }
  }

  lemma PlaceHolds(out: seq<byte>, chunk: seq<byte>, base: nat)
    requires base <= |out| && Place(out, chunk).Ok?
    ensures Holds(Place(out, chunk).value.out, base, Place(out, chunk).value.at, chunk)
  {
    if chunk != [] {
      var placed := Place(out, chunk).value;
      assert placed.out[placed.at..placed.at + |chunk|] == chunk;
    }
  }

  lemma PrefixContinues(a: seq<byte>, c: seq<byte>, header: seq<byte>, n: nat, k: nat)
    requires a <= c && k < n && RowStart(n) <= |a| && |header| == 40
    ensures Continues(a, Overwrite(c, RowStart(k), header), n, k)
  {
    var r := Overwrite(c, RowStart(k), header);
    forall i | 20 <= i < |a| && !(RowStart(k) <= i < RowStart(n))
      ensures r[i] == a[i]
    {
      assert r[i] == c[i];
    }
  }

  lemma PointersOf(header: seq<byte>, p: nat, q: nat, l: nat)
    requires |header| == 40 && p < LIMIT_32 && q < LIMIT_32 && l < LIMIT_32
    ensures SameButPointers(WithPointers(header, p, q, l), header)
    ensures Get32(WithPointers(header, p, q, l), 20) == p
    ensures Get32(WithPointers(header, p, q, l), 24) == q
    ensures Get32(WithPointers(header, p, q, l), 28) == l
  {
    var a := Put32(header, 20, p);
    var b := Put32(a, 24, q);
    var c := Put32(b, 28, l);
    assert c[20] == a[20] && c[21] == a[21] && c[22] == a[22] && c[23] == a[23];
    assert c[24] == b[24] && c[25] == b[25] && c[26] == b[26] && c[27] == b[27];
  }

  lemma RowDescribes(raw: Placed, reloc: Placed, line: Placed, s: Section, patched: seq<byte>, n: nat, k: nat)
    requires s.Valid() && k < n && RowStart(n) <= |raw.out| && raw.out <= reloc.out <= line.out
    requires raw.at < LIMIT_32 && reloc.at < LIMIT_32 && line.at < LIMIT_32
    requires Holds(raw.out, RowStart(n), raw.at, s.raw)
    requires Holds(reloc.out, RowStart(n), reloc.at, patched)
    requires Holds(line.out, RowStart(n), line.at, s.line)
    ensures var header := WithPointers(s.header, raw.at, reloc.at, line.at);
            Describes(Overwrite(line.out, RowStart(k), header), n, k, s, patched)
  {
    var header := WithPointers(s.header, raw.at, reloc.at, line.at);
    var r := Overwrite(line.out, RowStart(k), header);
    PointersOf(s.header, raw.at, reloc.at, line.at);
    assert Row(r, k) == header;
    PrefixContinues(raw.out, line.out, header, n, k);
    PrefixContinues(reloc.out, line.out, header, n, k);
    PrefixContinues(line.out, line.out, header, n, k);
    HoldsLater(raw.out, r, n, k, raw.at, s.raw);
    HoldsLater(reloc.out, r, n, k, reloc.at, patched);
    HoldsLater(line.out, r, n, k, line.at, s.line);
  }

  lemma PlaceSectionContinues(out: seq<byte>, s: Section, index: map<nat, nat>, k: nat, n: nat)
    requires s.Valid() && Shrinking(index) && k < n && RowStart(n) <= |out|
    requires PlaceSection(out, s, index, k).Ok?
    ensures Continues(out, PlaceSection(out, s, index, k).value, n, k)
    ensures SameFileHeader(PlaceSection(out, s, index, k).value, out)
  {
    var raw := Place(out, s.raw).value;
    var reloc := Place(raw.out, Relocated(s, index).value).value;
    var line := Place(reloc.out, s.line).value;
    PrefixContinues(out, line.out, WithPointers(s.header, raw.at, reloc.at, line.at), n, k);
  }

  lemma PlaceSectionDescribes(out: seq<byte>, s: Section, index: map<nat, nat>, k: nat, n: nat)
    requires s.Valid() && Shrinking(index) && k < n && RowStart(n) <= |out|
    requires PlaceSection(out, s, index, k).Ok?
    ensures Relocated(s, index).Ok?
    ensures Describes(PlaceSection(out, s, index, k).value, n, k, s, Relocated(s, index).value)
  {
    var raw := Place(out, s.raw).value;
    var patched := Relocated(s, index).value;
    var reloc := Place(raw.out, patched).value;
    var line := Place(reloc.out, s.line).value;
    PlaceHolds(out, s.raw, RowStart(n));
    PlaceHolds(raw.out, patched, RowStart(n));
    PlaceHolds(reloc.out, s.line, RowStart(n));
    RowDescribes(raw, reloc, line, s, patched, n, k);
  }

  /** The first k kept sections are described by their rows, with their relocations replaced. */
  ghost predicate Laid(out: seq<byte>, kept: Sections, index: map<nat, nat>, k: nat)
    requires k <= |kept| && Shrinking(index)
  {
    forall j | 0 <= j < k ::
      && Relocated(kept[j], index).Ok?
      && Describes(out, |kept|, j, kept[j], Relocated(kept[j], index).value)
  }

  lemma LaidNext(out: seq<byte>, next: seq<byte>, kept: Sections, index: map<nat, nat>, k: nat)
    requires k < |kept| && Shrinking(index) && Laid(out, kept, index, k)
    requires Continues(out, next, |kept|, k)
    requires Relocated(kept[k], index).Ok? && Describes(next, |kept|, k, kept[k], Relocated(kept[k], index).value)
    ensures Laid(next, kept, index, k + 1)
  {
    forall j | 0 <= j < k
      ensures Relocated(kept[j], index).Ok? && Describes(next, |kept|, j, kept[j], Relocated(kept[j], index).value)
    {
      DescribesLater(out, next, |kept|, k, j, kept[j], Relocated(kept[j], index).value);
    }
  }

  /** Every kept section is described by its row once all are placed. */
  lemma {:induction false} PlaceSectionsLay(out: seq<byte>, kept: Sections, index: map<nat, nat>, k: nat)
    requires k <= |kept| && Shrinking(index) && RowStart(|kept|) <= |out|
    requires PlaceSections(out, kept, index, k).Ok? && Laid(out, kept, index, k)
    ensures SameFileHeader(PlaceSections(out, kept, index, k).value, out)
    ensures Laid(PlaceSections(out, kept, index, k).value, kept, index, |kept|)
    decreases |kept| - k
  {
    if k < |kept| {
      var next := PlaceSection(out, kept[k], index, k).value;
      PlaceSectionDescribes(out, kept[k], index, k, |kept|);
      PlaceSectionContinues(out, kept[k], index, k, |kept|);
      LaidNext(out, next, kept, index, k);
      PlaceSectionsLay(next, kept, index, k + 1);
    }
  }

  // ----- Reading the written sections back -----

  /** The section a reader finds at row j: kept section s with its relocations replaced. */
  function Written(out: seq<byte>, j: nat, s: Section, reloc: seq<byte>): Section
    requires RowStart(j + 1) <= |out|
  {
    Section(Row(out, j), s.raw, reloc, s.line)
  }

  lemma ChunkBack(out: seq<byte>, base: nat, p: nat, chunk: seq<byte>, section: nat, part: Part)
    requires Holds(out, base, p, chunk) && base > 0
    ensures CheckedChunk(out, p, |chunk|, section, part) == Ok(chunk)
  {
  }

  lemma SectionBack(out: seq<byte>, n: nat, j: nat, s: Section, reloc: seq<byte>)
    requires s.Valid() && Describes(out, n, j, s, reloc) && |reloc| == |s.reloc|
    ensures ReadSection(out, 20, j) == Ok(Written(out, j, s, reloc))
  {
    var header := Row(out, j);
    assert header == out[20 + Headers(j)..20 + Headers(j + 1)];
    SameNumbers(header, s.header);
    ChunkBack(out, RowStart(n), Get32(header, 20), s.raw, j, RawData);
    ChunkBack(out, RowStart(n), Get32(header, 24), reloc, j, Relocations);
    ChunkBack(out, RowStart(n), Get32(header, 28), s.line, j, LineNumbers);
  }

  lemma SameNumbers(a: seq<byte>, b: seq<byte>)
    requires SameButPointers(a, b)
    ensures Get32(a, 16) == Get32(b, 16) && RelocCount(a) == RelocCount(b) && Get16(a, 34) == Get16(b, 34)
    ensures a[..8] == b[..8]
  {
    assert a[16] == b[16] && a[17] == b[17] && a[18] == b[18] && a[19] == b[19];
    assert a[32] == b[32] && a[33] == b[33] && a[34] == b[34] && a[35] == b[35];
  }

  function WrittenSections(out: seq<byte>, kept: Sections, index: map<nat, nat>): (r: seq<Section>)
    requires RowStart(|kept|) <= |out| && Shrinking(index) && Laid(out, kept, index, |kept|)
    ensures |r| == |kept|
  {
    seq(|kept|, j requires 0 <= j < |kept| => Written(out, j, kept[j], Relocated(kept[j], index).value))
  }

  lemma {:induction false} SectionsBack(out: seq<byte>, kept: Sections, index: map<nat, nat>, i: nat)
    requires RowStart(|kept|) <= |out| && Shrinking(index) && Laid(out, kept, index, |kept|)
    requires i <= |kept|
    ensures ReadSections(out, 20, |kept|, i) == Ok(WrittenSections(out, kept, index)[i..])
    decreases |kept| - i
  {
    if i < |kept| {
      SectionBack(out, |kept|, i, kept[i], Relocated(kept[i], index).value);
      SectionsBack(out, kept, index, i + 1);
      var all := WrittenSections(out, kept, index);
      assert [all[i]] + all[i + 1..] == all[i..];
    }
  }

  // ----- Relocations -----

  ghost predicate SameBytes(a: seq<byte>, b: seq<byte>, from: nat, to: nat)
    requires from <= to <= |a| && to <= |b|
  {
    forall p | from <= p < to :: a[p] == b[p]
  }

  /** Relocation i names the new index of the symbol it named, and is otherwise as it was. */
  ghost predicate RelocatedRecord(reloc: seq<byte>, before: seq<byte>, index: map<nat, nat>, i: nat)
    requires Relocs(i + 1) <= |reloc| == |before|
  {
    && Get32(before, Relocs(i) + 4) in index
    && Get32(reloc, Relocs(i) + 4) == index[Get32(before, Relocs(i) + 4)]
    && SameBytes(reloc, before, Relocs(i), Relocs(i) + 4)
    && SameBytes(reloc, before, Relocs(i) + 8, Relocs(i + 1))
  }

  lemma {:induction false} RelocateAt(reloc: seq<byte>, index: map<nat, nat>, k: nat, n: nat, i: nat)
    requires Shrinking(index) && |reloc| == Relocs(n) && k <= n && i < n && Relocate(reloc, index, k, n).Ok?
    ensures i < k ==> SameBytes(Relocate(reloc, index, k, n).value, reloc, Relocs(i), Relocs(i + 1))
    ensures k <= i ==> RelocatedRecord(Relocate(reloc, index, k, n).value, reloc, index, i)
    decreases n - k
  {
    if k < n {
      var symbol := Get32(reloc, Relocs(k) + 4);
      var next := Put32(reloc, Relocs(k) + 4, index[symbol]);
      RelocateAt(next, index, k + 1, n, i);
      var r := Relocate(next, index, k + 1, n).value;
      if i == k {
        SameNumber32(r, next, Relocs(k) + 4);
      } else {
        SameNumber32(next, reloc, Relocs(i) + 4);
      }
    }
  }

  // ----- Which sections stay, and under which number -----

  /** The kept sections are the sections that are not debug sections, in order. */
  lemma {:induction false} KeptAt(sections: Sections, i: nat, j: nat)
    requires i <= j < |sections| && !sections[j].Debug()
    ensures var k := j - RemovedBefore(sections, j) - (i - RemovedBefore(sections, i));
      0 <= k < |Kept(sections, i)| && Kept(sections, i)[k] == sections[j]
    decreases |sections| - i
  {
    if i < j {
      KeptAt(sections, i + 1, j);
    }
  }

  lemma {:induction false} KeptCount(sections: Sections, i: nat)
    requires i <= |sections|
    ensures |Kept(sections, i)| == |sections| - RemovedBefore(sections, |sections|) - (i - RemovedBefore(sections, i))
    decreases |sections| - i
  {
    if i < |sections| {
      KeptCount(sections, i + 1);
    }
  }

  lemma {:induction false} RemovedBeyond(sections: Sections, n: nat)
    requires n >= |sections|
    ensures RemovedBefore(sections, n) == RemovedBefore(sections, |sections|)
  {
    if n > |sections| {
      RemovedBeyond(sections, n - 1);
    }
  }

  lemma {:induction false} NoneDebugKept(sections: Sections, i: nat)
    requires i <= |sections|
    ensures !HasDebug(Kept(sections, i))
    decreases |sections| - i
  {
    if i < |sections| {
      NoneDebugKept(sections, i + 1);
    }
  }

  // ----- The whole object -----

  /** The section that is read back is s, with its relocations led through the index. */
  ghost predicate SameSection(s': Section, s: Section, index: map<nat, nat>)
    requires s.Valid()
  {
    && s'.Valid()
    && SameButPointers(s'.header, s.header)
    && s'.Name() == s.Name() && s'.Debug() == s.Debug()
    && s'.raw == s.raw && s'.line == s.line
    && |s'.reloc| == |s.reloc|
    && forall i | 0 <= i < RelocCount(s.header) :: RelocatedRecord(s'.reloc, s.reloc, index, i)
  }

  /** Both symbol records name the same section, each by its number in its own object. */
  ghost predicate SameNamedSection(sections: Sections, kept: Sections, before: seq<byte>, after: seq<byte>)
    requires |before| == |after| == 18
  {
    var n, n' := SectionNumber(before), SectionNumber(after);
    if n <= 0 then n' == n
    else if n <= |sections| then 0 < n' <= |kept| && kept[n' - 1] == sections[n - 1]
    else n' > |kept|
  }

  lemma RenumberedNamesSame(sections: Sections, record: seq<byte>)
    requires |record| == 18 && !NamesRemoved(sections, record)
    ensures SameNamedSection(sections, Kept(sections, 0), record, Renumbered(sections, record))
  {
    var n := SectionNumber(record);
    if 0 < n <= |sections| {
      KeptAt(sections, 0, n - 1);
    } else if n > |sections| {
      KeptCount(sections, 0);
      RemovedBeyond(sections, n - 1);
    }
  }

  lemma PlaceSymbolsKeepsSections(
    out: seq<byte>, symbols: SymbolTable, strings: seq<byte>, kept: Sections, index: map<nat, nat>)
    requires Shrinking(index) && RowStart(|kept|) <= |out| && Laid(out, kept, index, |kept|)
    requires PlaceSymbols(out, symbols, strings).Ok?
    ensures var r := PlaceSymbols(out, symbols, strings).value;
            RowStart(|kept|) <= |r| && Laid(r, kept, index, |kept|)
            && SectionCount(r) == SectionCount(out) && OptionalSize(r) == OptionalSize(out)
  {
    var r := PlaceSymbols(out, symbols, strings).value;
    assert Continues(out, r, |kept|, |kept|);
    forall j | 0 <= j < |kept|
      ensures Describes(r, |kept|, j, kept[j], Relocated(kept[j], index).value)
    {
      DescribesLater(out, r, |kept|, |kept|, j, kept[j], Relocated(kept[j], index).value);
    }
  }

  lemma PlaceSymbolsHolds(out: seq<byte>, symbols: SymbolTable, strings: seq<byte>, n: nat)
    requires HasHeader(out) && Indexed(symbols, n) && PlaceSymbols(out, symbols, strings).Ok?
    ensures var r := PlaceSymbols(out, symbols, strings).value;
      && SymbolCount(r) == Count(symbols)
      && (Count(symbols) == 0 ==> SymbolPointer(r) == 0)
      && (Count(symbols) > 0 ==>
            && SymbolPointer(r) + Symbols(Count(symbols)) + |strings| == |r|
            && r[SymbolPointer(r)..SymbolPointer(r) + Symbols(Count(symbols))] == symbols.records
            && r[SymbolPointer(r) + Symbols(Count(symbols))..] == strings)
  {
    var r := PlaceSymbols(out, symbols, strings).value;
    if symbols.records == [] {
      SameNumber32(r, Put32(out, 8, 0), 8);
    } else {
      var all := Aligned(out) + symbols.records + strings;
      SameNumber32(r, Put32(all, 8, |Aligned(out)|), 8);
      assert r[20..] == all[20..];
    }
  }

  lemma SectionsSame(out: seq<byte>, kept: Sections, index: map<nat, nat>)
    requires Shrinking(index) && RowStart(|kept|) <= |out| && Laid(out, kept, index, |kept|)
    requires SectionCount(out) == |kept| && OptionalSize(out) == 0
    ensures SectionTable(out).Ok? && |SectionTable(out).value| == |kept|
    ensures forall j | 0 <= j < |kept| :: SameSection(SectionTable(out).value[j], kept[j], index)
  {
    SectionsBack(out, kept, index, 0);
    var written := WrittenSections(out, kept, index);
    assert written[0..] == written;
    assert SectionTable(out) == Ok(written);
    forall j | 0 <= j < |kept|
      ensures SameSection(written[j], kept[j], index)
    {
      var reloc := Relocated(kept[j], index).value;
      assert Describes(out, |kept|, j, kept[j], reloc);
      SameNumbers(Row(out, j), kept[j].header);
      forall i | 0 <= i < RelocCount(kept[j].header)
        ensures RelocatedRecord(reloc, kept[j].reloc, index, i)
      {
        RelocateAt(kept[j].reloc, index, 0, RelocCount(kept[j].header), i);
      }
    }
  }

  lemma SkeletonHeader(data: seq<byte>, n: nat, body: seq<byte>)
    requires HasHeader(data) && n < LIMIT_16 && SameFileHeader(body, Skeleton(data, n))
    ensures SectionCount(body) == n && OptionalSize(body) == OptionalSize(data)
  {
    var start := Skeleton(data, n);
    assert start[2] == Put16(data[..20], 2, n)[2] && start[3] == Put16(data[..20], 2, n)[3];
    assert start[16] == data[16] && start[17] == data[17];
  }

  /** The symbols kept from an object whose strip succeeds. */
  function SymbolsOf(data: seq<byte>): (SymbolTable, seq<byte>)
    requires SectionTable(data).Ok? && HasDebug(SectionTable(data).value) && Strip(data).Ok?
  {
    StripSymbols(data, SectionTable(data).value).value
  }

  /** The two objects' symbol records a and b are one symbol: the same bytes but for the number of the same section. */
  ghost predicate SameSymbol(data: seq<byte>, sections: Sections, a: nat, out: seq<byte>, b: nat)
    requires HasHeader(data) && HasHeader(out)
  {
    && a < SymbolCount(data) && SymbolPointer(data) + Symbols(SymbolCount(data)) <= |data|
    && b < SymbolCount(out) && SymbolPointer(out) + Symbols(SymbolCount(out)) <= |out|
    && var before, after := Record(data, SymbolPointer(data), a), Record(out, SymbolPointer(out), b);
    && SameBytes(after, before, 0, 12) && SameBytes(after, before, 14, 18)
    && if Head(data, SymbolPointer(data), SymbolCount(data), 0, a)
       then !NamesRemoved(sections, before) && SameNamedSection(sections, Kept(sections, 0), before, after)
       else after == before
  }

  /**
   The sections that a reader finds in the stripped object are the sections of the original that are not debug
   sections, in their order: the same names, headers, raw data and line numbers, and the same relocations, each led
   through the symbol index.
   */
  lemma SectionsSurvive(data: seq<byte>)
    requires SectionTable(data).Ok? && HasDebug(SectionTable(data).value) && Strip(data).Ok?
    requires OptionalSize(data) == 0
    ensures var kept, index := Kept(SectionTable(data).value, 0), SymbolsOf(data).0.index;
            var read := SectionTable(Strip(data).value);
            && read.Ok? && |read.value| == |kept|
            && forall j | 0 <= j < |kept| :: SameSection(read.value[j], kept[j], index)
  {
    var sections := SectionTable(data).value;
    var (symbols, strings) := SymbolsOf(data);
    var kept := Kept(sections, 0);
    var start := Skeleton(data, |kept|);
    var body := PlaceSections(start, kept, symbols.index, 0).value;
    PlaceSectionsLay(start, kept, symbols.index, 0);
    SkeletonHeader(data, |kept|, body);
    PlaceSymbolsKeepsSections(body, symbols, strings, kept, symbols.index);
    SectionsSame(Strip(data).value, kept, symbols.index);
  }

  lemma SymbolsKept(data: seq<byte>)
    requires SectionTable(data).Ok? && HasDebug(SectionTable(data).value) && Strip(data).Ok?
    requires SymbolCount(data) > 0
    ensures SymbolPointer(data) + Symbols(SymbolCount(data)) <= |data|
    ensures KeptTo(data, SymbolPointer(data), SymbolCount(data), SectionTable(data).value, SymbolsOf(data).0, SymbolCount(data))
    ensures Strings(data, SymbolPointer(data) + Symbols(SymbolCount(data))) == Ok(SymbolsOf(data).1)
  {
    KeepSymbolsKept(data, SymbolPointer(data), SymbolCount(data), SectionTable(data).value, 0, NO_SYMBOLS);
  }

  /** The written symbol table holds the kept records, with the original's string table behind it. */
  lemma SymbolTableWritten(data: seq<byte>)
    requires SectionTable(data).Ok? && HasDebug(SectionTable(data).value) && Strip(data).Ok?
    ensures HasHeader(Strip(data).value)
    ensures var (symbols, strings) := SymbolsOf(data);
            var out := Strip(data).value;
            && SymbolCount(out) == Count(symbols)
            && (Count(symbols) == 0 ==> SymbolPointer(out) == 0)
            && (Count(symbols) > 0 ==>
                  && SymbolPointer(out) + Symbols(Count(symbols)) + |strings| == |out|
                  && out[SymbolPointer(out)..SymbolPointer(out) + Symbols(Count(symbols))] == symbols.records
                  && out[SymbolPointer(out) + Symbols(Count(symbols))..] == strings)
  {
    var sections := SectionTable(data).value;
    var (symbols, strings) := SymbolsOf(data);
    var kept := Kept(sections, 0);
    var body := PlaceSections(Skeleton(data, |kept|), kept, symbols.index, 0).value;
    PlaceSymbolsHolds(body, symbols, strings, SymbolCount(data));
  }

  /**
   The symbols of the stripped object are those of the original whose group names no removed section. Their new
   numbers keep the order and have no gaps, and every one is the symbol it was: the same bytes, but for the number of
   its section, which is the number its own section now has.
   */
  lemma SymbolsSurvive(data: seq<byte>)
    requires SectionTable(data).Ok? && HasDebug(SectionTable(data).value) && Strip(data).Ok?
    ensures var sections, index, out := SectionTable(data).value, SymbolsOf(data).0.index, Strip(data).value;
            && HasHeader(out)
            && Increasing(index)
            && (forall j | 0 <= j < SymbolCount(out) :: Image(index, j))
            && (forall a <- index :: SameSymbol(data, sections, a, out, index[a]))
            && (SymbolCount(data) > 0 ==>
                  && SymbolPointer(data) + Symbols(SymbolCount(data)) <= |data|
                  && GroupsKept(data, SymbolPointer(data), SymbolCount(data), sections, index, SymbolCount(data)))
  {
    var sections, index, out := SectionTable(data).value, SymbolsOf(data).0.index, Strip(data).value;
    SymbolTableWritten(data);
    if SymbolCount(data) > 0 {
      SymbolsKept(data);
      forall a <- index
        ensures SameSymbol(data, sections, a, out, index[a])
      {
        SymbolSame(data, a);
      }
    }
  }

  lemma SymbolSame(data: seq<byte>, a: nat)
    requires SectionTable(data).Ok? && HasDebug(SectionTable(data).value) && Strip(data).Ok?
    requires a in SymbolsOf(data).0.index && SymbolCount(data) > 0
    ensures HasHeader(Strip(data).value)
    ensures SameSymbol(data, SectionTable(data).value, a, Strip(data).value, SymbolsOf(data).0.index[a])
  {
    var sections, out := SectionTable(data).value, Strip(data).value;
    var ptr, count := SymbolPointer(data), SymbolCount(data);
    var symbols := SymbolsOf(data).0;
    var b := symbols.index[a];
    SymbolsKept(data);
    SymbolTableWritten(data);
    assert SameRecord(data, ptr, count, sections, a, Record(symbols.records, 0, b));
    RecordInside(out, SymbolPointer(out), symbols.records, b);
    if Head(data, ptr, count, 0, a) {
      assert GroupKept(data, ptr, sections, symbols.index, count, a);
      RenumberedNamesSame(sections, Record(data, ptr, a));
    }
  }

  lemma RecordInside(out: seq<byte>, ptr: nat, records: seq<byte>, b: nat)
    requires Symbols(b + 1) <= |records| && ptr + |records| <= |out| && out[ptr..ptr + |records|] == records
    ensures Record(out, ptr, b) == Record(records, 0, b)
  {
    var mine, all := Record(out, ptr, b), out[ptr..ptr + |records|];
    forall p | 0 <= p < 18
      ensures mine[p] == Record(records, 0, b)[p]
    {
      assert mine[p] == out[ptr + (Symbols(b) + p)] == all[Symbols(b) + p];
    }
  }

  /** Every relocation of a kept section still resolves to the symbol it resolved to. */
  lemma RelocationsResolve(data: seq<byte>, j: nat, i: nat)
    requires SectionTable(data).Ok? && HasDebug(SectionTable(data).value) && Strip(data).Ok?
    requires OptionalSize(data) == 0
    requires j < |Kept(SectionTable(data).value, 0)| && i < RelocCount(Kept(SectionTable(data).value, 0)[j].header)
    ensures var read := SectionTable(Strip(data).value);
            && read.Ok? && j < |read.value| && |read.value[j].reloc| == |Kept(SectionTable(data).value, 0)[j].reloc|
            && SameSymbol(data, SectionTable(data).value, Get32(Kept(SectionTable(data).value, 0)[j].reloc, Relocs(i) + 4),
                          Strip(data).value, Get32(read.value[j].reloc, Relocs(i) + 4))
  {
    SectionsSurvive(data);
    SymbolsSurvive(data);
    var s, index := Kept(SectionTable(data).value, 0)[j], SymbolsOf(data).0.index;
    assert SameSection(SectionTable(Strip(data).value).value[j], s, index);
    assert RelocatedRecord(SectionTable(Strip(data).value).value[j].reloc, s.reloc, index, i);
  }

  /** Stripping a second time changes nothing. */
  lemma StripTwice(data: seq<byte>)
    requires Strip(data).Ok?
    requires OptionalSize(data) == 0 || !HasDebug(SectionTable(data).value)
    ensures Strip(Strip(data).value) == Strip(data)
  {
    var sections := SectionTable(data).value;
    if HasDebug(sections) {
      SectionsSurvive(data);
      var kept, read := Kept(sections, 0), SectionTable(Strip(data).value).value;
      NoneDebugKept(sections, 0);
      forall j | 0 <= j < |read|
        ensures !read[j].Debug()
      {
        assert SameSection(read[j], kept[j], SymbolsOf(data).0.index);
      }
    }
  }

  lemma TableTruncatedExactly(data: seq<byte>)
    requires HasHeader(data)
    ensures SectionTable(data) == Err(TruncatedSectionTable)
       <==> 20 + OptionalSize(data) + Headers(SectionCount(data)) > |data|
  {
  }

  lemma WrittenHeader(data: seq<byte>)
    requires SectionTable(data).Ok? && HasDebug(SectionTable(data).value) && Strip(data).Ok?
    ensures var out := Strip(data).value;
      && HasHeader(out) && SectionCount(out) == |Kept(SectionTable(data).value, 0)|
      && OptionalSize(out) == OptionalSize(data)
  {
    var (symbols, strings) := SymbolsOf(data);
    var kept := Kept(SectionTable(data).value, 0);
    var start := Skeleton(data, |kept|);
    var body := PlaceSections(start, kept, symbols.index, 0).value;
    PlaceSectionsLay(start, kept, symbols.index, 0);
    SkeletonHeader(data, |kept|, body);
    PlaceSymbolsKeepsSections(body, symbols, strings, kept, symbols.index);
  }

  // ----- How long the written object is -----

  function PaddedLength(n: nat): (r: nat)
    ensures n <= r < n + 4 && r % 4 == 0
  {
    n + (4 - n % 4) % 4
  }

  /** The length once a chunk of this size was appended; an empty one is not aligned. */
  function LengthWith(n: nat, chunk: nat): nat {
    if chunk == 0 then n else PaddedLength(n) + chunk
  }

  /** The length once the chunks of the sections from the k-th on were appended. */
  function SectionsLength(n: nat, kept: Sections, k: nat): nat
    requires k <= |kept|
    decreases |kept| - k
  {
    if k == |kept| then n
    else
      SectionsLength(LengthWith(LengthWith(LengthWith(n, |kept[k].raw|), |kept[k].reloc|), |kept[k].line|), kept, k + 1)
  }

  /** How long the stripped object will be, from the sections and the symbols that stay and the strings. */
  function WrittenLength(kept: Sections, symbols: SymbolTable, strings: seq<byte>): nat {
    var n := SectionsLength(RowStart(|kept|), kept, 0);
    if symbols.records == [] then n else PaddedLength(n) + |symbols.records| + |strings|
  }

  lemma PlaceLength(out: seq<byte>, chunk: seq<byte>)
    requires Place(out, chunk).Ok?
    ensures |Place(out, chunk).value.out| == LengthWith(|out|, |chunk|)
  {
  }

  lemma PlaceSectionLength(out: seq<byte>, s: Section, index: map<nat, nat>, k: nat)
    requires s.Valid() && Shrinking(index) && RowStart(k + 1) <= |out| && PlaceSection(out, s, index, k).Ok?
    ensures |PlaceSection(out, s, index, k).value|
         == LengthWith(LengthWith(LengthWith(|out|, |s.raw|), |s.reloc|), |s.line|)
  {
    var patched := Relocated(s, index).value;
    PlaceLength(out, s.raw);
    var raw := Place(out, s.raw).value;
    PlaceLength(raw.out, patched);
    var reloc := Place(raw.out, patched).value;
    PlaceLength(reloc.out, s.line);
  }

  lemma {:induction false} PlaceSectionsLength(out: seq<byte>, kept: Sections, index: map<nat, nat>, k: nat)
    requires k <= |kept| && Shrinking(index) && RowStart(|kept|) <= |out| && PlaceSections(out, kept, index, k).Ok?
    ensures |PlaceSections(out, kept, index, k).value| == SectionsLength(|out|, kept, k)
    decreases |kept| - k
  {
    if k < |kept| {
      PlaceSectionLength(out, kept[k], index, k);
      PlaceSectionsLength(PlaceSection(out, kept[k], index, k).value, kept, index, k + 1);
    }
  }

  lemma PlaceSymbolsLength(out: seq<byte>, symbols: SymbolTable, strings: seq<byte>)
    requires HasHeader(out) && PlaceSymbols(out, symbols, strings).Ok?
    ensures |PlaceSymbols(out, symbols, strings).value|
         == if symbols.records == [] then |out| else PaddedLength(|out|) + |symbols.records| + |strings|
  {
  }

  /** The stripped object is as long as can be told before it is written. */
  lemma WrittenLengthIs(data: seq<byte>)
    requires SectionTable(data).Ok? && HasDebug(SectionTable(data).value) && Strip(data).Ok?
    ensures var (symbols, strings) := SymbolsOf(data);
      |Strip(data).value| == WrittenLength(Kept(SectionTable(data).value, 0), symbols, strings)
  {
    var (symbols, strings) := SymbolsOf(data);
    var kept := Kept(SectionTable(data).value, 0);
    var start := Skeleton(data, |kept|);
    PlaceSectionsLength(start, kept, symbols.index, 0);
    PlaceSymbolsLength(PlaceSections(start, kept, symbols.index, 0).value, symbols, strings);
  }

  /**
   The written object still announces the optional header that it lacks, so a reader looks for the section table that
   much too far on. It finds no whole table there exactly if what stays of the object fills no more than the place of
   the misplaced table.
   */
  lemma OptionalHeaderShifts(data: seq<byte>)
    requires SectionTable(data).Ok? && HasDebug(SectionTable(data).value) && Strip(data).Ok?
    ensures var kept, (symbols, strings) := Kept(SectionTable(data).value, 0), SymbolsOf(data);
      SectionTable(Strip(data).value) == Err(TruncatedSectionTable)
      <==> WrittenLength(kept, symbols, strings) < 20 + OptionalSize(data) + Headers(|kept|)
  {
    WrittenHeader(data);
    WrittenLengthIs(data);
    TableTruncatedExactly(Strip(data).value);
  }

  /** When neither a section nor a symbol is left, what is written can be read exactly if there was no optional header. */
  lemma BareObjectReadable(data: seq<byte>)
    requires SectionTable(data).Ok? && HasDebug(SectionTable(data).value) && Strip(data).Ok?
    requires Kept(SectionTable(data).value, 0) == [] && SymbolCount(data) == 0
    ensures SectionTable(Strip(data).value).Ok? <==> OptionalSize(data) == 0
  {
    OptionalHeaderShifts(data);
    if OptionalSize(data) == 0 {
      SectionsSurvive(data);
    }
  }

  /**
   With an optional header the written object is not read back: the section table is written straight after the
   twenty bytes of the file header, which still announces the optional header.
   */
  lemma OptionalHeaderLost()
    ensures exists data :: Strip(data).Ok? && Strip(Strip(data).value) == Err(TruncatedSectionTable)
  {
    var name: seq<byte> := [0x2e, 0x64, 0x65, 0x62, 0x75, 0x67];
    var section := name + Zeros(34);
    NameOf(section[..8], name);
    LostParts(section);
    OnlyDebug(LostObject(section), Section(section, [], [], []));
  }

  /** A file header that announces one section and four bytes of optional header, those bytes, and the section's row. */
  function LostObject(row: seq<byte>): seq<byte> {
    [0, 0, 1] + Zeros(13) + [4] + Zeros(7) + row
  }

  lemma LostParts(row: seq<byte>)
    requires |row| == 40
    ensures var data := LostObject(row);
      && |data| == 64 && SectionCount(data) == 1 && OptionalSize(data) == 4
      && SymbolPointer(data) == 0 && SymbolCount(data) == 0 && data[24..64] == row
  {
    var data := LostObject(row);
    assert data[2] == 1 && data[16] == 4;
    assert forall k | 3 <= k < 16 || 17 <= k < 24 :: data[k] == 0;
  }

  lemma {:induction false} NameOf(field: seq<byte>, name: seq<byte>)
    requires name < field && field[|name|] == 0 && forall p | 0 <= p < |name| :: name[p] != 0
    ensures UpToZero(field) == name
  {
    if name != [] {
      NameOf(field[1..], name[1..]);
    }
  }

  lemma OneSection(data: seq<byte>, s: Section)
    requires |data| == 64 && SectionCount(data) == 1 && OptionalSize(data) == 4
    requires s.Valid() && s.raw == s.reloc == s.line == [] && data[24..64] == s.header
    ensures SectionTable(data) == Ok([s])
  {
    assert ReadSection(data, 24, 0) == Ok(s);
    assert ReadSections(data, 24, 1, 1) == Ok([]);
    assert [s] + [] == [s];
  }

  lemma OnlyDebug(data: seq<byte>, s: Section)
    requires |data| == 64 && SectionCount(data) == 1 && OptionalSize(data) == 4
    requires SymbolPointer(data) == 0 && SymbolCount(data) == 0
    requires s.Valid() && s.raw == s.reloc == s.line == [] && s.Debug() && data[24..64] == s.header
    ensures Strip(data).Ok? && Strip(Strip(data).value) == Err(TruncatedSectionTable)
  {
    OneSection(data, s);
    assert [s][0].Debug();
    assert Kept([s], 0) == [];
    var body := Skeleton(data, 0);
    assert |body| == 20;
    assert body[16] == data[16] && body[17] == data[17];
  }
}
