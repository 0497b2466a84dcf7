/** Which COFF objects can be stripped and which are refused (scripts/strip_coff_debug.py). */
module CoffErrors {
  import opened Bytes
  import opened Results
  import opened CoffObject
  import opened CoffStrip

  // ----- Symbols -----

  /** From record i on, the auxiliary records that each symbol announces are there. */
  predicate GroupsWhole(data: seq<byte>, ptr: nat, count: nat, i: nat)
    requires ptr + 18 * count <= |data|
    decreases count - i
  {
    i < count ==>
      var next := i + 1 + data[ptr + 18 * i + 17] as int;
      next <= count && GroupsWhole(data, ptr, count, next)
  }

  /** The table of strings starts with its own size, and lies inside the object. */
  predicate StringsReadable(data: seq<byte>, start: nat) {
    start + 4 <= |data| && Get32(data, start) >= 4 && start + Get32(data, start) <= |data|
  }

  /** There are no symbols and no pointer to any, or whole ones with their strings behind them. */
  predicate SymbolsReadable(data: seq<byte>)
    requires |data| >= 20
  {
    var ptr, count := Get32(data, 8), Get32(data, 12);
    if count == 0 then ptr == 0
    else
      && ptr != 0 && ptr + 18 * count <= |data|
      && StringsReadable(data, ptr + 18 * count) && GroupsWhole(data, ptr, count, 0)
  }

  lemma {:induction false} KeepSymbolsExactly(
    data: seq<byte>, ptr: nat, count: nat, sections: Sections, i: nat, symbols: SymbolTable)
    requires ptr + Symbols(count) <= |data| && i <= count && Indexed(symbols, i)
    ensures KeepSymbols(data, ptr, count, sections, i, symbols).Ok? <==> GroupsWhole(data, ptr, count, i)
    decreases count - i
  {
    if i < count {
      var next := i + GroupSize(data, ptr, i);
      assert GroupSize(data, ptr, i) == 1 + data[ptr + 18 * i + 17] as int;
      if next <= count {
        var after := if NamesRemoved(sections, Record(data, ptr, i)) then symbols
            else KeepGroup(data, ptr, sections, i, symbols);
        KeepSymbolsExactly(data, ptr, count, sections, next, after);
      }
    }
  }

  lemma {:induction false} SymbolsExactly(data: seq<byte>, sections: Sections)
    requires |data| >= 20
    ensures StripSymbols(data, sections).Ok? <==> SymbolsReadable(data)
  {
    var ptr, count := SymbolPointer(data), SymbolCount(data);
    if count != 0 && ptr + Symbols(count) <= |data| {
      KeepSymbolsExactly(data, ptr, count, sections, 0, NO_SYMBOLS);
    }
  }

  // ----- Relocations -----

  /** The relocations from number k on name symbols that stay. */
  predicate Lead(reloc: seq<byte>, index: map<nat, nat>, k: nat, n: nat)
    requires |reloc| == 10 * n
  {
    forall i | k <= i < n :: Get32(reloc, 10 * i + 4) in index
  }

  lemma {:induction false} LeadNext(reloc: seq<byte>, index: map<nat, nat>, k: nat, n: nat, v: nat)
    requires |reloc| == 10 * n && k < n && v < LIMIT_32
    ensures Lead(reloc, index, k, n)
       <==> Get32(reloc, 10 * k + 4) in index && Lead(Put32(reloc, 10 * k + 4, v), index, k + 1, n)
  {
    var next := Put32(reloc, 10 * k + 4, v);
    forall i | k + 1 <= i < n
      ensures Get32(next, 10 * i + 4) == Get32(reloc, 10 * i + 4)
    {
      SameNumber32(next, reloc, 10 * i + 4);
    }
  }

  lemma {:induction false} RelocateExactly(reloc: seq<byte>, index: map<nat, nat>, k: nat, n: nat)
    requires Shrinking(index) && |reloc| == Relocs(n) && k <= n
    ensures Relocate(reloc, index, k, n).Ok? <==> Lead(reloc, index, k, n)
    decreases n - k
  {
    if k < n {
      var symbol := Get32(reloc, Relocs(k) + 4);
      if symbol in index {
        RelocateExactly(Put32(reloc, Relocs(k) + 4, index[symbol]), index, k + 1, n);
        LeadNext(reloc, index, k, n, index[symbol]);
      }
    }
  }

  // ----- Places -----

  /** A chunk of this size fits behind so many bytes: its place can be written in 32 bits. */
  predicate Fits(n: nat, size: nat) {
    size > 0 ==> PaddedLength(n) < 0x1_0000_0000
  }

  /** The chunks of the sections from number k on fit, and their relocations lead to symbols that stay. */
  predicate SectionsFit(n: nat, kept: Sections, index: map<nat, nat>, k: nat)
    requires k <= |kept|
    decreases |kept| - k
  {
    k < |kept| ==>
      var s := kept[k];
      var withRaw := LengthWith(n, |s.raw|);
      var withReloc := LengthWith(withRaw, |s.reloc|);
      && Fits(n, |s.raw|) && Fits(withRaw, |s.reloc|) && Fits(withReloc, |s.line|)
      && Lead(s.reloc, index, 0, RelocCount(s.header))
      && SectionsFit(LengthWith(withReloc, |s.line|), kept, index, k + 1)
  }

  lemma {:induction false} PlaceExactly(out: seq<byte>, chunk: seq<byte>)
    ensures Place(out, chunk).Ok? <==> Fits(|out|, |chunk|)
    ensures Place(out, chunk).Ok? ==> |Place(out, chunk).value.out| == LengthWith(|out|, |chunk|)
  {
  }

  lemma {:induction false} PlaceSectionExactly(out: seq<byte>, s: Section, index: map<nat, nat>, k: nat)
    requires s.Valid() && Shrinking(index) && RowStart(k + 1) <= |out|
    ensures var withRaw := LengthWith(|out|, |s.raw|); var withReloc := LengthWith(withRaw, |s.reloc|);
      PlaceSection(out, s, index, k).Ok?
      <==> Fits(|out|, |s.raw|) && Fits(withRaw, |s.reloc|) && Fits(withReloc, |s.line|)
           && Lead(s.reloc, index, 0, RelocCount(s.header))
  {
    PlaceExactly(out, s.raw);
    RelocateExactly(s.reloc, index, 0, RelocCount(s.header));
    if Place(out, s.raw).Ok? && Relocated(s, index).Ok? {
      var raw, patched := Place(out, s.raw).value, Relocated(s, index).value;
      PlaceExactly(raw.out, patched);
      if Place(raw.out, patched).Ok? {
        PlaceExactly(Place(raw.out, patched).value.out, s.line);
      }
    }
  }

  lemma {:induction false} PlaceSectionsExactly(out: seq<byte>, kept: Sections, index: map<nat, nat>, k: nat)
    requires k <= |kept| && Shrinking(index) && RowStart(|kept|) <= |out|
    ensures PlaceSections(out, kept, index, k).Ok? <==> SectionsFit(|out|, kept, index, k)
    decreases |kept| - k
  {
    if k < |kept| {
      PlaceSectionExactly(out, kept[k], index, k);
      if PlaceSection(out, kept[k], index, k).Ok? {
        PlaceSectionLength(out, kept[k], index, k);
        PlaceSectionsExactly(PlaceSection(out, kept[k], index, k).value, kept, index, k + 1);
      }
    }
  }

  // ----- The whole object -----

  /** The chunks, the relocations and the symbols of an object find their places. */
  predicate Placeable(kept: Sections, symbols: SymbolTable) {
    && SectionsFit(20 + 40 * |kept|, kept, symbols.index, 0)
    && Fits(SectionsLength(20 + 40 * |kept|, kept, 0), |symbols.records|)
  }

  lemma {:induction false} SymbolsPlaced(out: seq<byte>, symbols: SymbolTable, strings: seq<byte>, n: nat)
    requires HasHeader(out) && Indexed(symbols, n) && n < LIMIT_32
    ensures PlaceSymbols(out, symbols, strings).Ok? <==> Fits(|out|, |symbols.records|)
  {
  }

  lemma {:induction false} BodyPlaced(start: seq<byte>, kept: Sections, index: map<nat, nat>, k: nat)
    requires k <= |kept| && Shrinking(index) && RowStart(|kept|) <= |start|
    ensures var body := PlaceSections(start, kept, index, k);
      && (body.Ok? <==> SectionsFit(|start|, kept, index, k))
      && (body.Ok? ==> |body.value| == SectionsLength(|start|, kept, k) && |start| <= |body.value|)
  {
    PlaceSectionsExactly(start, kept, index, k);
    if PlaceSections(start, kept, index, k).Ok? {
      PlaceSectionsLength(start, kept, index, k);
    }
  }

  /** Everything was written. */
  ghost predicate Written(body: Outcome<seq<byte>>, symbols: SymbolTable, strings: seq<byte>)
  {
    body.Ok? && HasHeader(body.value) && PlaceSymbols(body.value, symbols, strings).Ok?
  }

  lemma {:induction false} BothPlaced(
    body: Outcome<seq<byte>>, fit: bool, length: nat, symbols: SymbolTable, strings: seq<byte>, n: nat)
    requires Indexed(symbols, n) && n < LIMIT_32
    ensures (body.Ok? <==> fit) && (body.Ok? ==> |body.value| == length >= 20) ==>
      (fit && Fits(length, |symbols.records|) <==> Written(body, symbols, strings))
  {
    if body.Ok? && HasHeader(body.value) {
      SymbolsPlaced(body.value, symbols, strings, n);
    }
  }

  lemma {:induction false} PlacedExactly(
    start: seq<byte>, kept: Sections, symbols: SymbolTable, strings: seq<byte>, n: nat)
    requires |start| == 20 + 40 * |kept| && Indexed(symbols, n) && n < LIMIT_32 && Shrinking(symbols.index)
    ensures Placeable(kept, symbols) <==> Written(PlaceSections(start, kept, symbols.index, 0), symbols, strings)
  {
    var body, index, length := PlaceSections(start, kept, symbols.index, 0), symbols.index, |start|;
    BodyPlaced(start, kept, index, 0);
    BothPlaced(body, SectionsFit(length, kept, index, 0), SectionsLength(length, kept, 0), symbols, strings, n);
  }

  /**
   An object with debug sections is stripped exactly if its symbols and strings can be read, each relocation of a
   section that stays names a symbol that stays, and everything has its place below four gigabytes; an object without
   debug sections comes back as it is.
   */
  lemma {:induction false} StripsExactly(data: seq<byte>)
    requires SectionTable(data).Ok?
    ensures var sections := SectionTable(data).value;
      if HasDebug(sections) then
        Strip(data).Ok? <==> SymbolsReadable(data) && StripSymbols(data, sections).Ok?
                             && Placeable(Kept(sections, 0), StripSymbols(data, sections).value.0)
      else Strip(data) == Ok(data)
  {
    var sections := SectionTable(data).value;
    SymbolsExactly(data, sections);
    if HasDebug(sections) && StripSymbols(data, sections).Ok? {
      var (symbols, strings) := StripSymbols(data, sections).value;
      var kept := Kept(sections, 0);
      PlacedExactly(Skeleton(data, |kept|), kept, symbols, strings, SymbolCount(data));
    }
  }
}
