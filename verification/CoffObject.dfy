/**
 COFF objects with their CodeView sections removed (scripts/strip_coff_debug.py):
 the sections and symbols of an object, and the object that is written back.
 */
module CoffObject {
  import opened Bytes
  import opened Results

  // Sizes of n records: section headers, symbols, relocations and line numbers.

  function Headers(n: nat): nat { 40 * n }

  function Symbols(n: nat): nat { 18 * n }

  function Relocs(n: nat): nat { 10 * n }

  function Lines(n: nat): nat { 6 * n }

  /** Where row k of a section table that follows the file header starts. */
  function RowStart(k: nat): nat { 20 + 40 * k }

  datatype Part = RawData | Relocations | LineNumbers

  datatype Error =
    | TruncatedHeader
    | TruncatedSectionTable
    | ChunkOutside(section: nat, part: Part)
    | TruncatedSymbolTable
    | InvalidStringTable
    | TruncatedAuxiliaryRecords
    | PointerWithoutSymbols
    | RemovedSymbol(symbol: nat)
    | FieldOverflow

  type Outcome<+T> = Result<T, Error>

  // ----- Reading the section table -----

  function RelocCount(header: seq<byte>): nat
    requires |header| == 40
  {
    Get16(header, 32)
  }

  datatype Section = Section(header: seq<byte>, raw: seq<byte>, reloc: seq<byte>, line: seq<byte>) {

    predicate Valid() {
      && |header| == 40
      && |raw| == Get32(header, 16)
      && |reloc| == Relocs(RelocCount(header))
      && |line| == Lines(Get16(header, 34))
    }

    function Name(): seq<byte>
      requires Valid()
    {
      UpToZero(header[..8])
    }

    /** The section is called .debug-something. */
    predicate Debug()
      requires Valid()
    {
      |Name()| >= 6 && Name()[..6] == [0x2e, 0x64, 0x65, 0x62, 0x75, 0x67]
    }
  }

  function UpToZero(s: seq<byte>): seq<byte> {
    if s == [] || s[0] == 0 then [] else [s[0]] + UpToZero(s[1..])
  }

  function CheckedChunk(data: seq<byte>, pointer: nat, size: nat, section: nat, part: Part): (r: Outcome<seq<byte>>)
    ensures r.Ok? ==> |r.value| == size
    ensures r.Err? ==> r.error.ChunkOutside?
  {
    if size == 0 then Ok([])
    else if pointer == 0 || pointer + size > |data| then Err(ChunkOutside(section, part))
    else Ok(data[pointer..pointer + size])
  }

  function ReadSection(data: seq<byte>, table: nat, i: nat): (r: Outcome<Section>)
    requires table + Headers(i + 1) <= |data|
    ensures r.Ok? ==> r.value.Valid()
    ensures r.Ok? ==> r.value.header == data[table + Headers(i)..table + Headers(i + 1)]
    ensures r.Err? ==> r.error.ChunkOutside?
  {
    var header := data[table + Headers(i)..table + Headers(i + 1)];
    var raw :- CheckedChunk(data, Get32(header, 20), Get32(header, 16), i, RawData);
    var reloc :- CheckedChunk(data, Get32(header, 24), Relocs(RelocCount(header)), i, Relocations);
    var line :- CheckedChunk(data, Get32(header, 28), Lines(Get16(header, 34)), i, LineNumbers);
    Ok(Section(header, raw, reloc, line))
  }

  /** The sections from number i on. */
  function ReadSections(data: seq<byte>, table: nat, count: nat, i: nat): (r: Outcome<seq<Section>>)
    requires i <= count && table + Headers(count) <= |data|
    ensures r.Ok? ==> |r.value| == count - i && forall k | 0 <= k < |r.value| :: r.value[k].Valid()
    ensures r.Err? ==> r.error.ChunkOutside?
    decreases count - i
  {
    if i == count then Ok([])
    else
      var section :- ReadSection(data, table, i);
      var rest :- ReadSections(data, table, count, i + 1);
      Ok([section] + rest)
  }

  predicate HasHeader(data: seq<byte>) {
    |data| >= 20
  }

  function SectionCount(data: seq<byte>): nat
    requires HasHeader(data)
  {
    Get16(data, 2)
  }

  function OptionalSize(data: seq<byte>): nat
    requires HasHeader(data)
  {
    Get16(data, 16)
  }

  function SymbolPointer(data: seq<byte>): nat
    requires HasHeader(data)
  {
    Get32(data, 8)
  }

  function SymbolCount(data: seq<byte>): nat
    requires HasHeader(data)
  {
    Get32(data, 12)
  }

  /** The sections of the object, as a reader finds them. */
  function SectionTable(data: seq<byte>): (r: Outcome<seq<Section>>)
    ensures r.Ok? ==> HasHeader(data) && |r.value| == SectionCount(data)
    ensures r.Ok? ==> forall k | 0 <= k < |r.value| :: r.value[k].Valid()
  {
    if !HasHeader(data) then Err(TruncatedHeader)
    else
      var table := 20 + OptionalSize(data);
      if table + Headers(SectionCount(data)) > |data| then Err(TruncatedSectionTable)
      else ReadSections(data, table, SectionCount(data), 0)
  }

  type Sections = s: seq<Section> | forall k | 0 <= k < |s| :: s[k].Valid()

  predicate HasDebug(sections: Sections) {
    exists k | 0 <= k < |sections| :: sections[k].Debug()
  }

  /** How many of the first n sections are removed. */
  function RemovedBefore(sections: Sections, n: nat): (r: nat)
    ensures r <= n
  {
    if n == 0 then 0
    else RemovedBefore(sections, n - 1) + if n <= |sections| && sections[n - 1].Debug() then 1 else 0
  }

  /** The sections that stay, from number i on. */
  function Kept(sections: Sections, i: nat): (r: Sections)
    requires i <= |sections|
    ensures |r| <= |sections| - i
    decreases |sections| - i
  {
    if i == |sections| then []
    else if sections[i].Debug() then Kept(sections, i + 1)
    else [sections[i]] + Kept(sections, i + 1)
  }

  // ----- Symbols -----

  /** Record number i of the symbol table at ptr. */
  function Record(data: seq<byte>, ptr: nat, i: nat): (r: seq<byte>)
    requires ptr + Symbols(i + 1) <= |data|
    ensures |r| == 18
  {
    data[ptr + Symbols(i)..ptr + Symbols(i + 1)]
  }

  /** The section a symbol record names: positive numbers count sections from one. */
  function SectionNumber(record: seq<byte>): int
    requires |record| == 18
  {
    Signed16(Get16(record, 12))
  }

  /** A symbol record and its auxiliary records. */
  function GroupSize(data: seq<byte>, ptr: nat, i: nat): nat
    requires ptr + Symbols(i + 1) <= |data|
  {
    1 + (Record(data, ptr, i)[17] as int)
  }

  predicate NamesRemoved(sections: Sections, record: seq<byte>)
    requires |record| == 18
  {
    0 < SectionNumber(record) <= |sections| && sections[SectionNumber(record) - 1].Debug()
  }

  /** The record with the section number it has in the written object. */
  function Renumbered(sections: Sections, record: seq<byte>): (r: seq<byte>)
    requires |record| == 18
    ensures |r| == 18
  {
    var n := SectionNumber(record);
    if n > 0 then Put16(record, 12, n - RemovedBefore(sections, n - 1)) else record
  }

  datatype SymbolTable = SymbolTable(records: seq<byte>, index: map<nat, nat>)

  function Count(symbols: SymbolTable): nat {
    |symbols.records| / 18
  }

  /** The index map once the n old records from i on have the new indices from first on. */
  function MapGroup(index: map<nat, nat>, i: nat, first: nat, n: nat): (r: map<nat, nat>)
    ensures forall a :: a in r <==> a in index || i <= a < i + n
    ensures forall a <- r :: r[a] == if i <= a < i + n then first + (a - i) else index[a]
  {
    if n == 0 then index else MapGroup(index, i, first, n - 1)[i + n - 1 := first + n - 1]
  }

  /** The table holds whole records, and its index leads from old records before n to its own. */
  predicate Indexed(symbols: SymbolTable, n: nat) {
    && |symbols.records| == Symbols(Count(symbols))
    && Count(symbols) <= n
    && forall a <- symbols.index :: a < n && symbols.index[a] < Count(symbols) && symbols.index[a] <= a
  }

  /** The table with the group of old record i appended. */
  function KeepGroup(data: seq<byte>, ptr: nat, sections: Sections, i: nat, symbols: SymbolTable): (r: SymbolTable)
    requires ptr + Symbols(i + 1) <= |data|
    requires ptr + Symbols(i + GroupSize(data, ptr, i)) <= |data|
    requires Indexed(symbols, i)
    ensures Indexed(r, i + GroupSize(data, ptr, i))
    ensures Count(r) == Count(symbols) + GroupSize(data, ptr, i)
  {
    var group := GroupSize(data, ptr, i);
    SymbolTable(
      symbols.records + Renumbered(sections, Record(data, ptr, i))
        + data[ptr + Symbols(i + 1)..ptr + Symbols(i + group)],
      MapGroup(symbols.index, i, Count(symbols), group))
  }

  /** The symbols that stay, from old record i on, appended to those already kept. */
  function KeepSymbols(data: seq<byte>, ptr: nat, count: nat, sections: Sections, i: nat, symbols: SymbolTable)
    : (r: Outcome<SymbolTable>)
    requires ptr + Symbols(count) <= |data|
    requires i <= count && Indexed(symbols, i)
    ensures r.Ok? ==> Indexed(r.value, count)
    decreases count - i
  {
    if i >= count then Ok(symbols)
    else
      var group := GroupSize(data, ptr, i);
      if i + group > count then Err(TruncatedAuxiliaryRecords)
      else if NamesRemoved(sections, Record(data, ptr, i)) then
        KeepSymbols(data, ptr, count, sections, i + group, symbols)
      else
        KeepSymbols(data, ptr, count, sections, i + group, KeepGroup(data, ptr, sections, i, symbols))
  }

  /** The string table after the symbols, when it is well formed. */
  function Strings(data: seq<byte>, start: nat): (r: Outcome<seq<byte>>)
    requires start <= |data|
    ensures r.Ok? ==> start + |r.value| <= |data| && r.value == data[start..start + |r.value|]
  {
    var size := if start + 4 <= |data| then Get32(data, start) else 0;
    if size < 4 || start + size > |data| then Err(InvalidStringTable) else Ok(data[start..start + size])
  }

  const NO_SYMBOLS := SymbolTable([], map[])

  /** The kept symbols and the string table of the object. */
  function StripSymbols(data: seq<byte>, sections: Sections): (r: Outcome<(SymbolTable, seq<byte>)>)
    requires HasHeader(data)
    ensures r.Ok? ==> Indexed(r.value.0, SymbolCount(data))
  {
    var ptr, count := SymbolPointer(data), SymbolCount(data);
    if count != 0 then
      var end := ptr + Symbols(count);
      if ptr == 0 || end > |data| then Err(TruncatedSymbolTable)
      else
        var strings :- Strings(data, end);
        var symbols :- KeepSymbols(data, ptr, count, sections, 0, NO_SYMBOLS);
        Ok((symbols, strings))
    else if ptr != 0 then Err(PointerWithoutSymbols)
    else Ok((NO_SYMBOLS, []))
  }

  // ----- Writing -----

  predicate Shrinking(index: map<nat, nat>) {
    forall i <- index :: index[i] <= i
  }

  /** The n relocation records with the symbol indices from record k on replaced. */
  function Relocate(reloc: seq<byte>, index: map<nat, nat>, k: nat, n: nat): (r: Outcome<seq<byte>>)
    requires Shrinking(index)
    requires |reloc| == Relocs(n) && k <= n
    ensures r.Ok? ==> |r.value| == |reloc|
    decreases n - k
  {
    if k == n then Ok(reloc)
    else
      var symbol := Get32(reloc, Relocs(k) + 4);
      if symbol !in index then Err(RemovedSymbol(symbol))
      else Relocate(Put32(reloc, Relocs(k) + 4, index[symbol]), index, k + 1, n)
  }

  /** The relocations of a section as they are written. */
  function Relocated(s: Section, index: map<nat, nat>): (r: Outcome<seq<byte>>)
    requires s.Valid() && Shrinking(index)
    ensures r.Ok? ==> |r.value| == |s.reloc|
  {
    Relocate(s.reloc, index, 0, RelocCount(s.header))
  }

  /** Zero bytes up to the next multiple of four. */
  function Aligned(out: seq<byte>): (r: seq<byte>)
    ensures out <= r && |r| % 4 == 0 && |r| < |out| + 4
  {
    out + Zeros((4 - |out| % 4) % 4)
  }

  /** An output, and the place in it where a chunk was put. */
  datatype Placed = Placed(out: seq<byte>, at: nat)

  /** The output with the chunk put at its aligned end. An empty chunk takes no place and has pointer zero. */
  function Place(out: seq<byte>, chunk: seq<byte>): (r: Outcome<Placed>)
    ensures r.Ok? ==> out <= r.value.out && r.value.at < LIMIT_32
  {
    if chunk == [] then Ok(Placed(out, 0))
    else if |Aligned(out)| >= LIMIT_32 then Err(FieldOverflow)
    else Ok(Placed(Aligned(out) + chunk, |Aligned(out)|))
  }

  function WithPointers(header: seq<byte>, raw: nat, reloc: nat, line: nat): (r: seq<byte>)
    requires |header| == 40 && raw < LIMIT_32 && reloc < LIMIT_32 && line < LIMIT_32
    ensures |r| == 40
  {
    Put32(Put32(Put32(header, 20, raw), 24, reloc), 28, line)
  }

  /** The output with the k-th kept section written to it. */
  function PlaceSection(out: seq<byte>, s: Section, index: map<nat, nat>, k: nat): (r: Outcome<seq<byte>>)
    requires s.Valid() && Shrinking(index)
    requires RowStart(k + 1) <= |out|
    ensures r.Ok? ==> |out| <= |r.value|
  {
    var raw :- Place(out, s.raw);
    var patched :- Relocated(s, index);
    var reloc :- Place(raw.out, patched);
    var line :- Place(reloc.out, s.line);
    Ok(Overwrite(line.out, RowStart(k), WithPointers(s.header, raw.at, reloc.at, line.at)))
  }

  /** The output with the kept sections from the k-th on written to it. */
  function PlaceSections(out: seq<byte>, kept: Sections, index: map<nat, nat>, k: nat): (r: Outcome<seq<byte>>)
    requires k <= |kept| && Shrinking(index)
    requires RowStart(|kept|) <= |out|
    ensures r.Ok? ==> |out| <= |r.value|
    decreases |kept| - k
  {
    if k == |kept| then Ok(out)
    else
      var next :- PlaceSection(out, kept[k], index, k);
      PlaceSections(next, kept, index, k + 1)
  }

  /** The output once the symbols and the strings follow the sections. */
  function PlaceSymbols(out: seq<byte>, symbols: SymbolTable, strings: seq<byte>): (r: Outcome<seq<byte>>)
    requires HasHeader(out)
  {
    if symbols.records == [] then Ok(Put32(Put32(out, 8, 0), 12, 0))
    else
      var ptr := |Aligned(out)|;
      if ptr >= LIMIT_32 || Count(symbols) >= LIMIT_32 then Err(FieldOverflow)
      else Ok(Put32(Put32(Aligned(out) + symbols.records + strings, 8, ptr), 12, Count(symbols)))
  }

  /** The header of the output and room for its section table. */
  function Skeleton(data: seq<byte>, kept: nat): (r: seq<byte>)
    requires HasHeader(data) && kept < LIMIT_16
    ensures |r| == RowStart(kept)
  {
    Put16(data[..20], 2, kept) + Zeros(Headers(kept))
  }
}
