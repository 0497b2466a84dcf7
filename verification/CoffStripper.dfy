/** The stripping of an object step by step, as scripts/strip_coff_debug.py does it. */
module CoffStripper {
  import opened Bytes
  import opened Results
  import opened CoffObject
  import opened CoffStrip

  ghost function Prepend<T>(done: seq<T>, rest: Outcome<seq<T>>): Outcome<seq<T>> {
    match rest
    case Ok(v) => Ok(done + v)
    case Err(e) => Err(e)
  }

  lemma PrependStep(data: seq<byte>, table: nat, count: nat, i: nat, done: seq<Section>)
    requires i < count && table + Headers(count) <= |data| && ReadSection(data, table, i).Ok?
    ensures Prepend(done, ReadSections(data, table, count, i))
         == Prepend(done + [ReadSection(data, table, i).value], ReadSections(data, table, count, i + 1))
  {
    var rest := ReadSections(data, table, count, i + 1);
    if rest.Ok? {
      var section := ReadSection(data, table, i).value;
      assert done + ([section] + rest.value) == done + [section] + rest.value;
    }
  }

  method ReadOneSection(data: seq<byte>, table: nat, i: nat) returns (r: Outcome<Section>)
    requires table + Headers(i + 1) <= |data|
    ensures r == ReadSection(data, table, i)
  {
    var header := data[table + Headers(i)..table + Headers(i + 1)];
    var raw := CheckedChunk(data, Get32(header, 20), Get32(header, 16), i, RawData);
    if raw.Err? {
      return Err(raw.error);
    }
    var reloc := CheckedChunk(data, Get32(header, 24), Relocs(RelocCount(header)), i, Relocations);
    if reloc.Err? {
      return Err(reloc.error);
    }
    var line := CheckedChunk(data, Get32(header, 28), Lines(Get16(header, 34)), i, LineNumbers);
    if line.Err? {
      return Err(line.error);
    }
    return Ok(Section(header, raw.value, reloc.value, line.value));
  }

  lemma PrependError(data: seq<byte>, table: nat, count: nat, i: nat, done: seq<Section>)
    requires i < count && table + Headers(count) <= |data| && ReadSection(data, table, i).Err?
    ensures Prepend(done, ReadSections(data, table, count, i)) == Err(ReadSection(data, table, i).error)
  {
  }

  lemma PrependNothing(all: Outcome<seq<Section>>)
    ensures Prepend([], all) == all
  {
    assert all.Ok? ==> [] + all.value == all.value;
  }

  method ReadTable(data: seq<byte>, table: nat, count: nat) returns (r: Outcome<seq<Section>>)
    requires table + Headers(count) <= |data|
    ensures r == ReadSections(data, table, count, 0)
  {
    var sections: seq<Section> := [];
    ghost var all := ReadSections(data, table, count, 0);
    PrependNothing(all);
    for i := 0 to count
      invariant all == Prepend(sections, ReadSections(data, table, count, i))
    {
      var section := ReadOneSection(data, table, i);
      if section.Err? {
        PrependError(data, table, count, i, sections);
        return Err(section.error);
      }
      PrependStep(data, table, count, i, sections);
      sections := sections + [section.value];
    }
    assert sections + [] == sections;
    return Ok(sections);
  }

  lemma TableRead(data: seq<byte>)
    requires HasHeader(data) && 20 + OptionalSize(data) + Headers(SectionCount(data)) <= |data|
    ensures SectionTable(data) == ReadSections(data, 20 + OptionalSize(data), SectionCount(data), 0)
  {
  }

  method ReadAllSections(data: seq<byte>) returns (r: Outcome<seq<Section>>)
    ensures r == SectionTable(data)
  {
    if |data| < 20 {
      return Err(TruncatedHeader);
    }
    var count := SectionCount(data);
    var table := 20 + OptionalSize(data);
    if table + Headers(count) > |data| {
      return Err(TruncatedSectionTable);
    }
    TableRead(data);
    r := ReadTable(data, table, count);
  }

  method RemovedSections(sections: Sections) returns (removed: set<nat>)
    ensures forall k: nat :: k in removed <==> k < |sections| && sections[k].Debug()
    ensures removed == {} <==> !HasDebug(sections)
  {
    removed := set k: nat | k < |sections| && sections[k].Debug();
    if removed != {} {
      var k :| k in removed;
      assert sections[k].Debug();
    } else {
      assert forall k: nat :: k !in removed;
    }
  }

  /** Enters the group's n records under their new numbers. */
  method EnterGroup(index: map<nat, nat>, i: nat, newIndex: nat, group: nat) returns (r: map<nat, nat>)
    ensures r == MapGroup(index, i, newIndex, group)
  {
    r := index;
    for member := 0 to group
      invariant r == MapGroup(index, i, newIndex, member)
    {
      r := r[i + member := newIndex + member];
    }
  }

  lemma RemoveStep(data: seq<byte>, ptr: nat, count: nat, sections: Sections, i: nat, symbols: SymbolTable)
    requires ptr + Symbols(count) <= |data| && i < count && Indexed(symbols, i)
    requires i + GroupSize(data, ptr, i) <= count && NamesRemoved(sections, Record(data, ptr, i))
    ensures KeepSymbols(data, ptr, count, sections, i, symbols)
         == KeepSymbols(data, ptr, count, sections, i + GroupSize(data, ptr, i), symbols)
  {
  }

  lemma KeepStep(data: seq<byte>, ptr: nat, count: nat, sections: Sections, i: nat, symbols: SymbolTable)
    requires ptr + Symbols(count) <= |data| && i < count && Indexed(symbols, i)
    requires i + GroupSize(data, ptr, i) <= count && !NamesRemoved(sections, Record(data, ptr, i))
    ensures KeepSymbols(data, ptr, count, sections, i, symbols)
         == KeepSymbols(data, ptr, count, sections, i + GroupSize(data, ptr, i),
                        KeepGroup(data, ptr, sections, i, symbols))
  {
  }

  method KeepOneGroup(data: seq<byte>, ptr: nat, sections: Sections, i: nat,
                      newSymbols: seq<byte>, symbolIndexMap: map<nat, nat>)
    returns (newSymbols': seq<byte>, symbolIndexMap': map<nat, nat>)
    requires ptr + Symbols(i + 1) <= |data| && ptr + Symbols(i + GroupSize(data, ptr, i)) <= |data|
    requires Indexed(SymbolTable(newSymbols, symbolIndexMap), i)
    requires !NamesRemoved(sections, Record(data, ptr, i))
    ensures SymbolTable(newSymbols', symbolIndexMap')
         == KeepGroup(data, ptr, sections, i, SymbolTable(newSymbols, symbolIndexMap))
  {
    var record := Record(data, ptr, i);
    var group: nat := 1 + (record[17] as int);
    var sectionNumber := Signed16(Get16(record, 12));
    if sectionNumber > 0 {
      record := Put16(record, 12, sectionNumber - RemovedBefore(sections, sectionNumber - 1));
    }
    symbolIndexMap' := EnterGroup(symbolIndexMap, i, |newSymbols| / 18, group);
    newSymbols' := newSymbols + record + data[ptr + Symbols(i + 1)..ptr + Symbols(i + group)];
  }

  method KeepAllSymbols(data: seq<byte>, ptr: nat, count: nat, sections: Sections, removed: set<nat>)
    returns (r: Outcome<SymbolTable>)
    requires ptr + Symbols(count) <= |data|
    requires forall k: nat :: k in removed <==> k < |sections| && sections[k].Debug()
    ensures r == KeepSymbols(data, ptr, count, sections, 0, NO_SYMBOLS)
  {
    var newSymbols: seq<byte> := [];
    var symbolIndexMap: map<nat, nat> := map[];
    var i := 0;
    while i < count
      invariant i <= count && Indexed(SymbolTable(newSymbols, symbolIndexMap), i)
      invariant KeepSymbols(data, ptr, count, sections, 0, NO_SYMBOLS)
             == KeepSymbols(data, ptr, count, sections, i, SymbolTable(newSymbols, symbolIndexMap))
    {
      var record := Record(data, ptr, i);
      var group := GroupSize(data, ptr, i);
      if i + group > count {
        return Err(TruncatedAuxiliaryRecords);
      }
      ghost var before := SymbolTable(newSymbols, symbolIndexMap);
      var sectionNumber := SectionNumber(record);
      if sectionNumber > 0 && sectionNumber - 1 in removed {
        RemoveStep(data, ptr, count, sections, i, before);
        i := i + group;
        continue;
      }
      KeepStep(data, ptr, count, sections, i, before);
      newSymbols, symbolIndexMap := KeepOneGroup(data, ptr, sections, i, newSymbols, symbolIndexMap);
      i := i + group;
    }
    return Ok(SymbolTable(newSymbols, symbolIndexMap));
  }

  method StripSymbolTable(data: seq<byte>, sections: Sections, removed: set<nat>)
    returns (r: Outcome<(SymbolTable, seq<byte>)>)
    requires HasHeader(data)
    requires forall k: nat :: k in removed <==> k < |sections| && sections[k].Debug()
    ensures r == StripSymbols(data, sections)
  {
    var ptr, count := Get32(data, 8), Get32(data, 12);
    if count == 0 {
      if ptr != 0 {
        return Err(PointerWithoutSymbols);
      }
      return Ok((NO_SYMBOLS, []));
    }
    var end := ptr + Symbols(count);
    if ptr == 0 || end > |data| {
      return Err(TruncatedSymbolTable);
    }
    var size := if end + 4 <= |data| then Get32(data, end) else 0;
    if size < 4 || end + size > |data| {
      return Err(InvalidStringTable);
    }
    var kept := KeepAllSymbols(data, ptr, count, sections, removed);
    if kept.Err? {
      return Err(kept.error);
    }
    return Ok((kept.value, data[end..end + size]));
  }

  method KeptSections(sections: Sections) returns (kept: Sections)
    ensures kept == Kept(sections, 0)
  {
    kept := [];
    for i := 0 to |sections|
      invariant Kept(sections, 0) == kept + Kept(sections, i)
    {
      if !sections[i].Debug() {
        kept := kept + [sections[i]];
      }
    }
  }

  method Align(output: seq<byte>) returns (r: seq<byte>)
    ensures r == Aligned(output)
  {
    r := output;
    while |r| % 4 != 0
      invariant |output| <= |r| <= |Aligned(output)| && r == Aligned(output)[..|r|]
      decreases |Aligned(output)| - |r|
    {
      r := r + [0];
    }
  }

  method AppendChunk(output: seq<byte>, chunk: seq<byte>) returns (r: seq<byte>, pointer: nat)
    ensures r == Aligned(output) + chunk && pointer == |Aligned(output)|
  {
    r := Align(output);
    pointer := |r|;
    r := r + chunk;
  }

  method ReplaceSymbols(s: Section, symbolIndexMap: map<nat, nat>) returns (r: Outcome<seq<byte>>)
    requires s.Valid() && Shrinking(symbolIndexMap)
    ensures r == Relocated(s, symbolIndexMap)
  {
    var reloc := s.reloc;
    var n := RelocCount(s.header);
    for k := 0 to n
      invariant |reloc| == Relocs(n)
      invariant Relocate(s.reloc, symbolIndexMap, 0, n) == Relocate(reloc, symbolIndexMap, k, n)
    {
      var symbol := Get32(reloc, Relocs(k) + 4);
      if symbol !in symbolIndexMap {
        return Err(RemovedSymbol(symbol));
      }
      reloc := Put32(reloc, Relocs(k) + 4, symbolIndexMap[symbol]);
    }
    return Ok(reloc);
  }

  method WriteSection(out: seq<byte>, s: Section, symbolIndexMap: map<nat, nat>, k: nat) returns (r: Outcome<seq<byte>>)
    requires s.Valid() && Shrinking(symbolIndexMap) && RowStart(k + 1) <= |out|
    ensures r == PlaceSection(out, s, symbolIndexMap, k)
  {
    var output := out;
    var raw, reloc, line: nat := 0, 0, 0;
    if s.raw != [] {
      output, raw := AppendChunk(output, s.raw);
      if raw >= LIMIT_32 {
        return Err(FieldOverflow);
      }
    }
    var patched := ReplaceSymbols(s, symbolIndexMap);
    if patched.Err? {
      return Err(patched.error);
    }
    if patched.value != [] {
      output, reloc := AppendChunk(output, patched.value);
      if reloc >= LIMIT_32 {
        return Err(FieldOverflow);
      }
    }
    if s.line != [] {
      output, line := AppendChunk(output, s.line);
      if line >= LIMIT_32 {
        return Err(FieldOverflow);
      }
    }
    return Ok(Overwrite(output, RowStart(k), WithPointers(s.header, raw, reloc, line)));
  }

  method WriteSections(start: seq<byte>, kept: Sections, symbolIndexMap: map<nat, nat>) returns (r: Outcome<seq<byte>>)
    requires Shrinking(symbolIndexMap) && RowStart(|kept|) <= |start|
    ensures r == PlaceSections(start, kept, symbolIndexMap, 0)
  {
    var output := start;
    for k := 0 to |kept|
      invariant RowStart(|kept|) <= |output|
      invariant PlaceSections(start, kept, symbolIndexMap, 0) == PlaceSections(output, kept, symbolIndexMap, k)
    {
      var next := WriteSection(output, kept[k], symbolIndexMap, k);
      if next.Err? {
        return Err(next.error);
      }
      output := next.value;
    }
    return Ok(output);
  }

  method WriteSymbols(body: seq<byte>, symbols: SymbolTable, strings: seq<byte>, ghost n: nat)
    returns (r: Outcome<seq<byte>>)
    requires HasHeader(body) && Indexed(symbols, n) && n < LIMIT_32
    ensures r == PlaceSymbols(body, symbols, strings)
  {
    if symbols.records == [] {
      return Ok(Put32(Put32(body, 8, 0), 12, 0));
    }
    var output := Align(body);
    var newSymbolPointer := |output|;
    output := output + symbols.records + strings;
    if newSymbolPointer >= LIMIT_32 {
      return Err(FieldOverflow);
    }
    return Ok(Put32(Put32(output, 8, newSymbolPointer), 12, |symbols.records| / 18));
  }

  /** The whole transformation, whose meaning SectionsSurvive, SymbolsSurvive and RelocationsResolve state. */
  method StripDebugSections(data: seq<byte>) returns (r: Outcome<seq<byte>>)
    ensures r == Strip(data)
  {
    var table := ReadAllSections(data);
    if table.Err? {
      return Err(table.error);
    }
    var sections := table.value;
    var removed := RemovedSections(sections);
    if removed == {} {
      return Ok(data);
    }
    var symbols := StripSymbolTable(data, sections, removed);
    if symbols.Err? {
      return Err(symbols.error);
    }
    var kept := KeptSections(sections);
    var body := WriteSections(Put16(data[..20], 2, |kept|) + Zeros(Headers(|kept|)), kept, symbols.value.0.index);
    if body.Err? {
      return Err(body.error);
    }
    r := WriteSymbols(body.value, symbols.value.0, symbols.value.1, SymbolCount(data));
  }
}
