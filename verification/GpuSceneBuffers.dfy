/** The buffers of one scene, grown and filled in place (native/kookie_sdl_adapter.c, KookieGpuScene). */
module GpuSceneBuffers {
  import opened Bytes
  import opened GpuScene

  /** A text run as it is drawn: its codepoints are the length cells of that buffer from the start on. */
  datatype TextRun = TextRun(style: Style, codepoints: array?<nat>, start: nat, length: nat)

  class Buffers {
    var uiVertices: array<Vertex>
    var count: nat
    var expected: nat
    var textRuns: array<TextRun>
    var textRunStarts: array<nat>
    var textCount: nat
    var textCodepoints: array<nat>
    var codepointCount: nat
    var textOpenStart: nat
    var textOpen: bool
    var open: bool
    var committed: bool
    var active: bool

    ghost function Repr(): set<object>
      reads this
    {
      {this, uiVertices, textRuns, textRunStarts, textCodepoints}
    }

    /** Each committed run points into the buffer that now is, at its own start, among the cells that are filled. */
    ghost predicate RunsPoint()
      reads this, textRuns, textRunStarts
    {
      && textCount <= textRuns.Length == textRunStarts.Length
      && forall k | 0 <= k < textCount ::
        && textRuns[k].codepoints == textCodepoints && textRuns[k].start == textRunStarts[k]
        && textRuns[k].start + textRuns[k].length <= codepointCount
    }

    ghost predicate Valid()
      reads this, textRuns, textRunStarts
    {
      && count <= uiVertices.Length && codepointCount <= textCodepoints.Length
      && RunsPoint()
      && (textOpen ==> textCount < textRuns.Length && textOpenStart <= codepointCount
                       && textRunStarts[textCount] == textOpenStart)
      && textRunStarts != textCodepoints
    }

    /** What a run denotes: the cells that it points to. */
    ghost function Denoted(k: nat): Text
      requires Valid() && k < textCount
      reads this, textRuns, textRunStarts, textCodepoints
    {
      var r := textRuns[k];
      Text(r.style, textCodepoints[r.start..r.start + r.length])
    }

    ghost function Texts(): (r: seq<Text>)
      requires Valid()
      reads this, textRuns, textRunStarts, textCodepoints
      ensures |r| == textCount && forall k | 0 <= k < textCount :: r[k] == Denoted(k)
    {
      seq(textCount, k requires 0 <= k < textCount && Valid() reads this, textRuns, textRunStarts, textCodepoints => Denoted(k))
    }

    ghost function Value(): Scene
      requires Valid()
      reads this, uiVertices, textRuns, textRunStarts, textCodepoints
    {
      Scene(uiVertices[..count], uiVertices.Length, expected, Texts(), textRuns.Length,
            textOpen, if textOpen then textRuns[textCount].style else NO_STYLE,
            if textOpen then textCodepoints[textOpenStart..codepointCount] else [],
            codepointCount, textCodepoints.Length, open, committed, active)
    }

    constructor ()
      ensures Valid() && fresh(Repr()) && Value() == NO_SCENE
    {
      uiVertices := new Vertex[0];
      textRuns, textRunStarts := new TextRun[0], new nat[0];
      textCodepoints := new nat[0];
      count, expected, textCount, codepointCount, textOpenStart := 0, 0, 0, 0, 0;
      textOpen, open, committed, active := false, false, false, false;
      new;
    }

    // ----- Room -----

    /** A larger buffer with the first n items of the old one. */
    static method Larger<T>(source: array<T>, n: nat, size: nat, filler: T) returns (r: array<T>)
      requires n <= source.Length && n <= size
      ensures fresh(r) && r.Length == size && r[..n] == source[..n]
    {
      r := new T[size](_ => filler);
      for k := 0 to n
        modifies r
        invariant r[..k] == source[..k]
      {
        r[k] := source[k];
      }
    }

    method ReserveData(required: nat, memory: bool) returns (ok: bool)
      requires Valid()
      modifies this`uiVertices
      ensures Valid() && (uiVertices == old(uiVertices) || fresh(uiVertices))
      ensures var room := Reserved(old(uiVertices.Length), required, memory);
        ok == room.Some? && Value() == if ok then old(Value()).(capacity := room.value) else old(Value())
    {
      if uiVertices.Length >= required {
        return true;
      }
      if !memory {
        return false;
      }
      var grown := Larger(uiVertices, count, Grown(required), Vertex(0, 0, 0, 0, 0, 0));
      ghost var texts := Texts();
      uiVertices := grown;
      assert Texts() == texts;
      return true;
    }

    method ReserveTextRuns(required: nat, memory: bool) returns (ok: bool)
      requires Valid() && !textOpen
      modifies this`textRuns, this`textRunStarts
      ensures Valid() && (textRuns == old(textRuns) || fresh(textRuns)) && (textRunStarts == old(textRunStarts) || fresh(textRunStarts))
      ensures var room := Reserved(old(textRuns.Length), required, memory);
        ok == room.Some? && Value() == if ok then old(Value()).(textCapacity := room.value) else old(Value())
    {
      if textRuns.Length >= required {
        return true;
      }
      if !memory {
        return false;
      }
      var runs := Larger(textRuns, textCount, Grown(required), TextRun(NO_STYLE, null, 0, 0));
      var starts := Larger(textRunStarts, textCount, Grown(required), 0);
      MoveRuns(runs, starts);
      return true;
    }

    method MoveRuns(runs: array<TextRun>, starts: array<nat>)
      requires Valid() && !textOpen && textCount <= runs.Length == starts.Length && starts != textCodepoints
      requires runs[..textCount] == textRuns[..textCount] && starts[..textCount] == textRunStarts[..textCount]
      modifies this`textRuns, this`textRunStarts
      ensures Valid() && textRuns == runs && textRunStarts == starts
      ensures Value() == old(Value()).(textCapacity := runs.Length)
    {
      ghost var texts := Texts();
      forall k | 0 <= k < textCount
        ensures runs[k] == textRuns[k] && starts[k] == textRunStarts[k]
      {
        assert runs[..textCount][k] == textRuns[..textCount][k] && starts[..textCount][k] == textRunStarts[..textCount][k];
      }
      textRuns, textRunStarts := runs, starts;
      assert Texts() == texts;
    }

    /** Grows the codepoint buffer. The committed runs are made to point into the new one. */
    method ReserveCodepoints(required: nat, memory: bool) returns (ok: bool)
      requires Valid() && codepointCount <= required
      modifies this`textCodepoints, textRuns
      ensures Valid() && (textCodepoints == old(textCodepoints) || fresh(textCodepoints))
      ensures var room := Reserved(old(textCodepoints.Length), required, memory);
        ok == room.Some? && Value() == if ok then old(Value()).(codepointCapacity := room.value) else old(Value())
    {
      if textCodepoints.Length >= required {
        return true;
      }
      if !memory {
        return false;
      }
      var codepoints := Larger(textCodepoints, codepointCount, Grown(required), 0);
      Repoint(codepoints);
      return true;
    }

    method Repoint(codepoints: array<nat>)
      requires Valid() && codepoints != textRunStarts && codepointCount <= codepoints.Length
      requires codepoints[..codepointCount] == textCodepoints[..codepointCount]
      modifies this`textCodepoints, textRuns
      ensures Valid() && textCodepoints == codepoints
      ensures Value() == old(Value()).(codepointCapacity := codepoints.Length)
    {
      ghost var texts, runs, was := Texts(), textRuns[..], textCodepoints[..];
      for k := 0 to textCount
        modifies textRuns
        invariant forall i | 0 <= i < k :: textRuns[i] == runs[i].(codepoints := codepoints)
        invariant forall i | k <= i < textRuns.Length :: textRuns[i] == runs[i]
      {
        textRuns[k] := textRuns[k].(codepoints := codepoints);
      }
      textCodepoints := codepoints;
      forall k | 0 <= k < textCount
        ensures Denoted(k) == texts[k]
      {
        SamePart(was, codepoints[..], codepointCount, runs[k].start, runs[k].start + runs[k].length);
      }
      assert Texts() == texts;
      if textOpen {
        SamePart(was, codepoints[..], codepointCount, textOpenStart, codepointCount);
      }
    }

    static lemma SamePart(a: seq<nat>, b: seq<nat>, n: nat, from: nat, to: nat)
      requires n <= |a| && n <= |b| && a[..n] == b[..n] && from <= to <= n
      ensures a[from..to] == b[from..to]
    {
      assert a[from..to] == a[..n][from..to] && b[from..to] == b[..n][from..to];
    }

    // ----- Staging -----

    method Begin(vertexCount: nat, memory: bool) returns (ok: bool)
      requires Valid()
      modifies this
      ensures Valid() && fresh(Repr() - old(Repr())) && (Value(), ok) == GpuScene.Begin(old(Value()), vertexCount, memory)
    {
      if vertexCount > 0 {
        ok := ReserveData(vertexCount, memory);
        if !ok {
          return;
        }
      }
      Empty(vertexCount);
      return true;
    }

    method Empty(vertexCount: nat)
      requires Valid()
      modifies this`expected, this`count, this`textCount, this`codepointCount, this`textOpenStart, this`textOpen
      modifies this`open, this`committed, this`active
      ensures Valid()
      ensures Value() == Scene([], uiVertices.Length, vertexCount, [], textRuns.Length, false, NO_STYLE, [], 0,
                               textCodepoints.Length, true, false, false)
    {
      expected, count := vertexCount, 0;
      textCount, codepointCount, textOpenStart, textOpen := 0, 0, 0, false;
      open, committed, active := true, false, false;
    }

    method PushVertex(v: Vertex) returns (ok: bool)
      requires Valid() && (open ==> expected <= uiVertices.Length)
      modifies this`count, uiVertices
      ensures Valid() && (Value(), ok) == Push(old(Value()), v)
    {
      if !open || count >= expected || v.resource <= 0 || v.x < -100 || v.x > 100 || v.y < -100 || v.y > 100
         || v.depth < 0 || v.depth > 100 || v.u < 0 || v.u > 100 || v.v < 0 || v.v > 100 {
        return false;
      }
      ghost var texts, was := Texts(), uiVertices[..count];
      uiVertices[count] := v;
      count := count + 1;
      assert uiVertices[..count] == was + [v];
      assert Texts() == texts;
      return true;
    }

    static method ReadVertex(values: seq<byte>, vertexCount: nat, k: nat) returns (v: Vertex)
      requires STRIDE * vertexCount <= |values| && k < vertexCount
      ensures v == VerticesFrom(values, vertexCount, 0)[k]
    {
      v := VertexAt(values, k);
    }

    static ghost predicate AllValid(vertices: seq<Vertex>) {
      forall k | 0 <= k < |vertices| :: ValidVertex(vertices[k])
    }

    /** Whether every vertex of the batch is a valid one, and the sum of them all. */
    static method CheckBatch(values: seq<byte>, vertexCount: nat) returns (valid: bool, sum: int)
      requires STRIDE * vertexCount <= |values|
      ensures valid <==> AllValid(VerticesFrom(values, vertexCount, 0))
      ensures valid ==> sum == Checksum(VerticesFrom(values, vertexCount, 0))
    {
      ghost var vertices := VerticesFrom(values, vertexCount, 0);
      sum := 0;
      for k := 0 to vertexCount
        invariant sum == Checksum(vertices[..k]) && forall i | 0 <= i < k :: ValidVertex(vertices[i])
      {
        var v := ReadVertex(values, vertexCount, k);
        if !ValidVertex(v) {
          return false, 0;
        }
        sum := sum + (v.resource + v.x + v.y + v.depth + v.u + v.v);
        assert vertices[..k + 1][..k] == vertices[..k];
      }
      assert vertices[..vertexCount] == vertices;
      valid := true;
    }

    method CopyBatch(values: seq<byte>, vertexCount: nat)
      requires Valid() && STRIDE * vertexCount <= |values| && count + vertexCount <= uiVertices.Length
      modifies this`count, uiVertices
      ensures Valid()
      ensures Value() == old(Value()).(vertices := old(Value()).vertices + VerticesFrom(values, vertexCount, 0))
    {
      ghost var vertices, texts, was := VerticesFrom(values, vertexCount, 0), Texts(), uiVertices[..count];
      for k := 0 to vertexCount
        modifies uiVertices
        invariant uiVertices[..count] == was
        invariant forall i | 0 <= i < k :: uiVertices[count + i] == vertices[i]
      {
        uiVertices[count + k] := VertexAt(values, k);
      }
      assert uiVertices[..count + vertexCount] == was + vertices;
      count := count + vertexCount;
      assert Texts() == texts;
    }

    method PushVertexBatch(values: seq<byte>, d: Descriptor, sceneGeneration: int) returns (ok: bool)
      requires Valid() && |values| >= d.byteLength && (open ==> expected <= uiVertices.Length)
      modifies this`count, uiVertices
      ensures Valid() && (Value(), ok) == PushBatch(old(Value()), values, d, sceneGeneration)
    {
      if !WellDescribed(d, sceneGeneration) || !open || d.count > expected - count {
        return false;
      }
      var valid, sum := CheckBatch(values, d.count);
      if !valid || sum != d.checksum {
        return false;
      }
      CopyBatch(values, d.count);
      return true;
    }

    method TextRunBegin(style: Style, memory: bool) returns (ok: bool)
      requires Valid()
      modifies this, textRuns, textRunStarts
      ensures Valid() && fresh(Repr() - old(Repr())) && (Value(), ok) == BeginRun(old(Value()), style, memory)
    {
      if !open || textOpen || style.font < 0 || style.font > 1 || style.color < 0 || style.color > 4
         || style.left < -100 || style.left > 100 || style.bottom < -100 || style.bottom > 100
         || style.scale <= 0 || style.scale > 100 {
        return false;
      }
      ok := ReserveTextRuns(textCount + 1, memory);
      if !ok {
        return;
      }
      OpenRun(style);
    }

    method OpenRun(style: Style)
      requires Valid() && !textOpen && textCount < textRuns.Length
      modifies this`textOpen, this`textOpenStart, textRuns, textRunStarts
      ensures Valid() && Value() == old(Value()).(textOpen := true, style := style, typing := [])
    {
      ghost var texts := Texts();
      textRuns[textCount] := TextRun(style, null, 0, 0);
      textRunStarts[textCount] := codepointCount;
      textOpenStart, textOpen := codepointCount, true;
      assert forall k | 0 <= k < textCount :: Denoted(k) == texts[k];
      assert Texts() == texts;
    }

    method TextCodepoint(codepoint: int, memory: bool) returns (ok: bool)
      requires Valid()
      modifies this, textRuns, textCodepoints
      ensures Valid() && fresh(Repr() - old(Repr())) && (Value(), ok) == PushCodepoint(old(Value()), codepoint, memory)
    {
      if !open || !textOpen || codepoint < 0 || codepoint > LAST_CODEPOINT {
        return false;
      }
      ok := ReserveCodepoints(codepointCount + 1, memory);
      if !ok {
        return;
      }
      AddCodepoint(codepoint);
    }

    method AddCodepoint(codepoint: nat)
      requires Valid() && textOpen && codepointCount < textCodepoints.Length
      modifies this`codepointCount, textCodepoints
      ensures Valid() && Value() == old(Value()).(typing := old(Value()).typing + [codepoint], used := old(codepointCount) + 1)
    {
      ghost var texts, was := Texts(), textCodepoints[..];
      textCodepoints[codepointCount] := codepoint;
      codepointCount := codepointCount + 1;
      forall k | 0 <= k < textCount
        ensures Denoted(k) == texts[k]
      {
        SamePart(was, textCodepoints[..], codepointCount - 1, textRuns[k].start, textRuns[k].start + textRuns[k].length);
      }
      assert Texts() == texts;
    }

    method TextRunCommit() returns (ok: bool)
      requires Valid()
      modifies this`textCount, this`textOpen, textRuns
      ensures Valid() && (Value(), ok) == CommitRun(old(Value()))
    {
      if !open || !textOpen || codepointCount <= textOpenStart {
        return false;
      }
      ghost var texts := Texts();
      textRuns[textCount] := textRuns[textCount].(codepoints := textCodepoints, start := textOpenStart,
                                                  length := codepointCount - textOpenStart);
      textCount, textOpen := textCount + 1, false;
      assert forall k | 0 <= k < textCount - 1 :: Denoted(k) == texts[k];
      assert Texts() == texts + [Denoted(textCount - 1)];
      return true;
    }

    method CommitScene() returns (ok: bool)
      requires Valid()
      modifies this`open, this`committed
      ensures Valid() && (Value(), ok) == Commit(old(Value()))
    {
      if !open || textOpen || count != expected {
        return false;
      }
      ghost var texts := Texts();
      open, committed := false, true;
      assert Texts() == texts;
      return true;
    }
  }
}
