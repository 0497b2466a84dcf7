/**
 Scenes as a caller builds them (native/kookie_sdl_adapter.c): a batch of encoded vertices against the pushes of the
 same vertices, and a whole scene with its text runs from begin to commit.
 */
module GpuBatch {
  import opened Bytes
  import opened GpuScene

  // ----- Vertices in bytes -----

  /** A signed word, its lowest byte first. */
  function Word(v: int): (r: seq<byte>)
    requires FitsSigned32(v)
    ensures |r| == 4
  {
    var u := if v < 0 then v + 0x1_0000_0000 else v;
    [u % 256, u / 256 % 256, u / 0x1_0000 % 256, u / 0x100_0000]
  }

  predicate Fits(v: Vertex) {
    && FitsSigned32(v.resource) && FitsSigned32(v.x) && FitsSigned32(v.y)
    && FitsSigned32(v.depth) && FitsSigned32(v.u) && FitsSigned32(v.v)
  }

  /** Six words: resource, x, y, depth, u and v. */
  function Encoded(v: Vertex): (r: seq<byte>)
    requires Fits(v)
    ensures |r| == 24
  {
    Word(v.resource) + Word(v.x) + Word(v.y) + Word(v.depth) + Word(v.u) + Word(v.v)
  }

  predicate AllFit(vertices: seq<Vertex>) {
    forall k | 0 <= k < |vertices| :: Fits(vertices[k])
  }

  function EncodedAll(vertices: seq<Vertex>): (r: seq<byte>)
    requires AllFit(vertices)
    ensures |r| == 24 * |vertices|
  {
    if vertices == [] then [] else Encoded(vertices[0]) + EncodedAll(vertices[1..])
  }

  lemma {:induction false} WordRead(v: int, bytes: seq<byte>, p: nat)
    requires FitsSigned32(v) && p + 4 <= |bytes| && bytes[p..p + 4] == Word(v)
    ensures ReadInt(bytes, p) == v
  {
    var u := if v < 0 then v + 0x1_0000_0000 else v;
    var part := bytes[p..p + 4];
    assert bytes[p] == part[0] && bytes[p + 1] == part[1] && bytes[p + 2] == part[2] && bytes[p + 3] == part[3];
    DigitsOf(u);
  }

  lemma {:induction false} DigitsOf(u: nat)
    requires u < 0x1_0000_0000
    ensures u % 256 + 0x100 * (u / 256 % 256) + 0x1_0000 * (u / 0x1_0000 % 256) + 0x100_0000 * (u / 0x100_0000) == u
  {
  }

  lemma {:induction false} SixParts(a: seq<byte>, b: seq<byte>, c: seq<byte>, d: seq<byte>, e: seq<byte>, f: seq<byte>)
    requires |a| == |b| == |c| == |d| == |e| == |f| == 4
    ensures var s := a + b + c + d + e + f;
      s[0..4] == a && s[4..8] == b && s[8..12] == c && s[12..16] == d && s[16..20] == e && s[20..24] == f
  {
  }

  lemma {:induction false} PartOfPart(bytes: seq<byte>, at: nat, part: seq<byte>, p: nat)
    requires at + |part| <= |bytes| && bytes[at..at + |part|] == part && p + 4 <= |part|
    ensures bytes[at + p..at + p + 4] == part[p..p + 4]
  {
    var mine := bytes[at + p..at + p + 4];
    forall k | 0 <= k < 4
      ensures mine[k] == part[p + k]
    {
      assert mine[k] == bytes[at + (p + k)] == bytes[at..at + |part|][p + k];
    }
  }

  lemma {:induction false} VertexRead(v: Vertex, bytes: seq<byte>, k: nat)
    requires Fits(v) && 24 * k + 24 <= |bytes| && bytes[24 * k..24 * k + 24] == Encoded(v)
    ensures VertexAt(bytes, k) == v
  {
    var at, part := 24 * k, Encoded(v);
    SixParts(Word(v.resource), Word(v.x), Word(v.y), Word(v.depth), Word(v.u), Word(v.v));
    PartOfPart(bytes, at, part, 0);
    PartOfPart(bytes, at, part, 4);
    PartOfPart(bytes, at, part, 8);
    PartOfPart(bytes, at, part, 12);
    PartOfPart(bytes, at, part, 16);
    PartOfPart(bytes, at, part, 20);
    WordRead(v.resource, bytes, at);
    WordRead(v.x, bytes, at + 4);
    WordRead(v.y, bytes, at + 8);
    WordRead(v.depth, bytes, at + 12);
    WordRead(v.u, bytes, at + 16);
    WordRead(v.v, bytes, at + 20);
  }

  lemma {:induction false} EncodedAt(vertices: seq<Vertex>, k: nat)
    requires AllFit(vertices) && k < |vertices|
    ensures EncodedAll(vertices)[24 * k..24 * k + 24] == Encoded(vertices[k])
    decreases k
  {
    var first, rest := Encoded(vertices[0]), EncodedAll(vertices[1..]);
    if k > 0 {
      EncodedAt(vertices[1..], k - 1);
      assert (first + rest)[24 * k..24 * k + 24] == rest[24 * (k - 1)..24 * (k - 1) + 24];
    }
  }

  /** The vertices of encoded ones are those that were encoded. */
  lemma {:induction false} VerticesRead(vertices: seq<Vertex>)
    requires AllFit(vertices)
    ensures VerticesFrom(EncodedAll(vertices), |vertices|, 0) == vertices
  {
    var bytes := EncodedAll(vertices);
    var read := VerticesFrom(bytes, |vertices|, 0);
    forall k | 0 <= k < |vertices|
      ensures read[k] == vertices[k]
    {
      EncodedAt(vertices, k);
      VertexRead(vertices[k], bytes, k);
    }
    assert read == vertices;
  }

  // ----- Batches -----

  /** The sum of all fields of all vertices. */
  function Total(vertices: seq<Vertex>): int {
    if vertices == [] then 0
    else
      var v := vertices[0];
      v.resource + v.x + v.y + v.depth + v.u + v.v + Total(vertices[1..])
  }

  lemma {:induction false} TotalMore(vertices: seq<Vertex>, v: Vertex)
    ensures Total(vertices + [v]) == Total(vertices) + v.resource + v.x + v.y + v.depth + v.u + v.v
  {
    if vertices == [] {
      assert [v][1..] == [];
      assert [] + [v] == [v];
    } else {
      TotalMore(vertices[1..], v);
      assert (vertices + [v])[1..] == vertices[1..] + [v];
    }
  }

  lemma {:induction false} ChecksumIsTotal(vertices: seq<Vertex>)
    ensures Checksum(vertices) == Total(vertices)
  {
    if vertices != [] {
      var n := |vertices| - 1;
      ChecksumIsTotal(vertices[..n]);
      TotalMore(vertices[..n], vertices[n]);
      assert vertices == vertices[..n] + [vertices[n]];
    }
  }

  /** What a caller says of a batch of these vertices. */
  function Described(vertices: seq<Vertex>, generation: int): Descriptor {
    Descriptor(1, 24 * |vertices|, |vertices|, 24, generation, Total(vertices))
  }

  /**
   The upload of encoded vertices is taken exactly if each push of them would be, and leaves what the pushes leave.
   */
  lemma {:induction false} UploadIsPushes(s: Scene, vertices: seq<Vertex>, generation: int)
    requires s.open && |s.vertices| <= s.expected && AllFit(vertices) && 0 < |vertices| <= 65536 && generation > 0
    ensures var (t, ok) := PushBatch(s, EncodedAll(vertices), Described(vertices, generation), generation);
      (ok <==> PushAll(s, vertices).1) && t == if ok then PushAll(s, vertices).0 else s
  {
    VerticesRead(vertices);
    ChecksumIsTotal(vertices);
    BatchIsPushes(s, EncodedAll(vertices), Described(vertices, generation), generation);
  }

  // ----- A vertex -----

  /**
   A vertex is taken by an open scene that waits for more, if it has a resource and all its percentages are in range.
   */
  lemma {:induction false} PushMeans(s: Scene, v: Vertex)
    ensures var (t, ok) := Push(s, v);
      && (ok <==> s.open && |s.vertices| < s.expected && v.resource >= 1
                  && -100 <= v.x <= 100 && -100 <= v.y <= 100
                  && 0 <= v.depth <= 100 && 0 <= v.u <= 100 && 0 <= v.v <= 100)
      && t == if ok then s.(vertices := s.vertices + [v]) else s
  {
  }

  // ----- Text runs -----

  /** The codepoints pushed one by one, with memory for each, and whether all were taken. */
  function PushText(s: Scene, codepoints: seq<nat>): (Scene, bool)
    decreases |codepoints|
  {
    if codepoints == [] then (s, true)
    else
      var (t, ok) := PushCodepoint(s, codepoints[0], true);
      var (u, all) := PushText(t, codepoints[1..]);
      (u, ok && all)
  }

  lemma {:induction false} TextPushed(s: Scene, codepoints: seq<nat>)
    requires s.open && s.textOpen
    ensures var (t, all) := PushText(s, codepoints);
      && (all <==> forall k | 0 <= k < |codepoints| :: codepoints[k] <= 0x10ffff)
      && (all ==> t == s.(typing := s.typing + codepoints, used := s.used + |codepoints|,
                          codepointCapacity := t.codepointCapacity))
    decreases |codepoints|
  {
    if codepoints == [] {
      assert s.typing + [] == s.typing;
    } else {
      var (t, ok) := PushCodepoint(s, codepoints[0], true);
      TextPushed(t, codepoints[1..]);
      assert codepoints == [codepoints[0]] + codepoints[1..];
      if ok {
        assert s.typing + codepoints == t.typing + codepoints[1..];
      }
    }
  }

  predicate Drawable(style: Style) {
    && (style.font == 0 || style.font == 1) && 0 <= style.color <= 4
    && -100 <= style.left <= 100 && -100 <= style.bottom <= 100 && 1 <= style.scale <= 100
  }

  /** A run is committed with just its style and its codepoints, behind the runs before it; an empty one never is. */
  lemma {:induction false} RunWritten(s: Scene, style: Style, codepoints: seq<nat>)
    requires s.open && !s.textOpen && Drawable(style) && forall k | 0 <= k < |codepoints| :: codepoints[k] <= 0x10ffff
    ensures var (begun, began) := BeginRun(s, style, true);
      var (typed, all) := PushText(begun, codepoints);
      var (t, ok) := CommitRun(typed);
      && began && all && (ok <==> codepoints != [])
      && (ok ==> t.texts == s.texts + [Text(style, codepoints)] && !t.textOpen && t.open && t.vertices == s.vertices)
  {
    var begun := BeginRun(s, style, true).0;
    TextPushed(begun, codepoints);
    assert [] + codepoints == codepoints;
  }

  /** A run is begun only in an open scene, one at a time, in a style that can be drawn. */
  lemma {:induction false} RunBegins(s: Scene, style: Style, memory: bool)
    ensures BeginRun(s, style, memory).1 ==> s.open && !s.textOpen && Drawable(style)
    ensures memory && s.open && !s.textOpen && Drawable(style) ==> BeginRun(s, style, memory).1
    ensures !BeginRun(s, style, memory).1 ==> BeginRun(s, style, memory).0 == s
  {
  }

  // ----- A whole scene -----

  /**
   A scene that is begun for so many vertices can be committed exactly once just that many were pushed, all valid, and
   then it holds just them; whatever the scene held before is gone.
   */
  lemma {:induction false} SceneBuilt(s: Scene, count: nat, vertices: seq<Vertex>)
    ensures var (begun, began) := Begin(s, count, true);
      var (pushed, all) := PushAll(begun, vertices);
      var (t, ok) := Commit(pushed);
      && began && begun.texts == [] && begun.open && !begun.committed
      && (all ==> (ok <==> |vertices| == count) && pushed.vertices == vertices)
      && (all && ok ==> t.committed && !t.open && t.vertices == vertices && t.texts == [])
      && (all <==> |vertices| <= count && forall k | 0 <= k < |vertices| :: ValidVertex(vertices[k]))
  {
    var begun := Begin(s, count, true).0;
    PushAllMeans(begun, vertices);
    assert [] + vertices == vertices;
  }

  /** A scene is committed exactly if it is open, complete and has no run open; else nothing changes. */
  lemma {:induction false} CommitMeans(s: Scene)
    ensures var (t, ok) := Commit(s);
      && (ok <==> s.open && !s.textOpen && |s.vertices| == s.expected)
      && t == if ok then s.(open := false, committed := true) else s
  {
  }
}
