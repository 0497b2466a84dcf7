/**
 The staging of a GPU scene and the reload of another behind it (native/kookie_sdl_adapter.c): vertices one by one or
 in a batch, text runs, and the generation that is shown.
 */
module GpuScene {
  import opened Results
  import opened Bytes

  const BATCH_LIMIT: nat := 65536
  const STRIDE: nat := 24
  const LAST_GENERATION: nat := 1_000_000
  const LAST_CHECKSUM: nat := 1_000_002
  const LAST_FENCE: nat := 1_000_000
  const LAST_CODEPOINT: nat := 0x10ffff

  datatype Vertex = Vertex(resource: int, x: int, y: int, depth: int, u: int, v: int)

  datatype Style = Style(font: int, color: int, left: int, bottom: int, scale: int)

  datatype Text = Text(style: Style, codepoints: seq<nat>)

  /**
   A scene as it is staged. The capacities are those of its buffers; used: the codepoints pushed in all; typing: those
   pushed to the run that is open.
   */
  datatype Scene = Scene(
    vertices: seq<Vertex>, capacity: nat, expected: nat,
    texts: seq<Text>, textCapacity: nat,
    textOpen: bool, style: Style, typing: seq<nat>, used: nat, codepointCapacity: nat,
    open: bool, committed: bool, active: bool)

  const NO_STYLE := Style(0, 0, 0, 0, 0)
  const NO_SCENE := Scene([], 0, 0, [], 0, false, NO_STYLE, [], 0, 0, false, false, false)

  /** Half as much again, and 64 at least. */
  function Grown(required: nat): nat {
    required + if required / 2 < 64 then 64 else required / 2
  }

  /** Room for so many, if there is memory for it. */
  function Reserved(capacity: nat, required: nat, memory: bool): Option<nat> {
    if capacity >= required then Some(capacity) else if memory then Some(Grown(required)) else None
  }

  // ----- One scene -----

  function Begin(s: Scene, count: nat, memory: bool): (Scene, bool) {
    var capacity := if count == 0 then Some(s.capacity) else Reserved(s.capacity, count, memory);
    if capacity.None? then (s, false)
    else
      (s.(vertices := [], capacity := capacity.value, expected := count,
          texts := [], textOpen := false, style := NO_STYLE, typing := [], used := 0,
          open := true, committed := false, active := false), true)
  }

  predicate ValidVertex(v: Vertex) {
    && v.resource > 0 && -100 <= v.x <= 100 && -100 <= v.y <= 100
    && 0 <= v.depth <= 100 && 0 <= v.u <= 100 && 0 <= v.v <= 100
  }

  function Push(s: Scene, v: Vertex): (Scene, bool) {
    if !s.open || |s.vertices| >= s.expected || !ValidVertex(v) then (s, false)
    else (s.(vertices := s.vertices + [v]), true)
  }

  function BeginRun(s: Scene, style: Style, memory: bool): (Scene, bool) {
    var capacity := Reserved(s.textCapacity, |s.texts| + 1, memory);
    if !s.open || s.textOpen || style.font < 0 || style.font > 1 || style.color < 0 || style.color > 4
       || style.left < -100 || style.left > 100 || style.bottom < -100 || style.bottom > 100
       || style.scale <= 0 || style.scale > 100 || capacity.None? then (s, false)
    else (s.(textCapacity := capacity.value, textOpen := true, style := style, typing := []), true)
  }

  function PushCodepoint(s: Scene, codepoint: int, memory: bool): (Scene, bool) {
    var capacity := Reserved(s.codepointCapacity, s.used + 1, memory);
    if !s.open || !s.textOpen || codepoint < 0 || codepoint > LAST_CODEPOINT || capacity.None? then (s, false)
    else (s.(typing := s.typing + [codepoint], used := s.used + 1, codepointCapacity := capacity.value), true)
  }

  function CommitRun(s: Scene): (Scene, bool) {
    if !s.open || !s.textOpen || s.typing == [] then (s, false)
    else (s.(texts := s.texts + [Text(s.style, s.typing)], textOpen := false, style := NO_STYLE, typing := []), true)
  }

  function Commit(s: Scene): (Scene, bool) {
    if !s.open || s.textOpen || |s.vertices| != s.expected then (s, false)
    else (s.(open := false, committed := true), true)
  }

  // ----- Batches -----

  function ReadInt(values: seq<byte>, offset: nat): int
    requires offset + 4 <= |values|
  {
    Signed32(Get32(values, offset))
  }

  function VertexAt(values: seq<byte>, k: nat): Vertex
    requires STRIDE * k + STRIDE <= |values|
  {
    var at := STRIDE * k;
    Vertex(ReadInt(values, at), ReadInt(values, at + 4), ReadInt(values, at + 8),
           ReadInt(values, at + 12), ReadInt(values, at + 16), ReadInt(values, at + 20))
  }

  /** The vertices of a batch from number k on. */
  function VerticesFrom(values: seq<byte>, count: nat, k: nat): (r: seq<Vertex>)
    requires STRIDE * count <= |values| && k <= count
    ensures |r| == count - k && forall i | 0 <= i < |r| :: r[i] == VertexAt(values, k + i)
    decreases count - k
  {
    if k == count then [] else [VertexAt(values, k)] + VerticesFrom(values, count, k + 1)
  }

  function Checksum(vertices: seq<Vertex>): int {
    if vertices == [] then 0
    else
      var v := vertices[|vertices| - 1];
      Checksum(vertices[..|vertices| - 1]) + (v.resource + v.x + v.y + v.depth + v.u + v.v)
  }

  /** What the caller says of a batch. */
  datatype Descriptor = Descriptor(
    schema: int, byteLength: int, count: int, stride: int, generation: int, checksum: int)

  predicate WellDescribed(d: Descriptor, sceneGeneration: int) {
    && d.schema == 1 && d.byteLength > 0 && 0 < d.count <= BATCH_LIMIT && d.stride == STRIDE
    && d.generation > 0 && d.generation == sceneGeneration
    && d.byteLength == d.count * STRIDE
  }

  function PushBatch(s: Scene, values: seq<byte>, d: Descriptor, sceneGeneration: int): (Scene, bool)
    requires |values| >= d.byteLength
  {
    if !WellDescribed(d, sceneGeneration) || !s.open || d.count > s.expected - |s.vertices| then (s, false)
    else
      var vertices := VerticesFrom(values, d.count, 0);
      if (exists k | 0 <= k < |vertices| :: !ValidVertex(vertices[k])) || Checksum(vertices) != d.checksum then (s, false)
      else (s.(vertices := s.vertices + vertices), true)
  }

  /** The vertices pushed one by one, and whether every one was taken. */
  function PushAll(s: Scene, vertices: seq<Vertex>): (Scene, bool)
    decreases |vertices|
  {
    if vertices == [] then (s, true)
    else
      var (t, ok) := Push(s, vertices[0]);
      var (u, all) := PushAll(t, vertices[1..]);
      (u, ok && all)
  }

  lemma {:induction false} PushAllMeans(s: Scene, vertices: seq<Vertex>)
    requires s.open && |s.vertices| <= s.expected
    ensures var (t, all) := PushAll(s, vertices);
      && (all <==> |s.vertices| + |vertices| <= s.expected && forall k | 0 <= k < |vertices| :: ValidVertex(vertices[k]))
      && (all ==> t == s.(vertices := s.vertices + vertices))
    decreases |vertices|
  {
    if vertices == [] {
      assert s.vertices + [] == s.vertices;
    } else {
      var (t, ok) := Push(s, vertices[0]);
      PushAllMeans(t, vertices[1..]);
      if |s.vertices| + |vertices| <= s.expected && ValidVertex(vertices[0]) {
        assert s.vertices + vertices == (s.vertices + [vertices[0]]) + vertices[1..];
      }
      assert vertices == [vertices[0]] + vertices[1..];
    }
  }

  /**
   A batch is taken exactly if it is described rightly, its checksum is that of its vertices, and each of them would be
   taken on its own; and then it leaves what pushing them one by one leaves. A batch that is refused changes nothing.
   */
  lemma BatchIsPushes(s: Scene, values: seq<byte>, d: Descriptor, sceneGeneration: int)
    requires s.open && |values| >= d.byteLength && |s.vertices| <= s.expected
    ensures var (t, ok) := PushBatch(s, values, d, sceneGeneration);
      if WellDescribed(d, sceneGeneration) then
        var vertices := VerticesFrom(values, d.count, 0);
        && (ok <==> Checksum(vertices) == d.checksum && PushAll(s, vertices).1)
        && (if ok then t == PushAll(s, vertices).0 else t == s)
      else !ok && t == s
  {
    if WellDescribed(d, sceneGeneration) {
      PushAllMeans(s, VerticesFrom(values, d.count, 0));
    }
  }

  // ----- Two scenes and a reload -----

  datatype Reload = Reload(
    activeGeneration: int, activeChecksum: int, pendingGeneration: int, pendingChecksum: int,
    sceneGeneration: int, retiredGeneration: int, fence: int, pendingCommitted: bool)

  /** shown: the scene that is drawn, once it is committed. pending: the one that a reload prepares. */
  datatype Gpu = Gpu(shown: Scene, pending: Scene, reload: Reload)

  /** The device is opened or closed: the reload starts over, what is shown stays. */
  function Reset(g: Gpu, device: bool): Gpu {
    var first := if device then 1 else 0;
    g.(pending := NO_SCENE, reload := Reload(first, first, 0, 0, 0, 0, 0, false))
  }

  /**
   A device that was lost is opened again. lost: it is there, without a window, and marked as lost; opens: a new one
   could be had. The reload starts over, but for the generation that is shown, the one before it and the fence.
   */
  function Recover(g: Gpu, lost: bool, opens: bool): (Gpu, bool) {
    if !lost || !opens then (g, false)
    else
      var r, a := g.reload, Reset(g, true);
      (a.(reload := a.reload.(activeGeneration := r.activeGeneration, activeChecksum := r.activeChecksum,
                              retiredGeneration := r.retiredGeneration, fence := r.fence)), true)
  }

  function Stage(g: Gpu, device: bool, generation: int, checksum: int): (Gpu, bool) {
    if !device || g.shown.open || g.pending.open || generation <= g.reload.activeGeneration
       || generation > LAST_GENERATION || checksum <= 0 || checksum > LAST_CHECKSUM
       || g.reload.pendingGeneration != 0 then (g, false)
    else
      (g.(pending := NO_SCENE,
          reload := g.reload.(pendingGeneration := generation, pendingChecksum := checksum,
                              sceneGeneration := 0, pendingCommitted := false)), true)
  }

  function Cancel(g: Gpu, generation: int): (Gpu, bool) {
    if g.reload.pendingGeneration != generation then (g, false)
    else
      (g.(pending := NO_SCENE,
          reload := g.reload.(pendingGeneration := 0, pendingChecksum := 0, sceneGeneration := 0,
                              pendingCommitted := false)), true)
  }

  predicate Ready(g: Gpu) {
    && g.reload.pendingGeneration != 0 && g.reload.pendingCommitted
    && g.reload.sceneGeneration == g.reload.pendingGeneration
  }

  function Activate(g: Gpu): (Gpu, bool) {
    if !Ready(g) || g.reload.fence >= LAST_FENCE then (g, false)
    else
      var r := g.reload;
      (Gpu(g.pending, NO_SCENE,
           r.(fence := r.fence + 1, retiredGeneration := r.activeGeneration, activeGeneration := r.pendingGeneration,
              activeChecksum := r.pendingChecksum, pendingGeneration := 0, pendingChecksum := 0,
              pendingCommitted := false)), true)
  }

  function BeginScene(g: Gpu, count: int, memory: bool): (Gpu, bool) {
    if count < 0 || count % 3 != 0 then (g, false)
    else if g.reload.pendingGeneration != 0 then
      if g.pending.open || g.pending.committed then (g, false)
      else
        var (s, ok) := Begin(g.pending, count, memory);
        if ok then (g.(pending := s, reload := g.reload.(sceneGeneration := g.reload.pendingGeneration)), true) else (g, false)
    else if g.shown.open then (g, false)
    else
      var (s, ok) := Begin(g.shown, count, memory);
      if ok then (g.(shown := s, reload := g.reload.(sceneGeneration := g.reload.activeGeneration)), true) else (g, false)
  }

  function ReserveScene(g: Gpu, capacity: int, memory: bool): (Gpu, bool) {
    if capacity <= 0 || g.reload.pendingGeneration != 0 then (g, false)
    else
      var room := Reserved(g.shown.capacity, capacity, memory);
      if room.None? then (g, false) else (g.(shown := g.shown.(capacity := room.value)), true)
  }

  /** What is staged goes to the pending scene while that is open, and else to the shown one. */
  function Opened(g: Gpu): Scene {
    if g.pending.open then g.pending else g.shown
  }

  function WithOpened(g: Gpu, s: Scene): Gpu {
    if g.pending.open then g.(pending := s) else g.(shown := s)
  }

  datatype Staging =
    | OneVertex(v: Vertex)
    | Batch(values: seq<byte>, d: Descriptor)
    | RunBegins(style: Style, memory: bool)
    | OneCodepoint(codepoint: int, memory: bool)
    | RunEnds

  predicate Given(st: Staging) {
    st.Batch? ==> |st.values| >= st.d.byteLength
  }

  function StagedScene(s: Scene, st: Staging, sceneGeneration: int): (Scene, bool)
    requires Given(st)
  {
    match st
    case OneVertex(v) => Push(s, v)
    case Batch(values, d) => PushBatch(s, values, d, sceneGeneration)
    case RunBegins(style, memory) => BeginRun(s, style, memory)
    case OneCodepoint(codepoint, memory) => PushCodepoint(s, codepoint, memory)
    case RunEnds => CommitRun(s)
  }

  function StageInto(g: Gpu, st: Staging): (Gpu, bool)
    requires Given(st)
  {
    var (s, ok) := StagedScene(Opened(g), st, g.reload.sceneGeneration);
    (WithOpened(g, s), ok)
  }

  function CommitScene(g: Gpu): (Gpu, bool) {
    var (s, ok) := Commit(Opened(g));
    var r := g.reload;
    if !ok then (g, false)
    else if g.pending.open && r.pendingGeneration != 0 && r.sceneGeneration == r.pendingGeneration then
      (WithOpened(g, s).(reload := r.(pendingCommitted := true)), true)
    else (WithOpened(g, s), true)
  }

  // ----- What every step keeps -----

  datatype Step =
    | Resetting(device: bool)
    | Recovering(lost: bool, opens: bool)
    | StagingReload(device: bool, generation: int, checksum: int)
    | Cancelling(generation: int)
    | Activating
    | Beginning(count: int, memory: bool)
    | Reserving(capacity: int, memory: bool)
    | Into(st: Staging)
    | CommittingScene

  predicate Possible(step: Step) {
    step.Into? ==> Given(step.st)
  }

  function Stepped(g: Gpu, step: Step): Gpu
    requires Possible(step)
  {
    match step
    case Resetting(device) => Reset(g, device)
    case Recovering(lost, opens) => Recover(g, lost, opens).0
    case StagingReload(device, generation, checksum) => Stage(g, device, generation, checksum).0
    case Cancelling(generation) => Cancel(g, generation).0
    case Activating => Activate(g).0
    case Beginning(count, memory) => BeginScene(g, count, memory).0
    case Reserving(capacity, memory) => ReserveScene(g, capacity, memory).0
    case Into(st) => StageInto(g, st).0
    case CommittingScene => CommitScene(g).0
  }

  predicate SceneSound(s: Scene) {
    && |s.vertices| <= s.expected
    && (s.committed ==> !s.open && |s.vertices| == s.expected && !s.textOpen)
    && (s.open ==> s.expected <= s.capacity)
    && (!s.textOpen ==> s.typing == [])
    && forall k | 0 <= k < |s.texts| :: s.texts[k].codepoints != []
  }

  predicate Sound(g: Gpu) {
    var r := g.reload;
    && SceneSound(g.shown) && SceneSound(g.pending)
    && (r.pendingGeneration != 0 ==> r.pendingGeneration > r.activeGeneration && !g.shown.open)
    && (r.pendingGeneration == 0 ==> g.pending == NO_SCENE && !r.pendingCommitted)
    && (g.pending.open || g.pending.committed ==> r.sceneGeneration == r.pendingGeneration)
    && (r.pendingCommitted <==> g.pending.committed)
    && r.activeGeneration >= 0 && r.fence <= LAST_FENCE
  }

  lemma StagedSound(s: Scene, st: Staging, sceneGeneration: int)
    requires Given(st) && SceneSound(s)
    ensures var t := StagedScene(s, st, sceneGeneration).0;
      SceneSound(t) && t.open == s.open && t.committed == s.committed && (!s.open ==> t == s)
  {
  }

  lemma StepSound(g: Gpu, step: Step)
    requires Sound(g) && Possible(step)
    ensures Sound(Stepped(g, step))
  {
    if step.Into? {
      StagedSound(Opened(g), step.st, g.reload.sceneGeneration);
    }
  }

  /**
   While a reload is pending nothing but its activation or a reset of the device touches what is shown, its generation
   and its checksum; neither its cancellation nor the recovery of a lost device does.
   */
  lemma ShownFrozen(g: Gpu, step: Step)
    requires Sound(g) && Possible(step) && g.reload.pendingGeneration != 0 && !step.Activating? && !step.Resetting?
    ensures var a := Stepped(g, step);
      && a.shown == g.shown
      && a.reload.activeGeneration == g.reload.activeGeneration && a.reload.activeChecksum == g.reload.activeChecksum
  {
    if step.Into? {
      StagedSound(Opened(g), step.st, g.reload.sceneGeneration);
    }
  }

  /**
   An activation shows a later generation, with the checksum it was staged under, and installs the scene that was
   prepared for it, which is committed: all its vertices are there and no run is open.
   */
  lemma ActivationAdvances(g: Gpu)
    requires Sound(g) && Activate(g).1
    ensures var a := Activate(g).0;
      && a.reload.activeGeneration == g.reload.pendingGeneration > g.reload.activeGeneration
      && a.reload.activeChecksum == g.reload.pendingChecksum
      && a.reload.retiredGeneration == g.reload.activeGeneration
      && a.shown == g.pending && a.shown.committed && |a.shown.vertices| == a.shown.expected && !a.shown.textOpen
      && a.reload.pendingGeneration == 0 && a.pending == NO_SCENE
  {
  }

  /** Only an activation moves the generation that is shown, and never back. */
  lemma GenerationRises(g: Gpu, step: Step)
    requires Sound(g) && Possible(step) && !step.Resetting?
    ensures Stepped(g, step).reload.activeGeneration >= g.reload.activeGeneration
    ensures Stepped(g, step).reload.activeGeneration > g.reload.activeGeneration <==> step.Activating? && Activate(g).1
  {
  }

  /**
   A recovery keeps what is shown, its generation, its checksum and the fence, and gives up what was pending. A reload
   can then be staged just as if nothing had been pending; the scene that is open takes no batch until it is begun anew.
   */
  lemma RecoveryKeeps(g: Gpu, generation: int, checksum: int, values: seq<byte>, d: Descriptor)
    requires Sound(g) && |values| >= d.byteLength
    ensures var (a, ok) := Recover(g, true, true);
      && ok && a.shown == g.shown
      && a.reload == Reload(g.reload.activeGeneration, g.reload.activeChecksum, 0, 0, 0,
                            g.reload.retiredGeneration, g.reload.fence, false)
      && Stage(a, true, generation, checksum)
         == Stage(Cancel(g, g.reload.pendingGeneration).0, true, generation, checksum)
      && !StageInto(a, Batch(values, d)).1
  {
  }

  function SteppedAll(g: Gpu, steps: seq<Step>): Gpu
    requires forall k | 0 <= k < |steps| :: Possible(steps[k])
    decreases |steps|
  {
    if steps == [] then g else SteppedAll(Stepped(g, steps[0]), steps[1..])
  }

  /**
   Over any run without a reset, recoveries of a lost device included, the staging invariant holds and the shown
   generation never falls.
   */
  lemma {:induction false} EveryRun(g: Gpu, steps: seq<Step>)
    requires Sound(g) && forall k | 0 <= k < |steps| :: Possible(steps[k]) && !steps[k].Resetting?
    ensures Sound(SteppedAll(g, steps))
    ensures SteppedAll(g, steps).reload.activeGeneration >= g.reload.activeGeneration
    decreases |steps|
  {
    if steps != [] {
      StepSound(g, steps[0]);
      GenerationRises(g, steps[0]);
      EveryRun(Stepped(g, steps[0]), steps[1..]);
    }
  }

  const OPENED := Gpu(NO_SCENE, NO_SCENE, Reload(1, 1, 0, 0, 0, 0, 0, false))

  lemma OpenedSound()
    ensures Sound(OPENED)
  {
  }

  /**
   With nothing pending a cancellation succeeds exactly for generation 0. It leaves what is shown alone, but after it
   the open scene takes no batch, and any other cancellation changes nothing.
   */
  lemma CancelNothing(g: Gpu, generation: int, values: seq<byte>, d: Descriptor)
    requires Sound(g) && g.reload.pendingGeneration == 0 && |values| >= d.byteLength
    ensures var (a, ok) := Cancel(g, generation);
      && (ok <==> generation == 0)
      && (if ok then a.shown == g.shown && !StageInto(a, Batch(values, d)).1 else a == g)
  {
  }
}
