/**
 The reload of a scene behind the one that is shown (native/kookie_sdl_adapter.c): when each step is taken, all that it
 changes, and a whole reload from the staging of its generation to its activation.
 */
module GpuReload {
  import opened GpuScene
  import opened GpuBatch

  // ----- Each step -----

  /** A reload is staged for a later generation, one at a time, while no scene is being built. */
  lemma {:induction false} StageExactly(g: Gpu, device: bool, generation: int, checksum: int)
    ensures var (h, ok), r := Stage(g, device, generation, checksum), g.reload;
      && (ok <==> && device && !g.shown.open && !g.pending.open && r.pendingGeneration == 0
                  && r.activeGeneration < generation <= 1_000_000 && 1 <= checksum <= 1_000_002)
      && h == if !ok then g
              else Gpu(g.shown, NO_SCENE,
                       Reload(r.activeGeneration, r.activeChecksum, generation, checksum, 0,
                              r.retiredGeneration, r.fence, false))
  {
  }

  /** A reload is given up by its generation; what is shown stays. */
  lemma {:induction false} CancelExactly(g: Gpu, generation: int)
    ensures var (h, ok), r := Cancel(g, generation), g.reload;
      && (ok <==> r.pendingGeneration == generation)
      && h == if !ok then g
              else Gpu(g.shown, NO_SCENE,
                       Reload(r.activeGeneration, r.activeChecksum, 0, 0, 0, r.retiredGeneration, r.fence, false))
  {
  }

  /** The pending scene is shown exactly once it is committed under its generation, and the fence has not run out. */
  lemma {:induction false} ActivateExactly(g: Gpu)
    ensures var (h, ok), r := Activate(g), g.reload;
      && (ok <==> && r.pendingGeneration != 0 && r.pendingCommitted && r.sceneGeneration == r.pendingGeneration
                  && r.fence < 1_000_000)
      && h == if !ok then g
              else Gpu(g.pending, NO_SCENE,
                       Reload(r.pendingGeneration, r.pendingChecksum, 0, 0, r.sceneGeneration,
                              r.activeGeneration, r.fence + 1, false))
  {
  }

  /** What opening or closing the device leaves of a reload, and what a recovery puts back. */
  lemma {:induction false} ResetExactly(g: Gpu, lost: bool, opens: bool)
    ensures Reset(g, true) == Gpu(g.shown, NO_SCENE, Reload(1, 1, 0, 0, 0, 0, 0, false))
    ensures Reset(g, false) == Gpu(g.shown, NO_SCENE, Reload(0, 0, 0, 0, 0, 0, 0, false))
    ensures var (h, ok), r := Recover(g, lost, opens), g.reload;
      && (ok <==> lost && opens)
      && h == if !ok then g
              else Gpu(g.shown, NO_SCENE,
                       Reload(r.activeGeneration, r.activeChecksum, 0, 0, 0, r.retiredGeneration, r.fence, false))
  {
  }

  /** Room for so many: a buffer that is too small grows to half as much again as is needed, by 64 at the least. */
  function Room(capacity: nat, needed: nat): nat {
    if needed <= capacity then capacity else if needed < 128 then needed + 64 else needed + needed / 2
  }

  /** A scene as it is begun for so many vertices: empty, open, and nothing of what it held before. */
  predicate Begun(was: Scene, now: Scene, count: nat) {
    && now.vertices == [] && now.expected == count && now.texts == [] && now.typing == [] && now.used == 0
    && now.open && !now.committed && !now.active && !now.textOpen && now.style == Style(0, 0, 0, 0, 0)
    && now.capacity == Room(was.capacity, count)
    && now.textCapacity == was.textCapacity && now.codepointCapacity == was.codepointCapacity
  }

  /** A scene of whole triangles is begun: the pending one during a reload, else the one that is shown. */
  lemma {:induction false} BeginExactly(g: Gpu, count: int, memory: bool)
    ensures var (h, ok), r := BeginScene(g, count, memory), g.reload;
      var reloading := r.pendingGeneration != 0;
      var target := if reloading then g.pending else g.shown;
      && (ok <==> && count >= 0 && count % 3 == 0 && !target.open && !(reloading && target.committed)
                  && (memory || count <= target.capacity))
      && (!ok ==> h == g)
      && (ok && reloading ==>
            h.shown == g.shown && Begun(g.pending, h.pending, count)
                && h.reload == r.(sceneGeneration := r.pendingGeneration))
      && (ok && !reloading ==>
            h.pending == g.pending && Begun(g.shown, h.shown, count)
                && h.reload == r.(sceneGeneration := r.activeGeneration))
  {
  }

  /** Room can be made ahead for the scene that is shown, but not during a reload; nothing else changes. */
  lemma {:induction false} ReserveExactly(g: Gpu, capacity: int, memory: bool)
    ensures var (h, ok) := ReserveScene(g, capacity, memory);
      && (ok <==> capacity >= 1 && g.reload.pendingGeneration == 0 && (memory || capacity <= g.shown.capacity))
      && h == if ok then g.(shown := g.shown.(capacity := Room(g.shown.capacity, capacity))) else g
  {
  }

  /** What is staged goes to the pending scene while that is open, and else to the one that is shown. */
  lemma {:induction false} StageGoes(g: Gpu, st: Staging)
    requires Given(st)
    ensures var (h, ok), open := StageInto(g, st), if g.pending.open then g.pending else g.shown;
      var s := StagedScene(open, st, g.reload.sceneGeneration);
      ok == s.1 && h == if g.pending.open then Gpu(g.shown, s.0, g.reload) else Gpu(s.0, g.pending, g.reload)
  {
  }

  /** The open scene is committed if it is complete; a pending one is then ready under its generation. */
  lemma {:induction false} CommitExactly(g: Gpu)
    ensures var (h, ok), r := CommitScene(g), g.reload;
      var s := if g.pending.open then g.pending else g.shown;
      var done := s.(open := false, committed := true);
      && (ok <==> s.open && !s.textOpen && |s.vertices| == s.expected)
      && h == if !ok then g
              else if !g.pending.open then Gpu(done, g.pending, r)
              else Gpu(g.shown, done,
                       if r.pendingGeneration != 0 && r.sceneGeneration == r.pendingGeneration
                       then r.(pendingCommitted := true) else r)
  {
  }

  // ----- A whole reload -----

  /** The pushes of these vertices to the open scene, one by one. */
  function Pushed(g: Gpu, vertices: seq<Vertex>): (Gpu, bool)
    decreases |vertices|
  {
    if vertices == [] then (g, true)
    else
      var (h, ok) := StageInto(g, OneVertex(vertices[0]));
      var (last, all) := Pushed(h, vertices[1..]);
      (last, ok && all)
  }

  lemma {:induction false} PushedPending(g: Gpu, vertices: seq<Vertex>)
    requires g.pending.open
    ensures Pushed(g, vertices) == (g.(pending := PushAll(g.pending, vertices).0), PushAll(g.pending, vertices).1)
    decreases |vertices|
  {
    if vertices != [] {
      PushedPending(StageInto(g, OneVertex(vertices[0])).0, vertices[1..]);
    }
  }

  /** Stage, begin, push, commit, activate. */
  function Reloaded(g: Gpu, generation: int, checksum: int, vertices: seq<Vertex>): (Gpu, bool) {
    var (a, staged) := Stage(g, true, generation, checksum);
    var (b, begun) := BeginScene(a, |vertices|, true);
    var (c, pushed) := Pushed(b, vertices);
    var (d, committed) := CommitScene(c);
    var (e, activated) := Activate(d);
    (e, staged && begun && pushed && committed && activated)
  }

  /**
   A later generation of valid triangles can always be loaded behind an idle scene: once it is activated just its
   vertices are shown, under its generation and checksum; the one before is retired; and the fence has moved by one.
   */
  lemma {:induction false} ReloadShows(g: Gpu, generation: int, checksum: int, vertices: seq<Vertex>)
    requires !g.shown.open && !g.pending.open && g.reload.pendingGeneration == 0 && g.reload.fence < 1_000_000
    requires 0 <= g.reload.activeGeneration < generation <= 1_000_000 && 1 <= checksum <= 1_000_002
    requires |vertices| % 3 == 0 && forall k | 0 <= k < |vertices| :: ValidVertex(vertices[k])
    ensures var (h, ok), r := Reloaded(g, generation, checksum, vertices), g.reload;
      && ok && h.shown.vertices == vertices && h.shown.committed && !h.shown.open && h.shown.texts == []
      && h.pending == NO_SCENE
      && h.reload == Reload(generation, checksum, 0, 0, generation, r.activeGeneration, r.fence + 1, false)
  {
    var a := Stage(g, true, generation, checksum).0;
    var b := BeginScene(a, |vertices|, true).0;
    SceneBuilt(NO_SCENE, |vertices|, vertices);
    PushedPending(b, vertices);
    KeepsOpen(b.pending, vertices);
  }

  lemma {:induction false} KeepsOpen(s: Scene, vertices: seq<Vertex>)
    ensures var t := PushAll(s, vertices).0; t.open == s.open && t.textOpen == s.textOpen
    decreases |vertices|
  {
    if vertices != [] {
      KeepsOpen(Push(s, vertices[0]).0, vertices[1..]);
    }
  }
}
