/** The shown scene, the pending one and the reload between them, updated in place (native/kookie_sdl_adapter.c). */
module GpuState {
  import opened Bytes
  import opened GpuScene
  import opened GpuSceneBuffers

  class State {
    var shown: Buffers
    var pending: Buffers
    var reload: Reload

    ghost function Repr(): set<object>
      reads this, shown, pending
    {
      {this} + shown.Repr() + pending.Repr()
    }

    ghost predicate Fits(b: Buffers)
      reads b, b.uiVertices, b.textRuns, b.textRunStarts
    {
      b.Valid() && (b.open ==> b.expected <= b.uiVertices.Length)
    }

    ghost predicate Valid()
      reads this, shown, pending, shown.Repr(), pending.Repr()
    {
      && Fits(shown) && Fits(pending) && this !in shown.Repr() && this !in pending.Repr()
      && shown.Repr() !! pending.Repr()
    }

    ghost function Value(): Gpu
      requires Valid()
      reads this, shown, pending, shown.Repr(), pending.Repr()
    {
      Gpu(shown.Value(), pending.Value(), reload)
    }

    constructor ()
      ensures Valid() && fresh(Repr()) && Value() == OPENED
    {
      var a := new Buffers();
      var b := new Buffers();
      shown, pending, reload := a, b, OPENED.reload;
    }

    /** The pending scene's buffers are given up. */
    method ReleasePending()
      requires Valid()
      modifies this`pending
      ensures Valid() && fresh(Repr() - old(Repr())) && Value() == old(Value()).(pending := NO_SCENE)
      ensures shown == old(shown)
    {
      pending := new Buffers();
    }

    /** The reload starts over, because a device was opened or closed. */
    method ResetReload(device: bool)
      requires Valid()
      modifies this
      ensures Valid() && fresh(Repr() - old(Repr())) && Value() == Reset(old(Value()), device)
    {
      var first := if device then 1 else 0;
      reload := Reload(first, first, 0, 0, 0, 0, 0, false);
      ReleasePending();
    }

    /** A lost device is opened again, and what was shown takes its place again. */
    method RecoverDevice(lost: bool, opens: bool) returns (ok: bool)
      requires Valid()
      modifies this
      ensures Valid() && fresh(Repr() - old(Repr())) && (Value(), ok) == Recover(old(Value()), lost, opens)
    {
      if !lost {
        return false;
      }
      var generation, checksum := reload.activeGeneration, reload.activeChecksum;
      var retired, fence := reload.retiredGeneration, reload.fence;
      if !opens {
        return false;
      }
      ResetReload(true);
      reload := reload.(activeGeneration := generation, activeChecksum := checksum,
                        retiredGeneration := retired, fence := fence);
      return true;
    }

    method StageReload(device: bool, generation: int, checksum: int) returns (ok: bool)
      requires Valid()
      modifies this
      ensures Valid() && fresh(Repr() - old(Repr())) && (Value(), ok) == Stage(old(Value()), device, generation, checksum)
    {
      if !device || shown.open || pending.open || generation <= reload.activeGeneration
         || generation > LAST_GENERATION || checksum <= 0 || checksum > LAST_CHECKSUM || reload.pendingGeneration != 0 {
        return false;
      }
      ReleasePending();
      reload := reload.(pendingGeneration := generation, pendingChecksum := checksum, sceneGeneration := 0,
                        pendingCommitted := false);
      return true;
    }

    method CancelReload(generation: int) returns (ok: bool)
      requires Valid()
      modifies this
      ensures Valid() && fresh(Repr() - old(Repr())) && (Value(), ok) == Cancel(old(Value()), generation)
    {
      if reload.pendingGeneration != generation {
        return false;
      }
      ReleasePending();
      reload := reload.(pendingGeneration := 0, pendingChecksum := 0, sceneGeneration := 0, pendingCommitted := false);
      return true;
    }

    method ActivatePending() returns (ok: bool)
      requires Valid()
      modifies this
      ensures Valid() && fresh(Repr() - old(Repr())) && (Value(), ok) == Activate(old(Value()))
    {
      if reload.pendingGeneration == 0 || !reload.pendingCommitted || reload.sceneGeneration != reload.pendingGeneration
         || reload.fence >= LAST_FENCE {
        return false;
      }
      var none := new Buffers();
      shown, pending := pending, none;
      reload := reload.(
        fence := reload.fence + 1, retiredGeneration := reload.activeGeneration,
        activeGeneration := reload.pendingGeneration, activeChecksum := reload.pendingChecksum,
        pendingGeneration := 0, pendingChecksum := 0, pendingCommitted := false);
      return true;
    }

    method BeginStaging(count: int, memory: bool) returns (ok: bool)
      requires Valid()
      modifies this, shown, pending
      ensures Valid() && fresh(Repr() - old(Repr())) && (Value(), ok) == BeginScene(old(Value()), count, memory)
    {
      if count < 0 || count % 3 != 0 {
        return false;
      }
      if reload.pendingGeneration != 0 {
        if pending.open || pending.committed {
          return false;
        }
        ok := BeginPending(count, memory);
      } else if shown.open {
        return false;
      } else {
        ok := BeginShown(count, memory);
      }
    }

    method BeginPending(count: nat, memory: bool) returns (ok: bool)
      requires Valid()
      modifies this`reload, pending
      ensures Valid() && fresh(Repr() - old(Repr()))
      ensures var (s, began) := Begin(old(Value()).pending, count, memory);
        && ok == began
        && Value() == Gpu(old(Value()).shown, s,
                          if ok then old(reload).(sceneGeneration := old(reload).pendingGeneration) else old(reload))
    {
      ok := pending.Begin(count, memory);
      if ok {
        reload := reload.(sceneGeneration := reload.pendingGeneration);
      }
    }

    method BeginShown(count: nat, memory: bool) returns (ok: bool)
      requires Valid()
      modifies this`reload, shown
      ensures Valid() && fresh(Repr() - old(Repr()))
      ensures var (s, began) := Begin(old(Value()).shown, count, memory);
        && ok == began
        && Value() == Gpu(s, old(Value()).pending,
                          if ok then old(reload).(sceneGeneration := old(reload).activeGeneration) else old(reload))
    {
      ok := shown.Begin(count, memory);
      if ok {
        reload := reload.(sceneGeneration := reload.activeGeneration);
      }
    }

    method PushOne(v: Vertex) returns (ok: bool)
      requires Valid()
      modifies shown, pending, shown.uiVertices, pending.uiVertices
      ensures Valid() && Repr() == old(Repr()) && (Value(), ok) == StageInto(old(Value()), OneVertex(v))
    {
      if pending.open {
        ok := pending.PushVertex(v);
      } else {
        ok := shown.PushVertex(v);
      }
    }

    method PushBatchOf(values: seq<byte>, d: Descriptor) returns (ok: bool)
      requires Valid() && |values| >= d.byteLength
      modifies shown, pending, shown.uiVertices, pending.uiVertices
      ensures Valid() && Repr() == old(Repr()) && (Value(), ok) == StageInto(old(Value()), Batch(values, d))
    {
      if pending.open {
        ok := pending.PushVertexBatch(values, d, reload.sceneGeneration);
      } else {
        ok := shown.PushVertexBatch(values, d, reload.sceneGeneration);
      }
    }

    method CommitStaged() returns (ok: bool)
      requires Valid()
      modifies this, shown, pending
      ensures Valid() && Repr() == old(Repr()) && (Value(), ok) == CommitScene(old(Value()))
    {
      if pending.open {
        ok := pending.CommitScene();
        if ok && reload.pendingGeneration != 0 && reload.sceneGeneration == reload.pendingGeneration {
          reload := reload.(pendingCommitted := true);
        }
      } else {
        ok := shown.CommitScene();
      }
    }
  }
}
