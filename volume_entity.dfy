/**
 * The lifecycle operations of fvirt/libvirt/volume.py: `Volume.delete`,
 * its alias `undefine`, and `resize`, which assembles the libvirt resize
 * flags and refuses a request that would shrink the volume unless asked
 * to.
 */
module LibvirtVolume {
  import opened Wrappers
  import opened LibvirtEntity

  /** libvirt's `virStorageVolResizeFlags` values. */
  const ResizeAllocate: bv32 := 1
  const ResizeDelta: bv32 := 2
  const ResizeShrink: bv32 := 4

  /**
   * `delete`: an invalid wrapper answers as already done; otherwise the
   * volume is deleted and, on success, the wrapper becomes invalid.
   */
  method Delete(v: Entity, idempotent: bool, fails: bool) returns (r: LifecycleResult)
    requires v.kind == VolumeKind
    modifies v, v.backend
    ensures v.backend == old(v.backend) && v.backend.Reported() == old(v.backend.Reported())
    ensures !old(v.valid) ==> r == AlreadyDone(idempotent) && !v.valid && v.backend.calls == old(v.backend.calls)
    ensures old(v.valid) ==>
              && v.backend.calls == old(v.backend.calls) + [Call.Delete]
              && r == (if fails then Failure else Success)
              && v.valid == fails
  {
    if !v.valid {
      return AlreadyDone(idempotent);
    }
    v.backend.calls := v.backend.calls + [Call.Delete];
    if fails {
      return Failure;
    }
    v.valid := false;
    return Success;
  }

  /** `undefine`, which is `delete` under another name. */
  method Undefine(v: Entity, idempotent: bool, fails: bool) returns (r: LifecycleResult)
    requires v.kind == VolumeKind
    modifies v, v.backend
    ensures v.backend == old(v.backend) && v.backend.Reported() == old(v.backend.Reported())
    ensures !old(v.valid) ==> r == AlreadyDone(idempotent) && !v.valid && v.backend.calls == old(v.backend.calls)
    ensures old(v.valid) ==>
              && v.backend.calls == old(v.backend.calls) + [Call.Delete]
              && r == (if fails then Failure else Success)
              && v.valid == fails
    ensures old(v.valid) && !fails ==> !v.valid && v.MarkInvalidOnUndefine() == Ok(true)
  {
    r := Delete(v, idempotent, fails);
  }

  /**
   * `resize`. The shrink guard compares the argument with the current
   * capacity whether or not `delta` is set, so without `shrink` a delta
   * smaller than the current capacity is refused even though it would
   * grow the volume.
   */
  method Resize(v: Entity, capacity: Number, delta: bool, shrink: bool, allocate: bool, idempotent: bool, fails: bool)
    returns (r: Result<LifecycleResult>, flags: bv32)
    requires v.kind == VolumeKind
    modifies v.backend
    ensures v.backend.Reported() == old(v.backend.Reported())
    ensures r.Ok? ==> v.CheckValid().Pass? && capacity.Int? && capacity.value >= 0
    ensures v.CheckValid().Fail? ==> r == Err(v.CheckValid().error)
    ensures v.CheckValid().Pass? && (capacity.NotAnInt? || capacity.value < 0) ==> r == Err(ValueError)
    ensures v.CheckValid().Pass? && capacity.Int? && 0 <= capacity.value < v.backend.capacity && !shrink ==>
              r == Err(ValueError)
    ensures v.CheckValid().Pass? && capacity.Int? && capacity.value >= 0 && (shrink || capacity.value >= v.backend.capacity) ==>
              r.Ok?
    ensures r.Err? ==> v.backend.calls == old(v.backend.calls)
    ensures r.Ok? ==>
              && ((flags & ResizeAllocate != 0) <==> allocate)
              && ((flags & ResizeShrink != 0) <==> shrink)
              && ((flags & ResizeDelta != 0) <==> delta)
              && flags & !(ResizeAllocate | ResizeShrink | ResizeDelta) == 0
    ensures r.Ok? && (if delta then capacity.value == 0 else capacity.value == v.backend.capacity) ==>
              r == Ok(AlreadyDone(idempotent)) && v.backend.calls == old(v.backend.calls)
    ensures r.Ok? && !(if delta then capacity.value == 0 else capacity.value == v.backend.capacity) ==>
              && v.backend.calls == old(v.backend.calls) + [Call.Resize(capacity.value, flags)]
              && r == Ok(if fails then Failure else Success)
  {
    flags := 0;
    var c := v.CheckValid();
    if c.Fail? {
      return Err(c.error), flags;
    }
    if capacity.NotAnInt? || capacity.value < 0 {
      return Err(ValueError), flags;
    }
    var n := capacity.value;
    if allocate {
      flags := flags | ResizeAllocate;
    }
    if shrink {
      flags := flags | ResizeShrink;
    } else if n < v.backend.capacity {
      return Err(ValueError), flags;
    }
    if delta {
      flags := flags | ResizeDelta;
      if n == 0 {
        return Ok(AlreadyDone(idempotent)), flags;
      }
    } else if n == v.backend.capacity {
      return Ok(AlreadyDone(idempotent)), flags;
    }
    v.backend.calls := v.backend.calls + [Call.Resize(n, flags)];
    if fails {
      return Ok(Failure), flags;
    }
    return Ok(Success), flags;
  }
}
