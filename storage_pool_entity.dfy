/**
 * The guard logic of fvirt/libvirt/storage_pool.py: `StoragePool.delete`,
 * `build`, `refresh` and `defineVolume`.
 *
 * Every one of them begins, directly or through the `running` property,
 * with the validity check of `_check_valid`, so a later test of `valid`
 * or of the connection in the same method can no longer fail.
 */
module LibvirtStoragePool {
  import opened Wrappers
  import opened LibvirtHypervisor
  import opened LibvirtEntity

  /**
   * `delete`: refused while the pool runs. Reading `running` already
   * raises `InvalidEntity` for an invalid wrapper, so the method's own
   * answer for an invalid pool is never given, and `idempotent` has no
   * effect. The wrapper stays valid.
   */
  method Delete(p: Entity, idempotent: bool, fails: bool) returns (r: Result<LifecycleResult>)
    requires p.kind == StoragePoolKind
    modifies p.backend
    ensures p.backend.Reported() == old(p.backend.Reported())
    ensures !p.valid ==> r == Err(InvalidEntity)
    ensures p.CheckValid().Fail? ==> r == Err(p.CheckValid().error) && p.backend.calls == old(p.backend.calls)
    ensures p.CheckValid().Pass? && p.backend.active ==>
              r == Err(EntityRunning) && p.backend.calls == old(p.backend.calls)
    ensures p.CheckValid().Pass? && !p.backend.active ==>
              && p.backend.calls == old(p.backend.calls) + [Call.Delete]
              && r == Ok(if fails then Failure else Success)
  {
    var running :- p.Probe(p.backend.active);
    if running {
      return Err(EntityRunning);
    }
    p.backend.calls := p.backend.calls + [Call.Delete];
    if fails {
      return Ok(Failure);
    }
    return Ok(Success);
  }

  /** The shape of `build` and `refresh`: the validity check, then one libvirt call. */
  method Operate(p: Entity, call: Call, fails: bool) returns (r: Result<LifecycleResult>)
    modifies p.backend
    ensures p.backend.Reported() == old(p.backend.Reported())
    ensures p.CheckValid().Fail? ==> r == Err(p.CheckValid().error) && p.backend.calls == old(p.backend.calls)
    ensures p.CheckValid().Pass? ==>
              p.backend.calls == old(p.backend.calls) + [call] && r == Ok(if fails then Failure else Success)
  {
    var c := p.CheckValid();
    if c.Fail? {
      return Err(c.error);
    }
    p.backend.calls := p.backend.calls + [call];
    if fails {
      return Ok(Failure);
    }
    return Ok(Success);
  }

  /** `build`. */
  method Build(p: Entity, fails: bool) returns (r: Result<LifecycleResult>)
    requires p.kind == StoragePoolKind
    modifies p.backend
    ensures p.backend.Reported() == old(p.backend.Reported())
    ensures p.CheckValid().Fail? ==> r == Err(p.CheckValid().error) && p.backend.calls == old(p.backend.calls)
    ensures p.CheckValid().Pass? ==>
              p.backend.calls == old(p.backend.calls) + [Call.Build] && r == Ok(if fails then Failure else Success)
  {
    r := Operate(p, Call.Build, fails);
  }

  /** `refresh`. */
  method Refresh(p: Entity, fails: bool) returns (r: Result<LifecycleResult>)
    requires p.kind == StoragePoolKind
    modifies p.backend
    ensures p.backend.Reported() == old(p.backend.Reported())
    ensures p.CheckValid().Fail? ==> r == Err(p.CheckValid().error) && p.backend.calls == old(p.backend.calls)
    ensures p.CheckValid().Pass? ==>
              p.backend.calls == old(p.backend.calls) + [Call.Refresh] && r == Ok(if fails then Failure else Success)
  {
    r := Operate(p, Call.Refresh, fails);
  }

  /**
   * `defineVolume`: the validity check (an invalid wrapper, then a
   * hypervisor without connection), then the read-only check; a
   * configuration libvirt refuses raises `InvalidConfig`. The method's own
   * `NotConnected` test comes after `_check_valid` has made the same test.
   */
  method DefineVolume(p: Entity, fails: bool) returns (r: Check)
    requires p.kind == StoragePoolKind
    modifies p.backend
    ensures p.backend.Reported() == old(p.backend.Reported())
    ensures !p.valid ==> r == Fail(InvalidEntity)
    ensures p.valid && !p.hv.IsConnected() ==> r == Fail(NotConnected)
    ensures p.CheckValid().Pass? && p.hv.readOnly ==> r == Fail(InsufficientPrivileges)
    ensures p.CheckValid().Pass? && !p.hv.readOnly ==>
              p.backend.calls == old(p.backend.calls) + [CreateVolume] && (r.Pass? <==> !fails)
              && (r.Fail? ==> r.error == InvalidConfig)
    ensures r.Fail? && r.error != InvalidConfig ==> p.backend.calls == old(p.backend.calls)
  {
    var c := p.CheckValid();
    if c.Fail? {
      return c;
    }
    if p.hv.readOnly {
      return Fail(InsufficientPrivileges);
    }
    p.backend.calls := p.backend.calls + [CreateVolume];
    if fails {
      return Fail(InvalidConfig);
    }
    return Pass;
  }
}
