/**
 * The lifecycle part of fvirt/libvirt/entity.py: the `valid` flag every
 * wrapper carries, `_check_valid`, `RunnableEntity.start/destroy`,
 * `ConfigurableEntity.undefine` and the `configRaw` setter.
 *
 * An `Entity` wraps a libvirt object, modelled as a `Backend`: what
 * libvirt reports about it (`isActive`, `isPersistent`, ...) and the log
 * of the state-changing calls the wrapper made on it. Whether such a call
 * raises `libvirt.libvirtError` is a parameter (`fails`). The model does
 * not say what libvirt then does to the object; only the wrapper's own
 * state (`valid`, and which object it wraps) changes.
 *
 * Python's subclasses become a `kind`: `Domain` and `StoragePool` are
 * runnable and configurable, `Volume` is configurable only. The
 * kind-specific operations live in LibvirtVolume, LibvirtStoragePool and
 * LibvirtDomain.
 */
module LibvirtEntity {
  import opened Wrappers
  import opened LibvirtHypervisor

  /** `LifecycleResult`. */
  datatype LifecycleResult = Success | Failure | NoOperation | TimedOut | Forced

  /** The answer of an operation whose target is already in the requested state. */
  function AlreadyDone(idempotent: bool): (r: LifecycleResult)
    ensures r == Success <==> idempotent
    ensures r == NoOperation <==> !idempotent
  {
    if idempotent then Success else NoOperation
  }

  /** A Python argument that the code first tests with `isinstance(_, int)`. */
  datatype Number = Int(value: int) | NotAnInt

  datatype Kind = DomainKind | StoragePoolKind | VolumeKind

  /** The kinds derived from `RunnableEntity`. */
  predicate Runnable(kind: Kind)
  {
    kind != VolumeKind
  }

  /** The state-changing libvirt calls the wrappers make. */
  datatype Call =
    | Create | Destroy | Undefine | Delete | Resize(capacity: int, flags: bv32)
    | Build | Refresh | CreateVolume | Reset | Shutdown | ManagedSave

  /** What libvirt reports about the wrapped object. */
  datatype Report = Report(active: bool, persistent: bool, managedSaveImage: bool, capacity: int)

  /** The libvirt object behind `_entity`. */
  class Backend {
    /** `isActive()`. */
    var active: bool
    /** `isPersistent()`. */
    var persistent: bool
    /** `hasManagedSaveImage()`, for domains. */
    var managedSaveImage: bool
    /** The configured capacity, for volumes. */
    var capacity: int
    /** The state-changing calls made on the object, oldest first. */
    var calls: seq<Call>

    function Reported(): Report
      reads this
    {
      Report(active, persistent, managedSaveImage, capacity)
    }

    constructor(report: Report)
      ensures Reported() == report && calls == []
    {
      active := report.active;
      persistent := report.persistent;
      managedSaveImage := report.managedSaveImage;
      capacity := report.capacity;
      calls := [];
    }
  }

  class Entity {
    const kind: Kind
    const hv: Hypervisor
    /** `_entity`. */
    var backend: Backend
    /** `_valid`. */
    var valid: bool

    /** A new wrapper is valid. */
    constructor(kind: Kind, hv: Hypervisor, backend: Backend)
      ensures this.kind == kind && this.hv == hv && this.backend == backend && valid
    {
      this.kind := kind;
      this.hv := hv;
      this.backend := backend;
      valid := true;
    }

    /** `_check_valid`: an invalid wrapper first, then a hypervisor without a connection. */
    function CheckValid(): (r: Check)
      reads this, hv
      ensures r.Pass? <==> valid && hv.IsConnected()
      ensures !valid ==> r == Fail(InvalidEntity)
      ensures valid && !hv.IsConnected() ==> r == Fail(NotConnected)
    {
      if !valid then Fail(InvalidEntity)
      else if !hv.IsConnected() then Fail(NotConnected)
      else Pass
    }

    /**
     * Reading a property backed by a libvirt query (`running`,
     * `persistent`, `hasManagedSave`, `capacity`): the property calls
     * `_check_valid` before it asks libvirt.
     */
    function Probe<T>(value: T): (r: Result<T>)
      reads this, hv
      ensures r.Ok? <==> CheckValid().Pass?
      ensures r.Ok? ==> r.value == value
      ensures r.Err? ==> r.error == CheckValid().error
    {
      var c := CheckValid();
      if c.Fail? then Err(c.error) else Ok(value)
    }

    /** `_mark_invalid_on_undefine`: always for volumes, otherwise `not self.running`. */
    function MarkInvalidOnUndefine(): (r: Result<bool>)
      reads this, hv, backend
      ensures kind == VolumeKind ==> r == Ok(true)
      ensures Runnable(kind) ==> r == Probe(!backend.active)
    {
      if kind == VolumeKind then Ok(true) else Probe(!backend.active)
    }

    /** `start`. */
    method Start(idempotent: bool, fails: bool) returns (r: Result<LifecycleResult>)
      requires Runnable(kind)
      modifies backend
      ensures backend.Reported() == old(backend.Reported())
      ensures CheckValid().Fail? ==> r == Err(CheckValid().error) && backend.calls == old(backend.calls)
      ensures CheckValid().Pass? && backend.active ==>
                r == Ok(AlreadyDone(idempotent)) && backend.calls == old(backend.calls)
      ensures CheckValid().Pass? && !backend.active ==>
                && backend.calls == old(backend.calls) + [Call.Create]
                && r == Ok(if fails then Failure else Success)
      ensures r != Ok(TimedOut) && r != Ok(Forced)
    {
      var c := CheckValid();
      if c.Fail? {
        return Err(c.error);
      }
      // `running` repeats the validity check that just passed
      var running := backend.active;
      if running {
        return Ok(AlreadyDone(idempotent));
      }
      backend.calls := backend.calls + [Call.Create];
      if fails {
        return Ok(Failure);
      }
      return Ok(Success);
    }

    /**
     * `destroy`. Its `not self.valid` test comes after reading `running`,
     * which already raises for an invalid wrapper. A transient entity's
     * wrapper becomes invalid once the destroy succeeds.
     */
    method Destroy(idempotent: bool, fails: bool) returns (r: Result<LifecycleResult>)
      requires Runnable(kind)
      modifies this, backend
      ensures backend == old(backend) && backend.Reported() == old(backend.Reported())
      ensures old(CheckValid()).Fail? ==>
                r == Err(old(CheckValid()).error) && valid == old(valid) && backend.calls == old(backend.calls)
      ensures old(CheckValid()).Pass? && !backend.active ==>
                r == Ok(AlreadyDone(idempotent)) && valid && backend.calls == old(backend.calls)
      ensures old(CheckValid()).Pass? && backend.active ==>
                && backend.calls == old(backend.calls) + [Call.Destroy]
                && r == Ok(if fails then Failure else Success)
                && valid == (fails || backend.persistent)
      ensures idempotent ==> r != Ok(NoOperation)
    {
      var running :- Probe(backend.active);
      if !running || !valid {
        return Ok(AlreadyDone(idempotent));
      }
      // `persistent` repeats the validity check that `running` passed
      var persistent := backend.persistent;
      var markInvalid := !persistent;
      backend.calls := backend.calls + [Call.Destroy];
      if fails {
        return Ok(Failure);
      }
      if markInvalid {
        valid := false;
      }
      return Ok(Success);
    }

    /**
     * `ConfigurableEntity.undefine`, for domains and storage pools (a
     * volume's `undefine` is its `delete`). Whether the wrapper becomes
     * invalid is decided before the call; reading `running` for that can
     * raise `NotConnected`.
     */
    method Undefine(idempotent: bool, fails: bool) returns (r: Result<LifecycleResult>)
      requires kind != VolumeKind
      modifies this, backend
      ensures backend == old(backend) && backend.Reported() == old(backend.Reported())
      ensures !old(valid) ==> r == Ok(AlreadyDone(idempotent)) && !valid && backend.calls == old(backend.calls)
      ensures old(CheckValid()).Fail? && old(valid) ==>
                r == Err(NotConnected) && valid && backend.calls == old(backend.calls)
      ensures old(CheckValid()).Pass? ==>
                && backend.calls == old(backend.calls) + [Call.Undefine]
                && r == Ok(if fails then Failure else Success)
                && valid == (fails || backend.active)
    {
      if !valid {
        return Ok(AlreadyDone(idempotent));
      }
      var markInvalid :- MarkInvalidOnUndefine();
      backend.calls := backend.calls + [Call.Undefine];
      if fails {
        return Ok(Failure);
      }
      if markInvalid {
        valid := false;
      }
      return Ok(Success);
    }

    /**
     * The `configRaw` setter: refused on a read-only connection; otherwise
     * the define target (`Hypervisor.DefineEntity` for domains and pools,
     * the parent pool's `DefineVolume` for volumes) is called, whose
     * outcome is `defined`, and the wrapper takes over the object it
     * returns. No validity check is made, so this revives an invalid
     * wrapper.
     */
    method SetConfigRaw(defined: Check, created: Backend) returns (r: Check)
      modifies this
      ensures hv.readOnly ==> r == Fail(InsufficientPrivileges)
      ensures !hv.readOnly ==> r == defined
      ensures r.Fail? ==> backend == old(backend) && valid == old(valid)
      ensures r.Pass? ==> backend == created && valid
    {
      if hv.readOnly {
        return Fail(InsufficientPrivileges);
      }
      if defined.Fail? {
        return defined;
      }
      backend := created;
      valid := true;
      return Pass;
    }
  }

  /** A probe raises `InvalidEntity` on an invalid wrapper and passes libvirt's answer through on a usable one. */
  lemma ProbeNeedsValidity(e: Entity, b: bool)
    ensures !e.valid ==> e.Probe(b) == Err(InvalidEntity)
    ensures e.valid && e.hv.IsConnected() ==> e.Probe(b) == Ok(b)
  {
  }
}
