/**
 * The volume templating model (fvirt/libvirt/models/volume.py): field
 * constraints, the allocation, `nocow` and format validators, and
 * `set_target`, which overwrites the `target` field on pool kinds whose
 * volumes are not files.
 *
 * Every rejection is a pydantic validation error, modelled as ValueError.
 * The optional `uuid` field is not modelled.
 */
module VolumeModel {
  import opened Wrappers

  /** The image formats of file-backed pools. */
  const ImageFormats: set<string> := {"raw", "bochs", "cloop", "dmg", "iso", "qcow", "qcow2", "qed", "vmdk", "vpc"}

  /** The partition types of disk pools. */
  const PartitionTypes: set<string> := {"none", "linux", "fat16", "fat32", "linux-swap", "linux-lvm", "linux-raid", "extended"}

  const FileLikePools: set<string> := {"dir", "fs", "netfs", "gluster", "vstorage"}

  /** The pool kinds whose volumes are never defined with a target. */
  const NoTargetPools: set<string> := {"logical", "iscsi", "iscsi-direct", "scsi", "multipath", "zfs"}

  /** The formats a volume in a pool of the given kind accepts; empty when it takes none. */
  function FormatsFor(poolType: string): (f: set<string>)
    ensures poolType in FileLikePools ==> f == ImageFormats
    ensures poolType == "disk" ==> f == PartitionTypes
    ensures poolType == "rbd" ==> f == {"raw"}
    ensures poolType !in FileLikePools + {"disk", "rbd"} ==> f == {}
  {
    if poolType in FileLikePools then ImageFormats
    else if poolType == "disk" then PartitionTypes
    else if poolType == "rbd" then {"raw"}
    else {}
  }

  // ---------------------------------------------------------------------
  // The validators, on the field values

  /** `name`, `pool_type` non-empty; `capacity > 0`; `allocation >= 0`. */
  predicate FieldsValid(name: string, capacity: int, poolType: string, allocation: Option<int>)
  {
    |name| >= 1 && capacity > 0 && |poolType| >= 1 && (allocation.Some? ==> allocation.value >= 0)
  }

  /** `check_allocation`. */
  function CheckAllocation(capacity: int, allocation: Option<int>): (r: Check)
    ensures r.Pass? <==> allocation.None? || allocation.value <= capacity
    ensures r.Fail? ==> r.error == ValueError
  {
    if allocation.Some? && allocation.value > capacity then Fail(ValueError) else Pass
  }

  /** `check_nocow`. */
  function CheckNocow(poolType: string, nocow: bool): (r: Check)
    ensures r.Pass? <==> !nocow || poolType in {"dir", "fs"}
    ensures r.Fail? ==> r.error == ValueError
  {
    if poolType !in {"dir", "fs"} && nocow then Fail(ValueError) else Pass
  }

  /** `check_format`: a pool kind with formats needs one of them, any other refuses a format. */
  function CheckFormat(poolType: string, format: Option<string>): (r: Check)
    ensures r.Pass? <==> if FormatsFor(poolType) != {} then format.Some? && format.value in FormatsFor(poolType)
                         else format.None?
    ensures r.Fail? ==> r.error == ValueError
  {
    var valid := FormatsFor(poolType);
    if valid != {} then
      if format.Some? then
        if format.value !in valid then Fail(ValueError) else Pass
      else Fail(ValueError)
    else if format.Some? then Fail(ValueError)
    else Pass
  }

  /** The value `set_target` leaves in `target`. */
  function TargetAfter(poolType: string, target: bool): (t: bool)
    ensures poolType in NoTargetPools ==> !t
    ensures poolType !in NoTargetPools ==> t == target
  {
    if poolType in NoTargetPools then false else target
  }

  /** Field constraints, then the validators in declaration order. */
  function Checks(name: string, capacity: int, poolType: string, allocation: Option<int>,
                  format: Option<string>, nocow: bool): Check
  {
    if !FieldsValid(name, capacity, poolType, allocation) then Fail(ValueError)
    else if CheckAllocation(capacity, allocation).Fail? then Fail(ValueError)
    else if CheckNocow(poolType, nocow).Fail? then Fail(ValueError)
    else CheckFormat(poolType, format)
  }

  /** The validity rule stated directly from the constraints. */
  predicate Acceptable(name: string, capacity: int, poolType: string, allocation: Option<int>,
                       format: Option<string>, nocow: bool)
  {
    && name != "" && poolType != "" && capacity > 0
    && (allocation.Some? ==> 0 <= allocation.value <= capacity)
    && (nocow ==> poolType in {"dir", "fs"})
    && (poolType in FileLikePools ==> format.Some? && format.value in ImageFormats)
    && (poolType == "disk" ==> format.Some? && format.value in PartitionTypes)
    && (poolType == "rbd" ==> format == Some("raw"))
    && (poolType !in FileLikePools + {"disk", "rbd"} ==> format.None?)
  }

  /** The validators accept exactly the acceptable volumes, and only ever raise ValueError. */
  lemma ChecksAcceptable(name: string, capacity: int, poolType: string, allocation: Option<int>,
                         format: Option<string>, nocow: bool)
    ensures Checks(name, capacity, poolType, allocation, format, nocow).Pass?
        <==> Acceptable(name, capacity, poolType, allocation, format, nocow)
    ensures Checks(name, capacity, poolType, allocation, format, nocow).Fail? ==>
        Checks(name, capacity, poolType, allocation, format, nocow).error == ValueError
  {
    var f := FormatsFor(poolType);
    if poolType in FileLikePools {
      assert "raw" in f;
    } else if poolType == "disk" {
      assert "none" in f;
    } else if poolType == "rbd" {
      assert "raw" in f;
    }
  }

  /** Each pool kind admits a volume: a smallest acceptable format for it. */
  function SomeFormat(poolType: string): Option<string>
  {
    if poolType in FileLikePools || poolType == "rbd" then Some("raw")
    else if poolType == "disk" then Some("none")
    else None
  }

  lemma EveryPoolTypeAdmitsAVolume(poolType: string, capacity: int)
    requires poolType != "" && capacity > 0
    ensures Acceptable("volume", capacity, poolType, None, SomeFormat(poolType), false)
  {
  }

  // ---------------------------------------------------------------------
  // The model object

  /** `VolumeInfo`: only `target` is ever written after construction. */
  class VolumeInfo {
    const name: string
    const capacity: int
    const poolType: string
    const allocation: Option<int>
    const format: Option<string>
    const nocow: bool
    var target: bool

    constructor(name: string, capacity: int, poolType: string, allocation: Option<int>,
                format: Option<string>, nocow: bool, target: bool)
      ensures this.name == name && this.capacity == capacity && this.poolType == poolType
      ensures this.allocation == allocation && this.format == format && this.nocow == nocow
      ensures this.target == target
    {
      this.name := name;
      this.capacity := capacity;
      this.poolType := poolType;
      this.allocation := allocation;
      this.format := format;
      this.nocow := nocow;
      this.target := target;
    }

    /** `set_target`. */
    method SetTarget()
      modifies this
      ensures target == TargetAfter(poolType, old(target))
    {
      if poolType in NoTargetPools {
        target := false;
      }
    }

    /** Pydantic validation of a constructed model: the checks, then `set_target` when they pass. */
    method Validate() returns (r: Check)
      modifies this
      ensures r == Checks(name, capacity, poolType, allocation, format, nocow)
      ensures target == if r.Pass? then TargetAfter(poolType, old(target)) else old(target)
    {
      if !FieldsValid(name, capacity, poolType, allocation) {
        return Fail(ValueError);
      }
      r := CheckAllocation(capacity, allocation);
      if r.Fail? {
        return;
      }
      r := CheckNocow(poolType, nocow);
      if r.Fail? {
        return;
      }
      r := CheckFormat(poolType, format);
      if r.Fail? {
        return;
      }
      SetTarget();
    }
  }
}
