/**
 * The storage-pool templating model (fvirt/libvirt/models/storage_pool.py):
 * the field constraints of `PoolFeatures`, `PoolSource`, `PoolTarget` and
 * `PoolInfo`, and the three model validators, where the pool `type` decides
 * which features, source properties and target a pool may or must have.
 *
 * Every rejection is a pydantic validation error, modelled as ValueError.
 * The optional `uuid` field is not modelled.
 */
module PoolModel {
  import opened Wrappers

  datatype PoolFeatures = PoolFeatures(cow: Option<string>)

  datatype PoolSource = PoolSource(
    format: Option<string>,
    dir: Option<string>,
    devices: Option<seq<string>>,
    hosts: Option<seq<string>>,
    initiator: Option<string>,
    adapter: Option<string>,
    name: Option<string>)

  datatype PoolTarget = PoolTarget(path: string)

  datatype PoolInfo = PoolInfo(
    kind: string,
    name: string,
    features: Option<PoolFeatures>,
    source: Option<PoolSource>,
    target: Option<PoolTarget>)

  // ---------------------------------------------------------------------
  // Field constraints

  /** The `type` pattern: thirteen pool kinds. */
  const PoolTypes: set<string> := {"dir", "fs", "netfs", "logical", "disk", "iscsi", "iscsi-direct",
                                   "scsi", "multipath", "rbd", "gluster", "zfs", "vstorage"}

  /** `min_length=1` on an optional string. */
  predicate NonEmptyIfSet(s: Option<string>)
  {
    s.None? || |s.value| >= 1
  }

  predicate FieldsValid(p: PoolInfo)
  {
    && p.kind in PoolTypes
    && |p.name| >= 1
    && (p.features.Some? && p.features.value.cow.Some? ==> p.features.value.cow.value in {"yes", "no"})
    && (p.source.Some? ==> var s := p.source.value;
          NonEmptyIfSet(s.format) && NonEmptyIfSet(s.dir) && NonEmptyIfSet(s.initiator)
          && NonEmptyIfSet(s.adapter) && NonEmptyIfSet(s.name))
    && (p.target.Some? ==> |p.target.value.path| >= 1)
  }

  // ---------------------------------------------------------------------
  // check_features and check_target

  /** `check_features`: the `cow` feature belongs to directory and filesystem pools only. */
  function CheckFeatures(p: PoolInfo): (r: Check)
    ensures r.Fail? ==> r.error == ValueError
    ensures r.Pass? <==> p.features.None? || p.features.value.cow.None? || p.kind in {"dir", "fs"}
  {
    if p.features.None? then Pass
    else if p.features.value.cow.Some? && p.kind !in {"dir", "fs"} then Fail(ValueError)
    else Pass
  }

  /** The pool kinds that need a target. */
  const TargetTypes: set<string> := {"dir", "fs", "netfs", "logical", "disk", "iscsi", "scsi", "vstorage"}

  /** `check_target`: a target is required for some kinds and refused for all others. */
  function CheckTarget(p: PoolInfo): (r: Check)
    ensures r.Fail? ==> r.error == ValueError
    ensures r.Pass? <==> (p.target.Some? <==> p.kind in TargetTypes)
  {
    if p.kind in TargetTypes then
      if p.target.None? then Fail(ValueError) else Pass
    else
      if p.target.Some? then Fail(ValueError) else Pass
  }

  // ---------------------------------------------------------------------
  // check_source

  /** The properties of `PoolSource`. */
  datatype SourceProp = Format | Dir | Devices | Hosts | Initiator | Adapter | Name

  const SourceProps: set<SourceProp> := {Format, Dir, Devices, Hosts, Initiator, Adapter, Name}

  /** `getattr(source, prop) is not None`. */
  predicate IsSet(s: PoolSource, prop: SourceProp)
  {
    match prop
    case Format => s.format.Some?
    case Dir => s.dir.Some?
    case Devices => s.devices.Some?
    case Hosts => s.hosts.Some?
    case Initiator => s.initiator.Some?
    case Adapter => s.adapter.Some?
    case Name => s.name.Some?
  }

  /** Python truthiness of an optional string. */
  predicate Truthy(s: Option<string>)
  {
    s.Some? && s.value != ""
  }

  const FsFormats: set<string> := {"auto", "ext2", "ext3", "ext4", "ufs", "iso9660", "udf", "gfs", "gfs2",
                                   "vfat", "hfs+", "xfs", "ocfs2", "vmfs"}
  const NetfsFormats: set<string> := {"auto", "nfs", "gluster", "cifs"}
  const DiskFormats: set<string> := {"dos", "gpt", "dvh", "mac", "bsd", "pc98", "sun"}

  /** The source formats a pool kind accepts; empty for the kinds that have no format. */
  function FormatsFor(kind: string): set<string>
  {
    if kind == "fs" then FsFormats
    else if kind == "netfs" then NetfsFormats
    else if kind == "disk" then DiskFormats
    else {}
  }

  const DirTypes: set<string> := {"netfs", "gluster"}
  const DeviceTypes: set<string> := {"fs", "logical", "disk", "iscsi", "iscsi-direct"}
  const OneDeviceTypes: set<string> := {"fs", "disk", "iscsi", "iscsi-direct"}
  const HostTypes: set<string> := {"netfs", "iscsi", "iscsi-direct", "rbd", "gluster"}
  const OneHostTypes: set<string> := {"netfs", "iscsi", "iscsi-direct"}
  const NameTypes: set<string> := {"rbd", "gluster", "zfs", "vstorage"}

  /** The source properties a pool kind may set. */
  function Allowed(kind: string): set<SourceProp>
  {
    (if kind in {"fs", "netfs", "disk"} then {Format} else {})
    + (if kind in DirTypes then {Dir} else {})
    + (if kind == "zfs" || kind in DeviceTypes then {Devices} else {})
    + (if kind in HostTypes then {Hosts} else {})
    + (if kind == "iscsi-direct" then {Initiator} else {})
    + (if kind == "scsi" then {Adapter} else {})
    + (if kind in NameTypes then {Name} else {})
  }

  /** What a source must hold for a pool of the given kind. */
  predicate SourceFits(kind: string, s: PoolSource)
  {
    && (FormatsFor(kind) != {} ==> s.format.Some? && s.format.value in FormatsFor(kind))
    && (kind in DirTypes ==> s.dir.Some?)
    && (kind in DeviceTypes ==> s.devices.Some? && (kind in OneDeviceTypes ==> |s.devices.value| == 1))
    && (kind in HostTypes ==> s.hosts.Some? && |s.hosts.value| > 0 && (kind in OneHostTypes ==> |s.hosts.value| == 1))
    && (kind == "iscsi-direct" ==> Truthy(s.initiator))
    && (kind == "scsi" ==> Truthy(s.adapter))
    && (kind in NameTypes ==> Truthy(s.name))
    && (forall prop :: prop in SourceProps && prop !in Allowed(kind) ==> !IsSet(s, prop))
  }

  /** The source rule: directory and multipath pools take no source, every other kind needs a fitting one. */
  predicate SourceValid(kind: string, source: Option<PoolSource>)
  {
    if kind in {"dir", "multipath"} then source.None?
    else source.Some? && SourceFits(kind, source.value)
  }

  /**
   * `check_source`: discard from the full property set what the kind
   * allows, checking each requirement on the way, then refuse any remaining
   * property that is set.
   */
  method CheckSource(p: PoolInfo) returns (r: Check)
    ensures r == if SourceValid(p.kind, p.source) then Pass else Fail(ValueError)
  {
    if p.kind in {"dir", "multipath"} {
      if p.source.Some? {
        return Fail(ValueError);
      }
      return Pass;
    }
    if p.source.None? {
      return Fail(ValueError);
    }
    var s := p.source.value;
    var t := p.kind;
    var invalid := SourceProps;
    var validFormats: set<string>;
    if t == "fs" {
      invalid := invalid - {Format};
      validFormats := FsFormats;
    } else if t == "netfs" {
      invalid := invalid - {Format};
      validFormats := NetfsFormats;
    } else if t == "disk" {
      invalid := invalid - {Format};
      validFormats := DiskFormats;
    } else {
      validFormats := {};
    }
    if validFormats != {} {
      if s.format.None? {
        return Fail(ValueError);
      } else if s.format.value !in validFormats {
        return Fail(ValueError);
      }
    }
    if t in DirTypes {
      if s.dir.None? {
        return Fail(ValueError);
      }
      invalid := invalid - {Dir};
    }
    if t == "zfs" {
      invalid := invalid - {Devices};
    }
    if t in DeviceTypes {
      if s.devices.None? {
        return Fail(ValueError);
      }
      invalid := invalid - {Devices};
      if t in OneDeviceTypes && |s.devices.value| != 1 {
        return Fail(ValueError);
      }
    }
    if t in HostTypes {
      if s.hosts.None? || |s.hosts.value| == 0 {
        return Fail(ValueError);
      }
      invalid := invalid - {Hosts};
      if t in OneHostTypes && |s.hosts.value| != 1 {
        return Fail(ValueError);
      }
    }
    if t == "iscsi-direct" {
      if !Truthy(s.initiator) {
        return Fail(ValueError);
      }
      invalid := invalid - {Initiator};
    }
    if t == "scsi" {
      if !Truthy(s.adapter) {
        return Fail(ValueError);
      }
      invalid := invalid - {Adapter};
    }
    if t in NameTypes {
      if !Truthy(s.name) {
        return Fail(ValueError);
      }
      invalid := invalid - {Name};
    }
    assert validFormats == FormatsFor(t);
    assert invalid == SourceProps - Allowed(t);
    while invalid != {}
      invariant invalid <= SourceProps - Allowed(t)
      invariant forall prop :: prop in SourceProps - Allowed(t) && prop !in invalid ==> !IsSet(s, prop)
      decreases invalid
    {
      var prop :| prop in invalid;
      if IsSet(s, prop) {
        return Fail(ValueError);
      }
      invalid := invalid - {prop};
    }
    return Pass;
  }

  // ---------------------------------------------------------------------
  // The whole model

  /** Field constraints first, then the validators in declaration order. */
  function Validate(p: PoolInfo): Check
  {
    if !FieldsValid(p) then Fail(ValueError)
    else if CheckFeatures(p).Fail? then CheckFeatures(p)
    else if !SourceValid(p.kind, p.source) then Fail(ValueError)
    else CheckTarget(p)
  }

  /** `PoolInfo(...)`: validation of a pool description. */
  method ValidatePool(p: PoolInfo) returns (r: Check)
    ensures r == Validate(p)
  {
    if !FieldsValid(p) {
      return Fail(ValueError);
    }
    r := CheckFeatures(p);
    if r.Fail? {
      return;
    }
    r := CheckSource(p);
    if r.Fail? {
      return;
    }
    r := CheckTarget(p);
  }

  /** The only error is ValueError. */
  lemma OnlyValueError(p: PoolInfo)
    ensures Validate(p).Fail? ==> Validate(p).error == ValueError
  {
  }

  /** A property the kind does not allow is unset in a fitting source. */
  lemma Unset(kind: string, s: PoolSource, prop: SourceProp)
    requires SourceFits(kind, s) && prop !in Allowed(kind)
    ensures !IsSet(s, prop)
  {
    assert prop in SourceProps;
  }

  /** A valid pool has one of the thirteen kinds, a name, `yes`/`no` for `cow`, and a non-empty target path. */
  lemma ValidFields(p: PoolInfo)
    requires Validate(p) == Pass
    ensures p.kind in PoolTypes && p.name != ""
    ensures p.features.Some? && p.features.value.cow.Some? ==>
      p.features.value.cow.value in {"yes", "no"} && p.kind in {"dir", "fs"}
    ensures p.target.Some? ==> p.target.value.path != ""
  {
  }

  /** A valid pool has a source exactly when it is neither a directory nor a multipath pool. */
  lemma SourcePresence(p: PoolInfo)
    requires Validate(p) == Pass
    ensures p.source.None? <==> p.kind in {"dir", "multipath"}
  {
  }

  /** Filesystem, network-filesystem and disk pools carry a format from their own set; other sources carry none. */
  lemma FormatRule(p: PoolInfo)
    requires Validate(p) == Pass && p.source.Some?
    ensures p.kind in {"fs", "netfs", "disk"} ==>
      p.source.value.format.Some? && p.source.value.format.value in FormatsFor(p.kind)
    ensures p.kind !in {"fs", "netfs", "disk"} ==> p.source.value.format.None?
  {
    if p.kind !in {"fs", "netfs", "disk"} {
      Unset(p.kind, p.source.value, Format);
    }
  }

  /** Devices: required (one of them, except for logical pools) by the device kinds, allowed for zfs, refused elsewhere. */
  lemma DeviceRule(p: PoolInfo)
    requires Validate(p) == Pass && p.source.Some?
    ensures p.kind in DeviceTypes ==> p.source.value.devices.Some?
    ensures p.kind in OneDeviceTypes ==> |p.source.value.devices.value| == 1
    ensures p.kind !in DeviceTypes && p.kind != "zfs" ==> p.source.value.devices.None?
  {
    if p.kind !in DeviceTypes && p.kind != "zfs" {
      Unset(p.kind, p.source.value, Devices);
    }
  }

  /** Hosts: at least one for the host kinds, exactly one for netfs and iSCSI, none elsewhere. */
  lemma HostRule(p: PoolInfo)
    requires Validate(p) == Pass && p.source.Some?
    ensures p.kind in HostTypes ==> p.source.value.hosts.Some? && |p.source.value.hosts.value| >= 1
    ensures p.kind in OneHostTypes ==> |p.source.value.hosts.value| == 1
    ensures p.kind !in HostTypes ==> p.source.value.hosts.None?
  {
    if p.kind !in HostTypes {
      Unset(p.kind, p.source.value, Hosts);
    }
  }

  /** A source directory is present exactly for network-filesystem and gluster pools. */
  lemma DirRule(p: PoolInfo)
    requires Validate(p) == Pass && p.source.Some?
    ensures p.source.value.dir.Some? <==> p.kind in DirTypes
  {
    if p.kind !in DirTypes { Unset(p.kind, p.source.value, Dir); }
  }

  /** An initiator is present, and non-empty, exactly for direct iSCSI pools. */
  lemma InitiatorRule(p: PoolInfo)
    requires Validate(p) == Pass && p.source.Some?
    ensures Truthy(p.source.value.initiator) <==> p.kind == "iscsi-direct"
    ensures p.kind != "iscsi-direct" ==> p.source.value.initiator.None?
  {
    if p.kind != "iscsi-direct" { Unset(p.kind, p.source.value, Initiator); }
  }

  /** An adapter is present, and non-empty, exactly for SCSI pools. */
  lemma AdapterRule(p: PoolInfo)
    requires Validate(p) == Pass && p.source.Some?
    ensures Truthy(p.source.value.adapter) <==> p.kind == "scsi"
    ensures p.kind != "scsi" ==> p.source.value.adapter.None?
  {
    if p.kind != "scsi" { Unset(p.kind, p.source.value, Adapter); }
  }

  /** A source name is present, and non-empty, exactly for rbd, gluster, zfs and vstorage pools. */
  lemma NameRule(p: PoolInfo)
    requires Validate(p) == Pass && p.source.Some?
    ensures Truthy(p.source.value.name) <==> p.kind in NameTypes
    ensures p.kind !in NameTypes ==> p.source.value.name.None?
  {
    if p.kind !in NameTypes { Unset(p.kind, p.source.value, Name); }
  }

  /** A valid pool has a target exactly for the kinds that need one. */
  lemma TargetRule(p: PoolInfo)
    requires Validate(p) == Pass
    ensures p.target.Some? <==> p.kind in TargetTypes
  {
  }

  // ---------------------------------------------------------------------
  // Every kind can be satisfied

  /** A smallest description each kind accepts. */
  function Minimal(kind: string): PoolInfo
  {
    var format := if kind == "fs" then Some("auto") else if kind == "netfs" then Some("nfs")
      else if kind == "disk" then Some("gpt") else None;
    var source := PoolSource(
      format,
      if kind in DirTypes then Some("/export") else None,
      if kind in DeviceTypes then Some(["/dev/sda"]) else None,
      if kind in HostTypes then Some(["host"]) else None,
      if kind == "iscsi-direct" then Some("iqn") else None,
      if kind == "scsi" then Some("host0") else None,
      if kind in NameTypes then Some("pool") else None);
    PoolInfo(kind, "pool", None,
             if kind in {"dir", "multipath"} then None else Some(source),
             if kind in TargetTypes then Some(PoolTarget("/pool")) else None)
  }

  /** The rules never contradict each other: every one of the thirteen kinds has a valid description. */
  lemma MinimalIsValid(kind: string)
    requires kind in PoolTypes
    ensures Validate(Minimal(kind)) == Pass
  {
    var p := Minimal(kind);
    if kind !in {"dir", "multipath"} {
      MinimalFits(kind);
    }
  }

  lemma MinimalFits(kind: string)
    requires kind in PoolTypes && kind !in {"dir", "multipath"}
    ensures Minimal(kind).source.Some? && SourceFits(kind, Minimal(kind).source.value)
  {
    var s := Minimal(kind).source.value;
    forall prop | prop in SourceProps && prop !in Allowed(kind)
      ensures !IsSet(s, prop)
    {
    }
  }
}
