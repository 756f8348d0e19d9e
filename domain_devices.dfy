/**
 * The device part of the domain templating model
 * (fvirt/libvirt/models/domain.py): the PCI and drive address field
 * patterns, `DiskTargetInfo.check_addr`, `Filesystem.set_src_type`,
 * `InputDevice.check_src`, `GraphicsListener.check_model`,
 * `TPMDevice.check_state` and `Devices.check_controller_indices`.
 *
 * Every pydantic validation failure is modelled as ValueError.
 */
module DomainDevices {
  import opened Wrappers
  import opened Numeric

  // ---------------------------------------------------------------------
  // Hexadecimal address fields

  /** `[0-9a-f]`. */
  predicate LowerHex(c: char)
  {
    '0' <= c <= '9' || 'a' <= c <= 'f'
  }

  /** `^0x[0-9a-f]{w}$`. */
  predicate HexField(s: string, w: nat)
  {
    |s| == w + 2 && s[0] == '0' && s[1] == 'x' && forall i :: 2 <= i < |s| ==> LowerHex(s[i])
  }

  function HexChar(d: nat): (c: char)
    requires d < 16
    ensures LowerHex(c)
  {
    if d < 10 then ('0' as int + d) as char else ('a' as int + d - 10) as char
  }

  function HexCharValue(c: char): (d: nat)
    requires LowerHex(c)
    ensures d < 16 && HexChar(d) == c
  {
    if c <= '9' then c as int - '0' as int else c as int - 'a' as int + 10
  }

  /** `w` lower-case hex digits of `n`, most significant first. */
  function HexDigits(n: nat, w: nat): (s: string)
    ensures |s| == w && forall i :: 0 <= i < w ==> LowerHex(s[i])
    decreases w
  {
    if w == 0 then "" else HexDigits(n / 16, w - 1) + [HexChar(n % 16)]
  }

  function HexValue(s: string): nat
    requires forall i :: 0 <= i < |s| ==> LowerHex(s[i])
    decreases |s|
  {
    if s == [] then 0 else HexValue(s[..|s| - 1]) * 16 + HexCharValue(s[|s| - 1])
  }

  /** The text of a `w`-digit hex field holding `n`. */
  function HexText(n: nat, w: nat): string
  {
    "0x" + HexDigits(n, w)
  }

  lemma {:induction false} HexDigitsValue(n: nat, w: nat)
    requires n < Pow(16, w)
    ensures HexValue(HexDigits(n, w)) == n
    decreases w
  {
    if w > 0 {
      var s := HexDigits(n, w);
      assert s[..|s| - 1] == HexDigits(n / 16, w - 1);
      HexDigitsValue(n / 16, w - 1);
    }
  }

  lemma {:induction false} HexValueDigits(s: string)
    requires forall i :: 0 <= i < |s| ==> LowerHex(s[i])
    ensures HexValue(s) < Pow(16, |s|)
    ensures HexDigits(HexValue(s), |s|) == s
    decreases |s|
  {
    if s != [] {
      var init := s[..|s| - 1];
      HexValueDigits(init);
      var v := HexValue(s);
      var d := HexCharValue(s[|s| - 1]);
      assert v == HexValue(init) * 16 + d;
      assert v / 16 == HexValue(init) && v % 16 == d;
      assert s == init + [s[|s| - 1]];
    }
  }

  /** A number that fits in `w` hex digits gives a matching field that reads back as the number. */
  lemma HexTextField(n: nat, w: nat)
    requires n < Pow(16, w)
    ensures HexField(HexText(n, w), w)
    ensures HexValue(HexText(n, w)[2..]) == n
  {
    assert HexText(n, w)[2..] == HexDigits(n, w);
    HexDigitsValue(n, w);
  }

  /** Every matching field is the text of its value. */
  lemma HexFieldText(s: string, w: nat)
    requires HexField(s, w)
    ensures HexValue(s[2..]) < Pow(16, w) && s == HexText(HexValue(s[2..]), w)
  {
    HexValueDigits(s[2..]);
    assert s == "0x" + s[2..];
  }

  // ---------------------------------------------------------------------
  // Addresses

  /** `PCIAddress`; `func` is the `function` field. */
  datatype PciAddress = PciAddress(bus: string, slot: string, func: string,
                                   domain: Option<string>, multifunction: Option<string>)

  predicate PciValid(a: PciAddress)
  {
    && HexField(a.bus, 2) && HexField(a.slot, 2) && HexField(a.func, 1)
    && (a.domain.Some? ==> HexField(a.domain.value, 4))
    && (a.multifunction.Some? ==> a.multifunction.value in {"on", "off"})
  }

  /** The address of a given bus, slot and function, with the default domain and multifunction. */
  lemma PciFromNumbers(bus: nat, slot: nat, func: nat)
    requires bus < 256 && slot < 256 && func < 16
    ensures PciValid(PciAddress(HexText(bus, 2), HexText(slot, 2), HexText(func, 1), None, None))
  {
    assert Pow(16, 2) == 256 && Pow(16, 1) == 16;
    HexTextField(bus, 2);
    HexTextField(slot, 2);
    HexTextField(func, 1);
  }

  /** The default `function` value `0x0` satisfies its own pattern. */
  lemma DefaultFunctionValid()
    ensures HexField("0x0", 1) && HexValue("0x0"[2..]) == 0
  {
    assert "0x0"[2..] == "0";
    assert "0"[..0] == "";
  }

  /** `DriveAddress`. */
  datatype DriveAddress = DriveAddress(controller: Option<int>, bus: int, target: int, unit: int)

  predicate DriveValid(a: DriveAddress)
  {
    (a.controller.Some? ==> a.controller.value >= 0) && a.bus >= 0 && a.target >= 0 && a.unit >= 0
  }

  /** `addr: PCIAddress | DriveAddress | None` of a disk target. */
  datatype DiskAddress = Pci(pci: PciAddress) | Drive(drive: DriveAddress)

  /** The buses each address kind is accepted on. */
  function BusesFor(addr: DiskAddress): set<string>
  {
    match addr
    case Pci(_) => {"virtio", "xen"}
    case Drive(_) => {"scsi", "ide", "usb", "sata", "sd"}
  }

  /** `DiskTargetInfo.check_addr`. */
  function CheckAddr(addr: Option<DiskAddress>, bus: Option<string>): (r: Check)
    ensures r.Pass? <==> addr.None? || (bus.Some? && bus.value in BusesFor(addr.value))
    ensures r.Fail? ==> r.error == ValueError
  {
    if addr.None? then Pass
    else if bus.None? then Fail(ValueError)
    else match addr.value
      case Pci(_) => if bus.value !in {"virtio", "xen"} then Fail(ValueError) else Pass
      case Drive(_) => if bus.value !in {"scsi", "ide", "usb", "sata", "sd"} then Fail(ValueError) else Pass
  }

  /** No bus takes both kinds of address. */
  lemma BusesDisjoint(p: PciAddress, d: DriveAddress, bus: string)
    ensures !(CheckAddr(Some(Pci(p)), Some(bus)).Pass? && CheckAddr(Some(Drive(d)), Some(bus)).Pass?)
  {
  }

  // ---------------------------------------------------------------------
  // Filesystem

  /** The `src_type` `set_src_type` leaves for a filesystem of type `kind`. */
  function SrcTypeAfter(kind: string, srcType: Option<string>): (r: Option<string>)
    ensures srcType.Some? ==> r == srcType
    ensures r.None? <==> srcType.None? && kind !in {"ram", "template", "file"}
  {
    if srcType.None? then
      if kind == "ram" then Some("usage")
      else if kind == "template" then Some("name")
      else if kind == "file" then Some("file")
      else None
    else srcType
  }

  /** Filling in the source type a second time changes nothing. */
  lemma SrcTypeIdempotent(kind: string, srcType: Option<string>)
    ensures SrcTypeAfter(kind, SrcTypeAfter(kind, srcType)) == SrcTypeAfter(kind, srcType)
  {
  }

  /** `Filesystem`: only `src_type` is written after construction. */
  class Filesystem {
    const kind: string              // the `type` field
    var srcType: Option<string>

    constructor(kind: string, srcType: Option<string>)
      ensures this.kind == kind && this.srcType == srcType
    {
      this.kind := kind;
      this.srcType := srcType;
    }

    /** `set_src_type`. */
    method SetSrcType()
      modifies this
      ensures srcType == SrcTypeAfter(kind, old(srcType))
    {
      if srcType.None? {
        if kind == "ram" {
          srcType := Some("usage");
        } else if kind == "template" {
          srcType := Some("name");
        } else if kind == "file" {
          srcType := Some("file");
        }
      }
    }
  }

  // ---------------------------------------------------------------------
  // Input and TPM devices

  /** `InputDevice.check_src`: passthrough and evdev inputs need a source. */
  function CheckInputSource(kind: string, hasSource: bool): (r: Check)
    ensures r.Pass? <==> hasSource || kind !in {"passthrough", "evdev"}
    ensures r.Fail? ==> r.error == ValueError
  {
    if kind in {"passthrough", "evdev"} && !hasSource then Fail(ValueError) else Pass
  }

  /** `TPMDevice.check_state`. */
  function CheckTpm(kind: string, dev: Option<string>): (r: Check)
    ensures kind == "passthrough" ==> (r.Pass? <==> dev.Some?)
    ensures kind == "emulator" ==> r.Pass?
    ensures kind !in {"passthrough", "emulator"} ==> r == Fail(RuntimeError)
  {
    match kind
    case "passthrough" => if dev.None? then Fail(ValueError) else Pass
    case "emulator" => Pass
    case _ => Fail(RuntimeError)
  }

  /** Pydantic validation of a TPM device: the `type` pattern, then `check_state`. */
  function ValidateTpm(kind: string, dev: Option<string>): (r: Check)
  {
    if kind !in {"passthrough", "emulator"} || (dev.Some? && dev.value == "") then Fail(ValueError)
    else CheckTpm(kind, dev)
  }

  /** The field pattern keeps `check_state`'s RuntimeError branch out of reach. */
  lemma TpmNeverRuntimeError(kind: string, dev: Option<string>)
    ensures ValidateTpm(kind, dev).Fail? ==> ValidateTpm(kind, dev).error == ValueError
    ensures ValidateTpm(kind, dev).Pass?
        <==> ((kind == "emulator" || (kind == "passthrough" && dev.Some?)) && (dev.Some? ==> dev.value != ""))
  {
  }

  // ---------------------------------------------------------------------
  // Graphics listeners

  /** `GraphicsListener`; `kind` is the `type` field. */
  datatype Listener = Listener(kind: string, address: Option<string>, network: Option<string>,
                               socket: Option<string>)

  datatype ListenerField = AddressField | NetworkField | SocketField

  function Field(l: Listener, f: ListenerField): Option<string>
  {
    match f
    case AddressField => l.address
    case NetworkField => l.network
    case SocketField => l.socket
  }

  /** The field a listener type requires. */
  function Required(kind: string): Option<ListenerField>
  {
    match kind
    case "address" => Some(AddressField)
    case "network" => Some(NetworkField)
    case "socket" => Some(SocketField)
    case _ => None
  }

  const ListenerKinds: set<string> := {"address", "network", "socket", "none"}

  /** The `none_props` tuple of each listener type, as written. */
  function NoneProps(kind: string): seq<ListenerField>
  {
    match kind
    case "address" => [NetworkField, AddressField]
    case "network" => [AddressField, SocketField]
    case "socket" => [AddressField, NetworkField]
    case _ => [AddressField, NetworkField, SocketField]
  }

  /** `none_props` with the evidently intended tuple for `address`. */
  function IntendedNoneProps(kind: string): seq<ListenerField>
  {
    if kind == "address" then [NetworkField, SocketField] else NoneProps(kind)
  }

  /** The body of `check_model` for a given `none_props` table. */
  function CheckListenerWith(l: Listener, noneProps: seq<ListenerField>): (r: Check)
    ensures r.Pass? <==>
      (&& l.kind in ListenerKinds
       && (Required(l.kind).Some? ==> Field(l, Required(l.kind).value).Some?)
       && forall k :: 0 <= k < |noneProps| ==> Field(l, noneProps[k]).None?)
    ensures l.kind !in ListenerKinds ==> r == Fail(RuntimeError)
  {
    if l.kind !in ListenerKinds then Fail(RuntimeError)
    else if Required(l.kind).Some? && Field(l, Required(l.kind).value).None? then Fail(ValueError)
    else if exists k :: 0 <= k < |noneProps| && Field(l, noneProps[k]).Some? then Fail(ValueError)
    else Pass
  }

  /** `GraphicsListener.check_model` as written. */
  function CheckListener(l: Listener): Check
  {
    CheckListenerWith(l, NoneProps(l.kind))
  }

  /** `check_model` with the corrected `address` row. */
  function IntendedCheckListener(l: Listener): Check
  {
    CheckListenerWith(l, IntendedNoneProps(l.kind))
  }

  lemma NonePropsCover(kind: string, f: ListenerField)
    requires kind in {"network", "socket", "none"} && Required(kind) != Some(f)
    ensures f in NoneProps(kind)
  {
  }

  lemma NonePropsExclude(kind: string, k: int)
    requires kind in {"network", "socket", "none"} && 0 <= k < |NoneProps(kind)|
    ensures Required(kind) != Some(NoneProps(kind)[k])
  {
  }

  lemma IntendedNonePropsCover(kind: string, f: ListenerField)
    requires kind in ListenerKinds && Required(kind) != Some(f)
    ensures f in IntendedNoneProps(kind)
  {
  }

  lemma IntendedNonePropsExclude(kind: string, k: int)
    requires kind in ListenerKinds && 0 <= k < |IntendedNoneProps(kind)|
    ensures Required(kind) != Some(IntendedNoneProps(kind)[k])
  {
  }

  /** As written, an `address` listener always fails: `address` is both required and forbidden. */
  lemma AddressListenerNeverValid(l: Listener)
    requires l.kind == "address"
    ensures CheckListener(l) == Fail(ValueError)
  {
    assert NoneProps(l.kind)[1] == AddressField;
  }

  /** As written, the other three types accept exactly the listeners that set only their own field. */
  lemma OtherListenersExact(l: Listener)
    requires l.kind in {"network", "socket", "none"}
    ensures CheckListener(l).Pass?
        <==> forall f :: Field(l, f).Some? <==> Required(l.kind) == Some(f)
  {
    var np := NoneProps(l.kind);
    if CheckListener(l).Pass? {
      forall f ensures Field(l, f).Some? <==> Required(l.kind) == Some(f) {
        if Required(l.kind) != Some(f) {
          NonePropsCover(l.kind, f);
          var k :| 0 <= k < |np| && np[k] == f;
        }
      }
    }
    if forall f :: Field(l, f).Some? <==> Required(l.kind) == Some(f) {
      forall k | 0 <= k < |np| ensures Field(l, np[k]).None? {
        NonePropsExclude(l.kind, k);
      }
    }
  }

  /** The corrected check accepts, for every type, exactly the listeners that set only that type's field. */
  lemma IntendedListenersExact(l: Listener)
    requires l.kind in ListenerKinds
    ensures IntendedCheckListener(l).Pass?
        <==> forall f :: Field(l, f).Some? <==> Required(l.kind) == Some(f)
  {
    var np := IntendedNoneProps(l.kind);
    if IntendedCheckListener(l).Pass? {
      forall f ensures Field(l, f).Some? <==> Required(l.kind) == Some(f) {
        if Required(l.kind) != Some(f) {
          IntendedNonePropsCover(l.kind, f);
          var k :| 0 <= k < |np| && np[k] == f;
        }
      }
    }
    if forall f :: Field(l, f).Some? <==> Required(l.kind) == Some(f) {
      forall k | 0 <= k < |np| ensures Field(l, np[k]).None? {
        IntendedNonePropsExclude(l.kind, k);
      }
    }
  }

  /** The listener `type="address" address="0.0.0.0"` that the written check refuses and the corrected one accepts. */
  lemma AddressListenerSample()
    ensures CheckListener(Listener("address", Some("0.0.0.0"), None, None)).Fail?
    ensures IntendedCheckListener(Listener("address", Some("0.0.0.0"), None, None)).Pass?
  {
    AddressListenerNeverValid(Listener("address", Some("0.0.0.0"), None, None));
  }

  // ---------------------------------------------------------------------
  // Controller indices

  /** The controller indices given, without the absent ones. */
  function IndexSet(indices: seq<Option<int>>): set<int>
  {
    set k | 0 <= k < |indices| && indices[k].Some? :: indices[k].value
  }

  /** No two controllers share an index. */
  predicate DistinctIndices(indices: seq<Option<int>>)
  {
    forall i, j :: 0 <= i < j < |indices| && indices[i].Some? && indices[j].Some? ==>
      indices[i].value != indices[j].value
  }

  /** `Devices.check_controller_indices`, over the `index` of each controller in order. */
  method CheckControllerIndices(indices: seq<Option<int>>) returns (r: Check)
    ensures r.Pass? <==> DistinctIndices(indices)
    ensures r.Fail? ==> r.error == ValueError
  {
    var seen: set<int> := {};
    var i := 0;
    while i < |indices|
      invariant 0 <= i <= |indices|
      invariant seen == IndexSet(indices[..i])
      invariant DistinctIndices(indices[..i])
    {
      var item := indices[i];
      if item.None? {
        assert indices[..i + 1] == indices[..i] + [item];
        i := i + 1;
        continue;
      } else if item.value in seen {
        var k :| 0 <= k < i && indices[..i][k].Some? && indices[..i][k].value == item.value;
        assert indices[k].Some? && indices[k].value == indices[i].value;
        return Fail(ValueError);
      } else {
        assert indices[..i + 1] == indices[..i] + [item];
        seen := seen + {item.value};
        i := i + 1;
      }
    }
    assert indices[..i] == indices;
    return Pass;
  }
}
