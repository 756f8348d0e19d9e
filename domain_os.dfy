/**
 * The `OSInfo` part of the domain templating model
 * (fvirt/libvirt/models/domain.py): the `variant` field decides which
 * boot properties may be given, and `check_variant` rejects every
 * truthy property outside that choice.
 *
 * Nested models (`OSFWLoaderInfo`, `OSFWNVRAMInfo`, `OSContainerIDMapInfo`)
 * are kept only as present or absent: pydantic models define no
 * truthiness of their own, so a present one is always truthy.
 */
module DomainOs {
  import opened Wrappers

  /** `loader: OSFWLoaderInfo | str | None`. */
  datatype BootLoader = NoLoader | PathLoader(path: string) | FirmwareLoader

  datatype OsInfo = OsInfo(
    variant: string,
    firmware: Option<string>,
    arch: Option<string>,
    machine: Option<string>,
    kind: Option<string>,          // the `type` field
    loader: BootLoader,
    nvram: bool,                   // an `OSFWNVRAMInfo` is present
    bootloader: Option<string>,
    bootloaderArgs: Option<string>,
    kernel: Option<string>,
    initrd: Option<string>,
    cmdline: Option<string>,
    dtb: Option<string>,
    init: Option<string>,
    initargs: seq<string>,
    initenv: map<string, string>,
    initdir: Option<string>,
    inituser: Option<string>,
    initgroup: Option<string>,
    idmap: bool)                   // an `OSContainerIDMapInfo` is present

  /** The properties `check_variant` tests for truthiness. */
  datatype OsProp =
    | Loader | Nvram | Bootloader | BootloaderArgs | Kernel | Initrd | Cmdline | Dtb
    | Init | Initargs | Initenv | Initdir | Inituser | Initgroup | Idmap

  const AllProps: set<OsProp> :=
    {Loader, Nvram, Bootloader, BootloaderArgs, Kernel, Initrd, Cmdline, Dtb,
     Init, Initargs, Initenv, Initdir, Inituser, Initgroup, Idmap}

  const Variants: set<string> := {"firmware", "host", "direct", "container", "test"}

  /** Python truthiness of an optional string: present and non-empty. */
  predicate TruthyStr(s: Option<string>)
  {
    s.Some? && s.value != ""
  }

  /** `bool(getattr(os, prop))`. */
  predicate Truthy(os: OsInfo, prop: OsProp)
  {
    match prop
    case Loader => os.loader.FirmwareLoader? || (os.loader.PathLoader? && os.loader.path != "")
    case Nvram => os.nvram
    case Bootloader => TruthyStr(os.bootloader)
    case BootloaderArgs => TruthyStr(os.bootloaderArgs)
    case Kernel => TruthyStr(os.kernel)
    case Initrd => TruthyStr(os.initrd)
    case Cmdline => TruthyStr(os.cmdline)
    case Dtb => TruthyStr(os.dtb)
    case Init => TruthyStr(os.init)
    case Initargs => |os.initargs| > 0
    case Initenv => |os.initenv| > 0
    case Initdir => TruthyStr(os.initdir)
    case Inituser => TruthyStr(os.inituser)
    case Initgroup => TruthyStr(os.initgroup)
    case Idmap => os.idmap
  }

  /** The `invalid_props` set of each variant. */
  function InvalidProps(variant: string): set<OsProp>
  {
    match variant
    case "firmware" =>
      {Bootloader, BootloaderArgs, Kernel, Initrd, Cmdline, Dtb,
       Init, Initargs, Initenv, Initdir, Inituser, Initgroup, Idmap}
    case "host" =>
      {Loader, Nvram, Kernel, Initrd, Cmdline, Dtb,
       Init, Initargs, Initenv, Initdir, Inituser, Initgroup, Idmap}
    case "direct" =>
      {Nvram, Bootloader, BootloaderArgs, Init, Initargs, Initenv, Initdir, Inituser, Initgroup, Idmap}
    case "container" =>
      {Loader, Nvram, Bootloader, BootloaderArgs, Kernel, Initrd, Cmdline, Dtb}
    case _ => AllProps
  }

  /** The properties the `OSInfo` documentation says each variant honours. */
  function Honoured(variant: string): set<OsProp>
  {
    match variant
    case "firmware" => {Loader, Nvram}
    case "host" => {Bootloader, BootloaderArgs}
    case "direct" => {Loader, Kernel, Initrd, Cmdline, Dtb}
    case "container" => {Init, Initargs, Initenv, Initdir, Inituser, Initgroup, Idmap}
    case _ => {}
  }

  /** Each forbidden set is exactly the complement of what the variant honours. */
  lemma InvalidIsComplement(variant: string)
    requires variant in Variants
    ensures InvalidProps(variant) == AllProps - Honoured(variant)
  {
    var inv := InvalidProps(variant);
    var rest := AllProps - Honoured(variant);
    forall p ensures p in inv <==> p in rest {
      match p
      case Loader =>
      case Nvram =>
      case Bootloader =>
      case BootloaderArgs =>
      case Kernel =>
      case Initrd =>
      case Cmdline =>
      case Dtb =>
      case Init =>
      case Initargs =>
      case Initenv =>
      case Initdir =>
      case Inituser =>
      case Initgroup =>
      case Idmap =>
    }
  }

  /** `check_variant`: the variant's own conditions, then the forbidden-property scan. */
  function CheckVariant(os: OsInfo): (r: Check)
    ensures r.Fail? && os.variant in Variants ==> r.error == ValueError
    ensures os.variant !in Variants ==> r == Fail(RuntimeError)
  {
    if os.variant !in Variants then Fail(RuntimeError)
    else if os.variant == "firmware" && os.loader.PathLoader? then Fail(ValueError)
    else if os.variant == "firmware" && os.nvram && os.loader.NoLoader? then Fail(ValueError)
    else if os.variant == "direct" && os.loader.FirmwareLoader? then Fail(ValueError)
    else if os.variant == "test" && os.arch.None? then Fail(ValueError)
    else if exists p :: p in InvalidProps(os.variant) && Truthy(os, p) then Fail(ValueError)
    else Pass
  }

  /** Each variant's own precondition, beside the honoured-property rule. */
  predicate VariantCondition(os: OsInfo)
  {
    match os.variant
    case "firmware" => !os.loader.PathLoader? && (os.nvram ==> !os.loader.NoLoader?)
    case "direct" => !os.loader.FirmwareLoader?
    case "test" => os.arch.Some?
    case _ => true
  }

  /**
   * A known variant passes exactly when its own condition holds and every
   * truthy property is one the variant honours.
   */
  lemma CheckVariantHonoured(os: OsInfo)
    requires os.variant in Variants
    ensures CheckVariant(os).Pass?
        <==> VariantCondition(os) && forall p :: Truthy(os, p) ==> p in Honoured(os.variant)
  {
    InvalidIsComplement(os.variant);
    if forall p :: Truthy(os, p) ==> p in Honoured(os.variant) {
      assert !exists p :: p in InvalidProps(os.variant) && Truthy(os, p);
    } else {
      var p :| Truthy(os, p) && p !in Honoured(os.variant);
      assert p in AllProps;
    }
  }

  /** The validators' field constraints: a known variant and non-empty strings where `min_length=1`. */
  predicate NonEmpty(s: Option<string>)
  {
    s.Some? ==> s.value != ""
  }

  predicate FieldsValid(os: OsInfo)
  {
    && os.variant in Variants
    && NonEmpty(os.firmware) && NonEmpty(os.arch) && NonEmpty(os.machine) && NonEmpty(os.kind)
    && NonEmpty(os.bootloader) && NonEmpty(os.kernel) && NonEmpty(os.initrd) && NonEmpty(os.cmdline)
    && NonEmpty(os.dtb) && NonEmpty(os.init) && NonEmpty(os.initdir) && NonEmpty(os.inituser)
    && NonEmpty(os.initgroup)
  }

  /** An `OSInfo` with only a variant set. */
  function Bare(variant: string): OsInfo
  {
    OsInfo(variant, None, None, None, None, NoLoader, false, None, None, None, None, None, None,
           None, [], map[], None, None, None, false)
  }

  /** A firmware configuration may not carry a kernel. */
  lemma FirmwareRejectsKernel(os: OsInfo)
    requires os.variant == "firmware" && TruthyStr(os.kernel)
    ensures CheckVariant(os) == Fail(ValueError)
  {
    assert Kernel in InvalidProps("firmware") && Truthy(os, Kernel);
  }

  /** A `test` domain needs an architecture; with one and nothing else it is accepted. */
  lemma TestNeedsArch()
    ensures CheckVariant(Bare("test")) == Fail(ValueError)
    ensures CheckVariant(Bare("test").(arch := Some("x86_64"))).Pass?
  {
    var os := Bare("test").(arch := Some("x86_64"));
    CheckVariantHonoured(os);
    forall p ensures !Truthy(os, p) {
      match p
      case Loader =>
      case Nvram =>
      case Bootloader =>
      case BootloaderArgs =>
      case Kernel =>
      case Initrd =>
      case Cmdline =>
      case Dtb =>
      case Init =>
      case Initargs =>
      case Initenv =>
      case Initdir =>
      case Inituser =>
      case Initgroup =>
      case Idmap =>
    }
  }

  /** An empty `bootloader_args` is falsy, so even a firmware configuration may carry it. */
  lemma EmptyBootloaderArgsIgnored()
    ensures CheckVariant(Bare("firmware").(bootloaderArgs := Some(""))).Pass?
  {
    var os := Bare("firmware").(bootloaderArgs := Some(""));
    CheckVariantHonoured(os);
    forall p ensures !Truthy(os, p) {
      match p
      case Loader =>
      case Nvram =>
      case Bootloader =>
      case BootloaderArgs =>
      case Kernel =>
      case Initrd =>
      case Cmdline =>
      case Dtb =>
      case Init =>
      case Initargs =>
      case Initenv =>
      case Initdir =>
      case Inituser =>
      case Initgroup =>
      case Idmap =>
    }
  }

  /** Pydantic validation of an `OSInfo`: field constraints, then `check_variant`. */
  function Validate(os: OsInfo): (r: Check)
    ensures r.Pass? ==> FieldsValid(os)
    ensures r.Fail? ==> r.error == ValueError
  {
    if !FieldsValid(os) then Fail(ValueError) else CheckVariant(os)
  }
}
