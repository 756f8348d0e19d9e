# fvirt core, modelled in Dafny

fvirt is a command-line front end for libvirt, and virshx is its older sibling. This project models the logic at the centre of both and proves properties of it. That logic falls into five groups:

- **Configuration models.** These are the validators of the pydantic models from which fvirt renders libvirt XML:
  - storage pools, where the pool `type` decides which source, target and feature fields are required or forbidden;
  - volumes, where the pool type decides the legal formats and whether `nocow` and `target` apply;
  - the domain's OS, network, CPU, device and feature settings;
  - the `YesNo`/`OnOff` string-backed booleans.
- **Connection URIs.** The libvirt connection URI value object of virshx covers the driver and transport tables, the constructor's checks and normalisation, `__str__` and `from_string`.
- **Arithmetic.** This covers unit conversion (`unit_to_bytes`), `VersionNumber`, and the decoding of libvirt's packed version integers.
- **Text tables.** This covers the column-list parameter, the column listing, tabulation of entities, both `render_table` variants, and the template file-name filter.
- **Lifecycle state machines.** This covers:
  - the reference-counted `Hypervisor` connection;
  - the wrappers around libvirt domains, storage pools and volumes;
  - `start`, `destroy`, `undefine`, `delete`, `resize`, `build`, `refresh`, `defineVolume`, `reset`, `shutdown` and `managedSave`.

  Each of these answers with a `LifecycleResult` and may invalidate its wrapper.

Each core source file has its own module:

| module | models |
|---|---|
| `Version` | fvirt/version.py |
| `LibvirtApi` | fvirt/libvirt/\_\_init\_\_.py |
| `Common` | virshx/common.py |
| `Units` | virshx/util/units.py |
| `CustomBool` | fvirt/libvirt/models/\_types.py |
| `Templates` | fvirt/templates/\_\_init\_\_.py |
| `Tables` | fvirt/util/tables.py |
| `LibvirtUri` | virshx/libvirt/uri.py |
| `PoolModel` | fvirt/libvirt/models/storage\_pool.py |
| `VolumeModel` | fvirt/libvirt/models/volume.py |
| `DomainNetwork`, `DomainCpu`, `DomainOs`, `DomainDevices`, `DomainFeatures` | fvirt/libvirt/models/domain.py, split by topic |
| `LibvirtHypervisor` | fvirt/libvirt/hypervisor.py |
| `LibvirtEntity` | fvirt/libvirt/entity.py |
| `LibvirtVolume` | fvirt/libvirt/volume.py |
| `LibvirtStoragePool` | fvirt/libvirt/storage\_pool.py |
| `LibvirtDomain` | fvirt/libvirt/domain.py |

Four helper modules support them:

- `Wrappers` holds `Option`, `Result`, `Check` and the exceptions the source raises, as one enumeration.
- `PyStr` gives Python's string operations: `split`, `strip`, the justifications, `str(int)` and `int(str)`.
- `Numeric` holds powers and division facts.
- `TableLayout` holds the column-padding engine that both table renderers share.

The modelling choices:

- Python exceptions become `Err`/`Fail` values naming the exception class; their messages are dropped.
- Code that the source writes as a computation is modelled as functions. Code that updates objects in place is modelled as classes with methods, as the source does:
  - the hypervisor's reference count;
  - an entity's `valid` flag and wrapped object;
  - the pydantic fix-ups that assign fields (`CPUTopology.check`, `fixup_mode`, `set_src_type`, `set_target`, `fixup_vcpus`).
- Each method is tied to a function that states its result.
- A call into libvirt becomes a parameter saying whether the call raises `libvirtError`.
- The wrapped libvirt object is a `Backend`. It records what libvirt reports about it (`isActive`, `isPersistent`, `hasManagedSaveImage`, the volume capacity) and a log of the state-changing calls the wrapper made on it.
- The answers `running` gives while `shutdown` polls are an oracle `polls`.

## Model

| member | source | states |
|---|---|---|
| Version.MakeVersion | fvirt/version.py:13-25 | a version exists exactly when all three components are non-negative, and then holds them as given; otherwise ValueError |
| Version.Eq | fvirt/version.py:36-42 | equality holds exactly against another version with the same three components, never against a non-version |
| Version.GetItem | fvirt/version.py:44-53 | indices 0, 1, 2 give major, minor, release; every other index raises IndexError |
| Version.FromLibvirtVersionNonNegative | fvirt/version.py:70-77 | every non-negative packed integer decodes to (v / 10^6, v / 1000 mod 1000, v mod 1000), short strings included thanks to the `or '0'` fallbacks |
| Version.FromLibvirtVersionNegative | fvirt/version.py:70-77 | a negative packed integer raises ValueError, wherever its minus sign lands among the three slices |
| Version.DecodeFails | fvirt/version.py:73-77 | one slice that does not parse to a non-negative integer is enough for the decoding to raise ValueError |
| Version.PackRoundTrip | fvirt/version.py:70-77 | packing a version with minor and release below 1000 as major*10^6 + minor*1000 + release and decoding it gives the version back |
| Version.StrRoundTrip | fvirt/version.py:27-31 | `str(v)` splits on its dots into exactly the three components, and each parses back as an integer |
| Version.ComponentOfDigits | fvirt/version.py:74-76 | stripping the leading zeros of a digit string and falling back to '0' keeps its decimal value |
| Version.ComponentOfSigned | fvirt/version.py:74-76 | a slice that carries the minus sign never parses to a non-negative component |
| LibvirtApi.ParseAgreesFromOneZero | fvirt/libvirt/__init__.py:33-39 | from libvirt 1.0.0 (packed value at least 10^6) on, `parse_libvirt_version` agrees with `from_libvirt_version` and yields the three packed fields |
| LibvirtApi.ParseFailsBelowOneZero | fvirt/libvirt/__init__.py:33-39 | below 10^6, negative values included, the major slice has no `or '0'` fallback and parsing raises ValueError |
| LibvirtApi.DigitCountAtLeastSeven | fvirt/libvirt/__init__.py:35-38 | a packed value is at least 10^6 exactly when its decimal string has at least seven digits, so the major slice is non-empty |
| Common.GetItem | virshx/common.py:27-36 | indices 0, 1, 2 give major, minor, release; every other index raises IndexError; the constructor (lines 16-19) takes any integers |
| Common.StrRoundTrip | virshx/common.py:21-25 | `str(v)` splits on its dots into the three components and each parses back to `v[k]` |
| Common.ColumnSizes | virshx/common.py:130-134 | succeeds exactly when every row has a cell for every column, and then gives each column the largest of its title's and its cells' lengths; a short row raises IndexError |
| Common.RenderTable | virshx/common.py:120-155 | the rendered text is the header line, a rule of dashes and one line per row, each ended by a newline; a short row raises IndexError |
| Common.WidthIsMax | virshx/common.py:130-134 | each column's width is at least its title and every cell, and equals one of them |
| Common.AllFit | virshx/common.py:136-151 | every title and every cell fits its column, so padding never truncates |
| Common.HeaderShape | virshx/common.py:136-144 | the table has len(items) + 2 lines; the header is one space per column plus the widths long; the rule is four dashes longer than the widths together |
| Common.RowShape | virshx/common.py:146-153 | line j + 2 renders row j, one space plus the column width per cell |
| Common.NewlineCount | virshx/common.py:142-153 | when no title or cell holds a newline the text holds exactly len(items) + 2 newlines |
| Units.Ceil | virshx/util/units.py:58 | `math.ceil`: the least integer not below the real |
| Units.MultiplierFollowsPrefixRule | virshx/util/units.py:28-56 | the case table is exactly the documented rule: B/bytes is 1, a decimal unit kB is 1000^k, a binary unit k or kiB is 1024^k, anything else is unknown |
| Units.Powers | virshx/util/units.py:31-54 | the powers of 1000 and 1024 the table spells out as 10 ** 3k and 2 ** 10k |
| Units.RejectsNegative | virshx/util/units.py:23-26 | a non-number or a negative value raises ValueError whatever the unit |
| Units.UnknownUnit | virshx/util/units.py:55-56 | an unrecognised unit returns the `NotImplemented` sentinel for every valid value instead of raising |
| Units.IntegerConversion | virshx/util/units.py:28-58 | a non-negative integer is scaled exactly by its unit's multiplier, so B and bytes are the identity |
| Units.FloatConversion | virshx/util/units.py:21-58 | a non-negative value with a fractional part, taken as an exact real, is scaled and rounded up to the next whole byte: the result is at least value times multiplier and less than one more |
| Units.BinaryAtLeastDecimal | virshx/util/units.py:31-54 | the short and long binary spellings agree and every binary unit is larger than its decimal counterpart |
| CustomBool.Make | fvirt/libvirt/models/_types.py:34-43 | construction fails with NotImplementedError exactly for the class with empty words; the true word gives true, the false word false, any other value its truthiness |
| CustomBool.Hash | fvirt/libvirt/models/_types.py:45-46 | `hash(x)` is the hash of `bool(x)` |
| CustomBool.OnlySubclasses | fvirt/libvirt/models/_types.py:35-36 | the base class always raises NotImplementedError; `YesNo` and `OnOff` accept every value (see also lines 104-113) |
| CustomBool.WordsRoundTrip | fvirt/libvirt/models/_types.py:38-55 | each class's words build the value they name and print back as themselves |
| CustomBool.StrRoundTrip | fvirt/libvirt/models/_types.py:38-55 | `str(x)` is the true word exactly when `x` is true, and rebuilding from `str(x)` gives `x` back |
| CustomBool.FromBool | fvirt/libvirt/models/_types.py:43-55 | a Python bool builds that bool and prints as the matching word |
| CustomBool.ForeignWord | fvirt/libvirt/models/_types.py:38-43 | another class's word is plain text and falls back to truthiness, so `YesNo('off')` is true and `YesNo('')` is false (see also lines 104-113) |
| Templates.FilterByTables | fvirt/templates/__init__.py:49-60 | a name is accepted exactly when it starts with neither `__` nor `.` and ends with none of `.py`, `.pyc`, `.pyo`, `.swp`, `~` |
| Templates.FilterIsLocal | fvirt/templates/__init__.py:49-60 | the verdict depends only on a name's first two and last four characters |
| Templates.EdgesDecide | fvirt/templates/__init__.py:51-57 | each prefix and suffix test reads only the first two or the last four characters |
| Templates.BackupAndHiddenRejected | fvirt/templates/__init__.py:52-57 | appending `~` or prefixing `.` rejects any name |
| TableLayout.Pad | virshx/common.py:138-140 | a padded cell is as long as the larger of the cell and the width |
| TableLayout.ColMaxIsMax | virshx/common.py:130-134 | a column's width is at least the floor and every cell, and equals the floor or one cell |
| TableLayout.LineLength | virshx/common.py:136-140 | a line whose cells fit is exactly its gaps plus its widths long |
| TableLayout.AppendCells | fvirt/util/tables.py:143-147 | the cell loop appends gap plus padded, aligned cell for each cell; a cell beyond the last column raises IndexError |
| TableLayout.AppendRows | virshx/common.py:146-153 | the row loop appends each row's line and a newline; a row longer than the columns raises IndexError |
| TableLayout.UnlinesNewlines | virshx/common.py:142-153 | newline-free lines give a text with exactly one newline per line |
| TableLayout.LineAvoids | virshx/common.py:136-151 | a character other than a space that is in no cell and not in the gap is not in the line |
| Tables.Pieces | fvirt/util/tables.py:50 | one piece per comma-separated part, each with its surrounding whitespace stripped |
| Tables.Convert | fvirt/util/tables.py:43-58 | `'list'` passes through as `['list']`, `'all'` gives every column key in mapping order, any other accepted result names only known columns; otherwise the option is rejected |
| Tables.ConvertText | fvirt/util/tables.py:49-58 | other text is accepted exactly when every trimmed piece is a known column, yields the pieces in order, and has one more piece than commas |
| Tables.ConvertJoined | fvirt/util/tables.py:49-58 | known, trimmed, comma-free names joined with commas convert back to the same list |
| Tables.ColumnInfo | fvirt/util/tables.py:63-76 | the listing is the heading, one `'  - <key>'` line per column in order, a blank line and the defaults joined with `', '` |
| Tables.BulletAt | fvirt/util/tables.py:71-72 | bullet k is `'  - '` followed by key k |
| Tables.TabulateEntities | fvirt/util/tables.py:87-107 | one row per entity, one cell per selected column in order, a missing attribute read as `'-'`; a selected name that is not a column raises KeyError exactly when there is an entity |
| Tables.CellSizes | fvirt/util/tables.py:121-125 | each column is as wide as its widest cell; columns with no rows raise ValueError (max of nothing); a short row raises IndexError |
| Tables.Sizes | fvirt/util/tables.py:121-130 | with headings each width is raised to its title's length |
| Tables.RenderTable | fvirt/util/tables.py:110-151 | the text is the header and rule (with headings) and one line per row, right-stripped; errors as in `CellSizes` and for rows longer than the columns |
| Tables.Header | fvirt/util/tables.py:132-140 | the heading line and a rule of sum(widths) + 2 * columns dashes |
| Tables.CellWidthIsMax | fvirt/util/tables.py:121-125 | without headings a column's width is its widest cell, reached by some row |
| Tables.TitledWidthIsMax | fvirt/util/tables.py:127-130 | with headings a width is at least the title and every cell and equals one of them |
| Tables.AllFit | fvirt/util/tables.py:121-147 | titles (with headings) and every cell fit their columns |
| Tables.HeadedShape | fvirt/util/tables.py:127-149 | with headings there are len(items) + 2 lines and the rule is exactly as long as the header |
| Tables.PlainShape | fvirt/util/tables.py:142-149 | without headings there is exactly one line per row |
| Tables.RowShape | fvirt/util/tables.py:142-149 | row j renders as two spaces plus the width for each column |
| Tables.Trimmed | fvirt/util/tables.py:151 | the result is the text with its trailing whitespace, and only that, removed |
| LibvirtUri.DriverOf | virshx/libvirt/uri.py:15-35 | looking a driver up by value finds a driver with exactly that value, else ValueError |
| LibvirtUri.DriverRoundTrip | virshx/libvirt/uri.py:15-35 | every driver's value looks that driver up again, `kvm`/`hvf` being aliases of QEMU, and no value is empty |
| LibvirtUri.TransportOf | virshx/libvirt/uri.py:65-75 | looking a transport up by value finds one with exactly that value, else ValueError |
| LibvirtUri.TransportRoundTrip | virshx/libvirt/uri.py:65-75 | every transport's value looks it up again, `LOCAL` being UNIX; only TLS has the empty value |
| LibvirtUri.MakeUri | virshx/libvirt/uri.py:91-133 | the constructor raises ValueError exactly for the seven refused combinations (session/system path with a driver lacking it, transport or missing host with a client-only driver, ext without `command`, user without SSH, port outside 1..65535); otherwise it keeps the fields, clearing transport, host, path and parameters without a driver and user and port without a host |
| LibvirtUri.NoDriverIsDefault | virshx/libvirt/uri.py:125-133 | any accepted URI without a driver equals the default URI |
| LibvirtUri.RebuildIsIdentity | virshx/libvirt/uri.py:110-133 | normalisation is idempotent: constructing from a URI's own fields gives it back |
| LibvirtUri.Quote | virshx/libvirt/uri.py:161-168 | `quote(s, safe)` yields only `%`, unreserved and safe characters |
| LibvirtUri.QuotePlain | virshx/libvirt/uri.py:161 | text of unreserved and safe ASCII characters is left unchanged |
| LibvirtUri.QuoteAvoids | virshx/libvirt/uri.py:161-168 | a reserved, unsafe character other than `%` never appears in quoted text |
| LibvirtUri.Escape | virshx/libvirt/uri.py:161-168 | each byte becomes three characters, `%` and two hexadecimal digits |
| LibvirtUri.Utf8 | virshx/libvirt/uri.py:161-168 | a character encodes as one to four bytes, one byte equal to itself exactly when it is ASCII |
| LibvirtUri.ToString | virshx/libvirt/uri.py:139-173 | `str(uri)` grown piece by piece equals the text model `Text` |
| LibvirtUri.HeadText | virshx/libvirt/uri.py:143-163 | driver, separator, user, host, port and path, in that order |
| LibvirtUri.AppendQuery | virshx/libvirt/uri.py:165-171 | the parameter loop with its `first` flag appends exactly `Query(params)` |
| LibvirtUri.TextStart | virshx/libvirt/uri.py:139-143 | the text is empty exactly without a driver and otherwise starts with the driver's value |
| LibvirtUri.SchemeSeparator | virshx/libvirt/uri.py:145-149 | after the driver: `://` for UNIX without a host, `+<transport>://` for another named transport, nothing for TLS or no transport |
| LibvirtUri.TrailingSpace | virshx/libvirt/uri.py:165-171 | as written, two parameters print as `?a=1&b=2 `, with a space after the second |
| LibvirtUri.NoTransportLosesSeparator | virshx/libvirt/uri.py:143-163 | as written, `URI(driver=QEMU)` prints as `qemu/` |
| LibvirtUri.TlsLosesSeparator | virshx/libvirt/uri.py:143-163 | as written, `xen://example.com/system` parses to a TLS URI that prints as `xenexample.com/system` (see also lines 239-274) |
| LibvirtUri.SchemeParts | virshx/libvirt/uri.py:248-259 | a `driver+transport` scheme is exactly the driver's value, `+` and the transport's value; a scheme without `+` is exactly the driver's value and gets UNIX without a host and TLS with one; every refusal is a ValueError |
| LibvirtUri.FromString | virshx/libvirt/uri.py:237-274 | the empty string gives the default URI; no scheme or more than one `+` raises ValueError; a parsed URI has the scheme's driver; a one-part scheme gets UNIX locally and TLS remotely; a two-part scheme gets the transport it names, except that TLS without a host becomes UNIX |
| LibvirtUri.SystemPathAccepted | virshx/libvirt/uri.py:110-113 | as written, `ch:///system` is accepted, because the check compares with `system` while the parsed path is `/system` (see also line 272) |
| LibvirtUri.IntendedSchemeParses | virshx/libvirt/uri.py:143-152 | the intended scheme parses back to the URI's driver and its effective transport (see also lines 248-262) |
| LibvirtUri.IntendedTransportRoundTrip | virshx/libvirt/uri.py:143-152 | the intended text's scheme, with the host, round-trips the effective transport through `from_string` (see also lines 248-262) |
| LibvirtUri.IntendedQuerySplits | virshx/libvirt/uri.py:165-171 | the intended query starts with `?` and splits on `&` into exactly one `key=value` piece per parameter |
| LibvirtUri.IntendedTlsSample | virshx/libvirt/uri.py:143-163 | the intended text of the remote TLS sample is `xen://example.com/system` again |
| LibvirtUri.IntendedFromString | virshx/libvirt/uri.py:110-113 | with the path compared including its slash, a session or system path the driver lacks is refused; otherwise the result is that of `from_string` as written (see also lines 237-274) |
| LibvirtUri.SystemPathRejected | virshx/libvirt/uri.py:110-113 | with the intended check, `ch:///system` raises ValueError |
| LibvirtUri.ClientOnlyNeverParses | virshx/libvirt/uri.py:248-274 | as written, no parsed URI names a client-only driver (`hyperv`, `esx`, `gsx`, `vpx`): every scheme gets a transport (also line 114 refuses a transport for those drivers) |
| LibvirtUri.HyperVSampleRefused | virshx/libvirt/uri.py:248-263 | as written, `hyperv://example-hyperv.com/?transport=http` raises ValueError |
| LibvirtUri.IntendedClientFromString | virshx/libvirt/uri.py:248-274 | the intended parse: a one-part scheme gives a client-only driver no transport and every other driver UNIX locally and TLS remotely; a two-part scheme parses as written; every refusal is a ValueError |
| LibvirtUri.IntendedClientAgrees | virshx/libvirt/uri.py:248-274 | for every driver that is not client-only the intended parse is the parse as written |
| LibvirtUri.HyperVSampleParses | virshx/libvirt/uri.py:248-274 | with the intended transport, the Hyper-V sample parses with its host, its path `/` and its `transport` parameter |
| PoolModel.CheckFeatures | fvirt/libvirt/models/storage_pool.py:45-53 | passes exactly when there are no features, no `cow` feature, or the pool is `dir` or `fs`; otherwise ValueError |
| PoolModel.CheckTarget | fvirt/libvirt/models/storage_pool.py:167-178 | passes exactly when a target is present just for the kinds that need one (`dir`, `fs`, `netfs`, `logical`, `disk`, `iscsi`, `scsi`, `vstorage`) |
| PoolModel.CheckSource | fvirt/libvirt/models/storage_pool.py:55-165 | the discard-and-scan procedure passes exactly when the independent source rule `SourceValid` holds, otherwise ValueError |
| PoolModel.ValidatePool | fvirt/libvirt/models/storage_pool.py:15-178 | the field constraints, then `check_features`, `check_source` and `check_target` in declaration order |
| PoolModel.OnlyValueError | fvirt/libvirt/models/storage_pool.py:45-178 | every rejection is a ValueError |
| PoolModel.ValidFields | fvirt/libvirt/models/storage_pool.py:17-39 | a valid pool has one of the kinds of the `type` pattern, a non-empty name, `cow` equal to `yes` or `no`, and a non-empty target path |
| PoolModel.SourcePresence | fvirt/libvirt/models/storage_pool.py:57-64 | a valid pool has a source exactly when it is neither `dir` nor `multipath` |
| PoolModel.FormatRule | fvirt/libvirt/models/storage_pool.py:66-112 | `fs`, `netfs` and `disk` sources carry a format from their own set; other sources carry none (see also lines 161-163) |
| PoolModel.DeviceRule | fvirt/libvirt/models/storage_pool.py:120-163 | `fs`, `logical`, `disk`, `iscsi`, `iscsi-direct` need devices, exactly one except for `logical`; `zfs` may have them; other kinds none |
| PoolModel.HostRule | fvirt/libvirt/models/storage_pool.py:133-163 | `netfs`, `iscsi`, `iscsi-direct`, `rbd`, `gluster` need at least one host, exactly one for the first three; other kinds none |
| PoolModel.DirRule | fvirt/libvirt/models/storage_pool.py:114-163 | a source directory is present exactly for `netfs` and `gluster` |
| PoolModel.InitiatorRule | fvirt/libvirt/models/storage_pool.py:143-163 | a non-empty initiator is present exactly for `iscsi-direct`, and none elsewhere |
| PoolModel.AdapterRule | fvirt/libvirt/models/storage_pool.py:149-163 | a non-empty adapter is present exactly for `scsi`, and none elsewhere |
| PoolModel.NameRule | fvirt/libvirt/models/storage_pool.py:155-163 | a non-empty source name is present exactly for `rbd`, `gluster`, `zfs`, `vstorage`, and none elsewhere |
| PoolModel.TargetRule | fvirt/libvirt/models/storage_pool.py:167-178 | a valid pool has a target exactly for the kinds that need one |
| PoolModel.Unset | fvirt/libvirt/models/storage_pool.py:161-163 | a source property the kind does not allow is unset in a fitting source |
| PoolModel.MinimalIsValid | fvirt/libvirt/models/storage_pool.py:38-178 | the rules never contradict: every pool kind has an accepted description |
| VolumeModel.FormatsFor | fvirt/libvirt/models/volume.py:46-76 | file-like pools (`dir`, `fs`, `netfs`, `gluster`, `vstorage`) take the ten image formats, `disk` the eight partition types, `rbd` only `raw`, every other kind none |
| VolumeModel.CheckAllocation | fvirt/libvirt/models/volume.py:28-34 | passes exactly when there is no allocation or it does not exceed the capacity |
| VolumeModel.CheckNocow | fvirt/libvirt/models/volume.py:36-42 | passes exactly when `nocow` is false or the pool is `dir` or `fs` |
| VolumeModel.CheckFormat | fvirt/libvirt/models/volume.py:44-87 | a pool kind with formats needs one of them; any other kind refuses every format |
| VolumeModel.TargetAfter | fvirt/libvirt/models/volume.py:89-94 | `target` becomes false for `logical`, `iscsi`, `iscsi-direct`, `scsi`, `multipath`, `zfs` and is kept otherwise |
| VolumeModel.ChecksAcceptable | fvirt/libvirt/models/volume.py:19-87 | the field constraints and validators accept exactly the volumes with a non-empty name and pool type, capacity > 0, 0 <= allocation <= capacity, `nocow` only on `dir`/`fs` and a format by the pool rule; they only raise ValueError |
| VolumeModel.EveryPoolTypeAdmitsAVolume | fvirt/libvirt/models/volume.py:19-87 | every pool kind admits some volume |
| VolumeModel.VolumeInfo.SetTarget | fvirt/libvirt/models/volume.py:89-94 | overwrites `target` with `TargetAfter` of the old value and changes nothing else |
| VolumeModel.VolumeInfo.Validate | fvirt/libvirt/models/volume.py:14-94 | the verdict of the checks; `set_target` runs only when they pass |
| DomainNetwork.Anchored | fvirt/libvirt/models/domain.py:25-31 | a `^...$` pattern applied with `re.match` sees the text with at most one final newline removed |
| DomainNetwork.Octets | fvirt/libvirt/models/domain.py:25-37 | a matching text yields exactly four groups |
| DomainNetwork.Ipv4Shape | fvirt/libvirt/models/domain.py:25-42 | `is_valid_ipv4` holds exactly when the text is four dot-separated groups of one to three digits, each at most 255 |
| DomainNetwork.DottedQuadValid | fvirt/libvirt/models/domain.py:34-42 | every dotted quad of octets is accepted and its groups read back as those octets |
| DomainNetwork.LeadingZerosAccepted | fvirt/libvirt/models/domain.py:34-42 | leading zeros are accepted (`010.0.0.1`) |
| DomainNetwork.Ipv4TrailingNewline | fvirt/libvirt/models/domain.py:25-35 | an accepted address is accepted with and without one trailing newline |
| DomainNetwork.Ipv6Shape | fvirt/libvirt/models/domain.py:29-46 | `is_valid_ipv6` holds exactly when the text is eight colon-separated groups of one to four hexadecimal digits |
| DomainNetwork.CompressedRejected | fvirt/libvirt/models/domain.py:29-46 | the `::` shorthand is not accepted (`::1`) |
| DomainNetwork.Ipv4NotIpv6 | fvirt/libvirt/models/domain.py:34-46 | no text passes both address checks |
| DomainNetwork.CheckNetworkIp | fvirt/libvirt/models/domain.py:768-784 | passes exactly for an IPv4 address with prefix 1..31 or an IPv6 address with prefix 1..127; otherwise ValueError |
| DomainCpu.Coalesced | fvirt/libvirt/models/domain.py:182-188 | the named level is set to the vcpu count and the other three to 1, so the total is the count |
| DomainCpu.Synced | fvirt/libvirt/models/domain.py:148-188 | fewer than one vcpu raises ValueError; otherwise the total equals the count, a topology already matching is unchanged, with `coalesce` the result is `Coalesced`, and positive counts stay positive |
| DomainCpu.MinimalFixup | fvirt/libvirt/models/domain.py:168-181 | without `coalesce` sockets become 1, threads are kept unless everything folds into the cores, and a matching dies*cores*threads only resets the sockets |
| DomainCpu.SyncedIdempotent | fvirt/libvirt/models/domain.py:165-166 | a second `check` with the same count changes nothing |
| DomainCpu.CpuTopology.Check | fvirt/libvirt/models/domain.py:148-188 | raises ValueError exactly for fewer than one vcpu, leaving the fields; otherwise rewrites the four fields in place to `Synced` of the old ones, after which `total_cpus` is the count |
| DomainCpu.VcpuAfter | fvirt/libvirt/models/domain.py:1030-1031 | a zero vcpu count becomes 1 and any other count is kept |
| DomainCpu.DomainVcpus.FixupVcpus | fvirt/libvirt/models/domain.py:1023-1033 | without a `cpu` entry, `vcpu` is set to `VcpuAfter` of its old value |
| DomainDevices.HexTextField | fvirt/libvirt/models/domain.py:51-54 | a number that fits in w hex digits gives text matching `^0x[0-9a-f]{w}$` that reads back as the number |
| DomainDevices.HexFieldText | fvirt/libvirt/models/domain.py:51-54 | every text matching the pattern is the text of its value |
| DomainDevices.HexDigitsValue | fvirt/libvirt/models/domain.py:51-54 | w digits of a number below 16^w read back as the number |
| DomainDevices.HexValueDigits | fvirt/libvirt/models/domain.py:51-54 | w lower-case hex digits are the digits of their value, which is below 16^w |
| DomainDevices.PciFromNumbers | fvirt/libvirt/models/domain.py:49-55 | a bus and slot below 256 and a function below 16 give a valid PCI address |
| DomainDevices.DefaultFunctionValid | fvirt/libvirt/models/domain.py:53 | the default function `0x0` satisfies its own pattern |
| DomainDevices.CheckAddr | fvirt/libvirt/models/domain.py:687-709 | passes exactly when there is no address, or a bus from the address kind's set (`virtio`/`xen` for PCI, `scsi`/`ide`/`usb`/`sata`/`sd` for drive); otherwise ValueError |
| DomainDevices.BusesDisjoint | fvirt/libvirt/models/domain.py:695-705 | no bus accepts both address kinds |
| DomainDevices.SrcTypeAfter | fvirt/libvirt/models/domain.py:745-755 | a given source type is kept; a missing one is filled in exactly for `ram`, `template` and `file` |
| DomainDevices.SrcTypeIdempotent | fvirt/libvirt/models/domain.py:745-755 | filling in the source type twice changes nothing the second time |
| DomainDevices.Filesystem.SetSrcType | fvirt/libvirt/models/domain.py:745-755 | overwrites `src_type` with `SrcTypeAfter` of the old value |
| DomainDevices.CheckInputSource | fvirt/libvirt/models/domain.py:815-820 | passes exactly when there is a source or the type is neither `passthrough` nor `evdev` |
| DomainDevices.CheckTpm | fvirt/libvirt/models/domain.py:953-964 | `passthrough` passes exactly with a device, `emulator` always, any other type raises RuntimeError |
| DomainDevices.TpmNeverRuntimeError | fvirt/libvirt/models/domain.py:945-964 | behind the `type` pattern only ValueError is raised, exactly for a bad type or a passthrough without device |
| DomainDevices.CheckListenerWith | fvirt/libvirt/models/domain.py:830-857 | passes exactly when the type's required field is set and every field of its `none_props` is unset; an unknown type raises RuntimeError |
| DomainDevices.AddressListenerNeverValid | fvirt/libvirt/models/domain.py:833-855 | as written, every `address` listener fails, because `address` is both required and in `none_props` |
| DomainDevices.OtherListenersExact | fvirt/libvirt/models/domain.py:838-855 | `network`, `socket` and `none` listeners pass exactly when only their own field (none for `none`) is set |
| DomainDevices.IntendedListenersExact | fvirt/libvirt/models/domain.py:830-857 | the corrected check accepts, for every type, exactly the listeners that set only that type's field |
| DomainDevices.AddressListenerSample | fvirt/libvirt/models/domain.py:833-837 | `type="address" address="0.0.0.0"` fails as written and passes when corrected |
| DomainDevices.CheckControllerIndices | fvirt/libvirt/models/domain.py:988-1000 | the loop over controllers with its `seen_indices` set passes exactly when the given indices are pairwise distinct |
| DomainFeatures.ValidateMemtune | fvirt/libvirt/models/domain.py:84-94 | passes exactly when every given limit is positive and at least one limit was named explicitly |
| DomainFeatures.MemtuneNeedsANamedLimit | fvirt/libvirt/models/domain.py:89-94 | naming a limit, even as None, is enough; naming none is refused |
| DomainFeatures.ModeAfter | fvirt/libvirt/models/domain.py:512-519 | the mode becomes `custom` only when some explicitly set field other than `mode` holds a value, and is kept otherwise |
| DomainFeatures.ModeAfterIdempotent | fvirt/libvirt/models/domain.py:512-519 | a second fix-up changes nothing |
| DomainFeatures.DefaultModeRule | fvirt/libvirt/models/domain.py:495-519 | the default `passthrough` becomes `custom` exactly when another named field has a value |
| DomainFeatures.HyperVInfo.FixupMode | fvirt/libvirt/models/domain.py:512-519 | the scan over the named fields, stopping at the first with a value, sets `mode` to `ModeAfter` of the old mode |
| DomainFeatures.BitAndSelf | fvirt/libvirt/models/domain.py:533 | `a & a == a` for Python's bitwise and |
| DomainFeatures.PowerOfTwoTrick | fvirt/libvirt/models/domain.py:533 | for positive v, `v & (v - 1) == 0` exactly when v is a power of two |
| DomainFeatures.CheckSize | fvirt/libvirt/models/domain.py:530-536 | passes exactly for None, a non-positive value, or a power of two |
| DomainFeatures.ValidateSize | fvirt/libvirt/models/domain.py:528-536 | passes exactly for None or a power of two from 1024 to 65536 |
| DomainFeatures.DirtyRingSizes | fvirt/libvirt/models/domain.py:528-536 | an accepted size is 2^k for k from 10 to 16, and every such power is accepted |
| DomainFeatures.CheckModify | fvirt/libvirt/models/domain.py:619-626 | passes exactly when every capability state is `on` or `off`, otherwise ValueError |
| DomainOs.InvalidIsComplement | fvirt/libvirt/models/domain.py:259-298 | each variant's forbidden set is exactly the complement of the properties its documentation says it honours (see also lines 341-419) |
| DomainOs.CheckVariant | fvirt/libvirt/models/domain.py:331-427 | a known variant fails only with ValueError; an unknown one raises RuntimeError |
| DomainOs.CheckVariantHonoured | fvirt/libvirt/models/domain.py:331-427 | a known variant passes exactly when its own condition holds (firmware: no string loader and no nvram without loader; direct: no structured loader; test: an arch) and every truthy property is one it honours |
| DomainOs.FirmwareRejectsKernel | fvirt/libvirt/models/domain.py:341-355 | a firmware configuration with a kernel is refused (see also lines 423-425) |
| DomainOs.TestNeedsArch | fvirt/libvirt/models/domain.py:399-401 | a `test` domain without an arch is refused and with only an arch is accepted |
| DomainOs.EmptyBootloaderArgsIgnored | fvirt/libvirt/models/domain.py:423-425 | an empty `bootloader_args` is falsy, so even a firmware configuration may carry it (the field is declared at line 318) |
| DomainOs.Validate | fvirt/libvirt/models/domain.py:310-329 | an accepted configuration satisfies the field constraints; every rejection is a ValueError |
| LibvirtHypervisor.Opened | fvirt/libvirt/hypervisor.py:103-125 | a successful `open` holds a connection and one more reference; from a consistent state it fails exactly when a new connection is needed and libvirt refuses it; a connection without references raises RuntimeError; consistency is kept |
| LibvirtHypervisor.Closed | fvirt/libvirt/hypervisor.py:127-140 | `close` drops one reference and never goes below zero; from a consistent state the connection survives exactly when at least two references were held |
| LibvirtHypervisor.CloseWhenClosed | fvirt/libvirt/hypervisor.py:133-140 | closing an instance that holds nothing, once or twice, leaves it with nothing |
| LibvirtHypervisor.OpenTimes | fvirt/libvirt/hypervisor.py:103-125 | any number of successful opens keeps the reference count consistent with the connection |
| LibvirtHypervisor.CloseTimes | fvirt/libvirt/hypervisor.py:127-140 | any number of closes keeps the reference count consistent with the connection |
| LibvirtHypervisor.OpenTimesCount | fvirt/libvirt/hypervisor.py:118-123 | `n` opens add exactly `n` references |
| LibvirtHypervisor.CloseTimesCount | fvirt/libvirt/hypervisor.py:137-140 | `k` closes remove `k` references, stopping at zero |
| LibvirtHypervisor.OpensThenCloses | fvirt/libvirt/hypervisor.py:103-140 | after `n` opens and `k` closes from a new instance, it is connected and holds a connection exactly when `k < n`; `bool(hv)` is the count test of lines 51-52 |
| LibvirtHypervisor.Hypervisor.constructor | fvirt/libvirt/hypervisor.py:37-42 | a new instance has no connection and no references |
| LibvirtHypervisor.Hypervisor.Open | fvirt/libvirt/hypervisor.py:103-125 | the instance moves to the state `Opened` gives, and stays put when it fails |
| LibvirtHypervisor.Hypervisor.Close | fvirt/libvirt/hypervisor.py:127-140 | the instance moves to the state `Closed` gives |
| LibvirtHypervisor.Hypervisor.DefineEntityAsWritten | fvirt/libvirt/hypervisor.py:65-77 | read-only raises InsufficientPrivileges, no connection NotConnected; past both, a libvirt error surfaces as AttributeError, because the handler names an attribute the libvirt module lacks |
| LibvirtHypervisor.Hypervisor.DefineEntity | fvirt/libvirt/hypervisor.py:65-77 | defining succeeds exactly on a writable, open connection that accepts the configuration; the errors are InsufficientPrivileges, then NotConnected, then InvalidConfig (see also lines 142-197) |
| LibvirtHypervisor.Hypervisor.DefineErrorMisreported | fvirt/libvirt/hypervisor.py:72-115 | the definition as written and as intended differ exactly on a libvirt error reached past both checks |
| LibvirtHypervisor.Hypervisor.CreateDomain | fvirt/libvirt/hypervisor.py:154-185 | each start flag is set exactly when its argument is true and no other bit is set; the outcome is that of the intended `__define_entity`, which differs from the code as written exactly when libvirt refuses the configuration on a writable, open connection |
| LibvirtEntity.AlreadyDone | fvirt/libvirt/entity.py:336-340 | an operation with nothing to do answers SUCCESS when idempotent and NO_OPERATION otherwise (see also lines 428-431, 453-457) |
| LibvirtEntity.Entity.constructor | fvirt/libvirt/entity.py:43-54 | a new wrapper is valid and wraps the given object and hypervisor |
| LibvirtEntity.Entity.CheckValid | fvirt/libvirt/entity.py:81-92 | the check passes exactly for a valid wrapper on a connected hypervisor; an invalid wrapper raises InvalidEntity first, otherwise a missing connection raises NotConnected |
| LibvirtEntity.Entity.Probe | fvirt/libvirt/descriptors.py:46-47 | a libvirt-backed property returns libvirt's answer exactly when the validity check passes, and raises the check's error otherwise |
| LibvirtEntity.Entity.MarkInvalidOnUndefine | fvirt/libvirt/entity.py:104-107 | a volume is always invalidated on undefine; a runnable entity exactly when it is not running, read through the validity check (see also lines 385-387) |
| LibvirtEntity.Entity.Start | fvirt/libvirt/entity.py:414-438 | the validity check's error, then an already-running entity answers as already done without a call, otherwise one `create` call whose failure gives FAILURE; never TIMED_OUT or FORCED; libvirt's state is left alone |
| LibvirtEntity.Entity.Destroy | fvirt/libvirt/entity.py:440-472 | the validity check's error, then an entity that is not running answers as already done; a running one gets one `destroy` call, and the wrapper stays valid exactly when the call failed or the entity is persistent; an idempotent destroy never answers NO_OPERATION |
| LibvirtEntity.Entity.Undefine | fvirt/libvirt/entity.py:322-352 | an invalid wrapper answers as already done; a valid one on a lost connection raises NotConnected without a call; otherwise one `undefine` call, after which the wrapper becomes invalid exactly when the call succeeded on an entity that was not running (see also lines 385-387) |
| LibvirtEntity.Entity.SetConfigRaw | fvirt/libvirt/entity.py:205-221 | a read-only connection raises InsufficientPrivileges; otherwise the outcome is the define target's, and on success the wrapper takes the new object and is valid again, whatever it was before |
| LibvirtEntity.ProbeNeedsValidity | fvirt/libvirt/entity.py:81-92 | an invalid wrapper's properties raise InvalidEntity; a valid, connected one's pass libvirt's answer through |
| LibvirtVolume.Delete | fvirt/libvirt/volume.py:116-139 | an invalid wrapper answers as already done without a call; a valid one gets one `delete` call and becomes invalid exactly when it succeeds |
| LibvirtVolume.Undefine | fvirt/libvirt/volume.py:83-143 | behaves as `delete`, and a successful undefine leaves the wrapper invalid as `_mark_invalid_on_undefine` says |
| LibvirtVolume.Resize | fvirt/libvirt/volume.py:160-226 | the validity check's error, then a capacity that is not a non-negative integer raises ValueError, then without `shrink` a capacity below the current one raises ValueError; an accepted request sets each flag exactly when asked, answers as already done when nothing would change, and otherwise makes one `resize` call with that capacity and those flags |
| LibvirtStoragePool.Delete | fvirt/libvirt/storage_pool.py:153-178 | the validity check's error (so an invalid pool raises InvalidEntity), then a running pool raises EntityRunning, otherwise one `delete` call; the wrapper's validity does not change |
| LibvirtStoragePool.Build | fvirt/libvirt/storage_pool.py:131-140 | the validity check's error, otherwise one `build` call whose failure gives FAILURE |
| LibvirtStoragePool.Refresh | fvirt/libvirt/storage_pool.py:142-151 | the validity check's error, otherwise one `refresh` call whose failure gives FAILURE |
| LibvirtStoragePool.Operate | fvirt/libvirt/storage_pool.py:131-151 | the shared shape of `build` and `refresh`: the validity check's error without a call, otherwise exactly one call of the given kind, whose failure gives FAILURE; the reported state does not change |
| LibvirtStoragePool.DefineVolume | fvirt/libvirt/storage_pool.py:180-201 | InvalidEntity, then NotConnected, then InsufficientPrivileges, each without a call; otherwise one `createXML` call that succeeds or raises InvalidConfig |
| LibvirtDomain.Code | fvirt/libvirt/domain.py:70-84 | every state's value lies in 0..8 |
| LibvirtDomain.StateRoundTrip | fvirt/libvirt/domain.py:76-84 | the `state` property reads each state back from its own value, so the values are distinct (see also lines 223-235) |
| LibvirtDomain.UnknownValues | fvirt/libvirt/domain.py:228-233 | a value outside 0..7 reads as UNKNOWN |
| LibvirtDomain.StateTextInjective | fvirt/libvirt/domain.py:86-95 | no two states print the same text |
| LibvirtDomain.PositiveInteger | fvirt/libvirt/domain.py:39-44 | the check passes exactly for an integer of at least 1 and otherwise raises ValueError (see also lines 126-149) |
| LibvirtDomain.PositiveWithin | fvirt/libvirt/domain.py:47-65 | the check passes exactly for an integer from 1 up to the limit and otherwise raises ValueError (see also lines 131-163) |
| LibvirtDomain.MemoryOrdered | fvirt/libvirt/domain.py:54-65 | accepted memory settings satisfy `1 <= currentMemory <= memory <= maxMemory` |
| LibvirtDomain.Reset | fvirt/libvirt/domain.py:252-270 | the validity check's error, then a stopped domain raises EntityNotRunning without a call, otherwise one `reset` call whose failure gives FAILURE |
| LibvirtDomain.ManagedSave | fvirt/libvirt/domain.py:355-379 | the validity check's error; a stopped domain with a saved image answers NO_OPERATION when idempotent and FAILURE otherwise, without one raises EntityNotRunning; a running transient domain raises InvalidOperation; only a running persistent domain gets the `managedSave` call |
| LibvirtDomain.Ticks | fvirt/libvirt/domain.py:297-306 | a timeout that is not an integer raises ValueError; none or a negative one allows no polls; otherwise the timeout is the number of polls |
| LibvirtDomain.ReadsFrom | fvirt/libvirt/domain.py:324-336 | the poll loop started at read `j` stops at or before its budget |
| LibvirtDomain.ReadsFromMeaning | fvirt/libvirt/domain.py:324-336 | reads from `j` on, except the last, saw the domain running; the loop ends early exactly when some read within the budget saw it stopped, and then the last read did |
| LibvirtDomain.PollLoopBounded | fvirt/libvirt/domain.py:324-336 | the poll loop reads `running` at most `timeout` times, every read but the last saw the domain running, and it ends early exactly when a read sees the domain stopped |
| LibvirtDomain.ForcedOutcome | fvirt/libvirt/domain.py:340-349 | a forced shutdown answers FORCED exactly when the destroy succeeded, and passes an error of the destroy through |
| LibvirtDomain.Shutdown | fvirt/libvirt/domain.py:272-353 | a bad timeout raises ValueError first, then the validity check's error, then a stopped domain answers as already done; a refused request answers FAILURE; after polling, a stopped domain gives SUCCESS, a running one TIMED_OUT without `force`, and with `force` a destroy whose outcome decides FORCED or FAILURE and whether the wrapper of a transient domain stays valid |

## Left out

- Libvirt itself is not modelled. Every call into it (open, define, create, destroy, undefine, delete, resize, build, refresh, reset, shutdown, managedSave) is a parameter saying whether it raises. The model does not say what libvirt then does to the object; only the wrapper's own state changes.
- Time is not modelled. `sleep(1)` in the `shutdown` poll loop is left out, and the answers of the `running` reads are an input.
- `libvirt.open` and `libvirt.openReadOnly` behave the same in the model. Only `read_only` decides the privilege checks.
- The `connected` property that `_check_valid` and `defineVolume` read is not part of this model's sources. It is taken to mean what `__bool__` means: the reference count is positive.
- `Entity.__init__` calls `Hypervisor.open` and `__del__` calls `close`. Neither is modelled, so a wrapper is built over a hypervisor in any state.
- The `configRaw` setter's `ValueError` for an empty define method is left out, because all three wrapper kinds name one. So is its `RuntimeError` for a missing one, because both targets define it.
- `Volume.wipe` is left out. It has the same shape as `build`, which is modelled.
- `Domain._config_flags` reads an attribute that does not exist. `Hypervisor.uri` needs a live connection. The XML update helpers, entity access, streams, runners, the match modules, the command modules and the Jinja2 environment (`get_environment`) are CLI plumbing or foreign calls and are not part of this model.
- The pydantic schema hook of `CustomBool` is left out, and so are the `uuid` fields of the models.
- pydantic's field coercion is left out: the inputs are already of the declared types. A `Field(pattern=...)` constraint is written as an explicit predicate over the whole string.
- `urlparse` and `parse_qs` are not modelled. `from_string` starts from their result, given as a record of the split fields.
- `CPUTopology.infer_values` depends on the host's `psutil.cpu_count` and is left out. So are the branches of `fixup_vcpus` that handle a `cpu` entry, because they read and write an attribute the model does not declare. Only the branch without a `cpu` entry is modelled.
- Terminal colouring, including `color_bool`, is the identity in the table renderers. `TERM.length` is the string length.
- `\d` in the address patterns is read as an ASCII digit. Python's Unicode digits are not modelled.
- The `unit_to_bytes` in virshx/common.py repeats virshx/util/units.py and is modelled once, by `Units`.
- The virshx copies of the entity, domain, volume, hypervisor, storage pool and table modules repeat the fvirt logic modelled here, with booleans for results, and are left out.
- fvirt/libvirt/data.py is a constant table with no behaviour, and is left out.
- LibvirtHypervisor.Hypervisor.CreateDomain: follows the intended `__define_entity` (`DefineEntity`), so a configuration libvirt refuses gives InvalidConfig where the code as written raises AttributeError; its second ensures states exactly where the two differ, and the Findings table records the bug.
- Units.FloatConversion: a Python float is modelled as an exact non-negative real. Python's rounding of the product `value * multiplier` before `math.ceil` is not modelled, so `unit_to_bytes(0.001, 'KB')` gives 1 in Python and 2 in the model. Infinity (for which `math.ceil` raises OverflowError) and NaN (ValueError) are not represented.
- The nested OS models `OSFWLoaderInfo`, `OSFWNVRAMInfo` and `OSContainerIDMapInfo` are kept only as present or absent, which is all `check_variant` reads; their own field constraints are not modelled.
- LibvirtStoragePool.Delete: `idempotent` has no effect on the result, because the `not self.valid` branch it governs can never be reached.

## Where the code and its documentation differ

The model follows the code in each case:

- The storage pool `type` pattern lists thirteen types: `dir`, `fs`, `netfs`, `logical`, `disk`, `iscsi`, `iscsi-direct`, `scsi`, `multipath`, `rbd`, `gluster`, `zfs` and `vstorage`.
- `StoragePool.defineVolume` (fvirt/libvirt/storage_pool.py:188-194) runs `_check_valid` first. So an invalid wrapper raises `InvalidEntity` and a lost connection raises `NotConnected`, both before the read-only check. Its own `NotConnected` test can then never fire.
- `StoragePool.delete` reads `running` first, which validates the wrapper. So an invalid pool raises `InvalidEntity`, not the documented idempotent answer.
- The `OSInfo` documentation describes `direct` boot as loading a kernel. `check_variant` does not require one.
- `Domain.shutdown` documents a `TimedOut` exception when the timeout runs out without `force`. The code returns `TIMED_OUT`.
- `Domain.shutdown` writes `self.__valid`, which Python name-mangles into a new attribute, so those writes never change `valid` (fvirt/libvirt/domain.py:331, 346). Only the forced `destroy` of a transient domain invalidates the wrapper.
- tests/version_test.py:44-48 expects negative indices on a `VersionNumber` (`v[-3] == 1`). `__getitem__` (fvirt/version.py:44-53) raises IndexError for every index other than 0, 1 and 2, and `Version.GetItem` follows it.
- `destroy(idempotent=True)` never answers `NO_OPERATION`, so that case of the `match` in `shutdown` is dead.
- `Volume.resize` compares the capacity argument with the current capacity even in delta mode (fvirt/libvirt/volume.py:202-204). So without `shrink`, a delta smaller than the current size is refused although it would grow the volume. The model keeps this.

## Findings

| source | as written | input that shows it | evidently intended | confidence | as-written member | corrected member |
|---|---|---|---|---|---|---|
| virshx/libvirt/uri.py:145-152 | a TLS transport, or none, adds no `://` after the driver | `xen://example.com/system` parses and prints back as `xenexample.com/system` | every scheme is followed by `://` | not executed | LibvirtUri.TlsLosesSeparator, LibvirtUri.NoTransportLosesSeparator | LibvirtUri.IntendedTlsSample, LibvirtUri.IntendedTransportRoundTrip |
| virshx/libvirt/uri.py:165-171 | every query pair after the first is followed by a space | parameters `a=1`, `b=2` print as `?a=1&b=2 ` | pairs joined by `&` with nothing after them | not executed | LibvirtUri.TrailingSpace | LibvirtUri.IntendedQuerySplits |
| virshx/libvirt/uri.py:110-113 | the path check compares `system` and `session`, while `from_string` (line 272) passes the path with its leading `/` | `ch:///system` is accepted although `ch` has no system instance | the check sees the path without its leading slash and refuses it | not executed | LibvirtUri.SystemPathAccepted | LibvirtUri.SystemPathRejected, LibvirtUri.IntendedFromString |
| fvirt/libvirt/models/domain.py:833-837 | the `address` listener lists `address` both as required and as must-be-None | any `address` listener, with or without an address | an `address` listener requires `address` and forbids `network` and `socket` | not executed | DomainDevices.AddressListenerNeverValid, DomainDevices.AddressListenerSample | DomainDevices.IntendedListenersExact |
| virshx/libvirt/uri.py:248-254 | a one-part scheme always gets a transport (UNIX without a host, TLS with one), and the constructor refuses any transport for a client-only driver (line 114) | `hyperv://example-hyperv.com/?transport=http`, a sample URI of the repository's tests, raises ValueError | a client-only driver parses with no transport | not executed | LibvirtUri.ClientOnlyNeverParses, LibvirtUri.HyperVSampleRefused | LibvirtUri.IntendedClientFromString, LibvirtUri.IntendedClientAgrees, LibvirtUri.HyperVSampleParses |
| fvirt/libvirt/hypervisor.py:72-75 | the handler names `libvirt.LibvirtError`, while the module's class is `libvirtError` (as line 115 spells it) | a configuration libvirt refuses in `defineDomain` | the refusal raises `InvalidConfig` | not executed | LibvirtHypervisor.Hypervisor.DefineEntityAsWritten, LibvirtHypervisor.Hypervisor.DefineErrorMisreported | LibvirtHypervisor.Hypervisor.DefineEntity |
