/**
 * virshx's libvirt connection URIs (virshx/libvirt/uri.py): the driver and
 * transport enumerations, the validating and normalising constructor, the
 * string form, and the scheme handling of `URI.from_string`.
 *
 * `urlparse` and `parse_qs` are not modelled: `from_string` receives their
 * result as an already split `UrlParts` record.
 */
module LibvirtUri {
  import opened Wrappers
  import opened PyStr

  // ---------------------------------------------------------------------
  // Drivers and transports

  datatype Driver =
    | Bhyve | CloudHypervisor | HyperV | Lxc | OpenVz | Qemu | Test | VirtualBox
    | Virtuozzo | VmwareEsx | VmwareFusion | VmwareGsx | VmwarePlayer | VmwareVpx
    | VmwareWorkstation | Xen

  /** `Driver.KVM` and `Driver.HVF` share QEMU's value, so the enumeration makes them aliases of it. */
  const Kvm: Driver := Qemu
  const Hvf: Driver := Qemu

  function DriverValue(d: Driver): string
  {
    match d
    case Bhyve => "bhyve"
    case CloudHypervisor => "ch"
    case HyperV => "hyperv"
    case Lxc => "lxc"
    case OpenVz => "openvz"
    case Qemu => "qemu"
    case Test => "test"
    case VirtualBox => "vbox"
    case Virtuozzo => "vz"
    case VmwareEsx => "esx"
    case VmwareFusion => "vmwarefusion"
    case VmwareGsx => "gsx"
    case VmwarePlayer => "vmwareplayer"
    case VmwareVpx => "vpx"
    case VmwareWorkstation => "vmwarews"
    case Xen => "xen"
  }

  /** `Driver(value)`: the member with that value; any other value raises ValueError. */
  function DriverOf(s: string): (r: Result<Driver>)
    ensures r.Ok? ==> DriverValue(r.value) == s
    ensures r.Err? ==> r.error == ValueError
  {
    if s == "bhyve" then Ok(Bhyve)
    else if s == "ch" then Ok(CloudHypervisor)
    else if s == "hyperv" then Ok(HyperV)
    else if s == "lxc" then Ok(Lxc)
    else if s == "openvz" then Ok(OpenVz)
    else if s == "qemu" then Ok(Qemu)
    else if s == "test" then Ok(Test)
    else if s == "vbox" then Ok(VirtualBox)
    else if s == "vz" then Ok(Virtuozzo)
    else if s == "esx" then Ok(VmwareEsx)
    else if s == "vmwarefusion" then Ok(VmwareFusion)
    else if s == "gsx" then Ok(VmwareGsx)
    else if s == "vmwareplayer" then Ok(VmwarePlayer)
    else if s == "vpx" then Ok(VmwareVpx)
    else if s == "vmwarews" then Ok(VmwareWorkstation)
    else if s == "xen" then Ok(Xen)
    else Err(ValueError)
  }

  /** Every driver's value looks that driver up again, and no value is empty. */
  lemma DriverRoundTrip(d: Driver)
    ensures DriverOf(DriverValue(d)) == Ok(d)
    ensures DriverValue(d) != ""
  {
  }

  datatype Transport = External | Libssh2 | Libssh | Ssh | Tcp | Tls | Unix

  /** `Transport.LOCAL` shares UNIX's value and is an alias of it. */
  const Local: Transport := Unix

  function TransportValue(t: Transport): string
  {
    match t
    case External => "ext"
    case Libssh2 => "libssh2"
    case Libssh => "libssh"
    case Ssh => "ssh"
    case Tcp => "tcp"
    case Tls => ""
    case Unix => "unix"
  }

  /** `Transport(value)`. */
  function TransportOf(s: string): (r: Result<Transport>)
    ensures r.Ok? ==> TransportValue(r.value) == s
    ensures r.Err? ==> r.error == ValueError
  {
    if s == "ext" then Ok(External)
    else if s == "libssh2" then Ok(Libssh2)
    else if s == "libssh" then Ok(Libssh)
    else if s == "ssh" then Ok(Ssh)
    else if s == "tcp" then Ok(Tcp)
    else if s == "" then Ok(Tls)
    else if s == "unix" then Ok(Unix)
    else Err(ValueError)
  }

  /** Every transport's value looks that transport up again; only TLS has the empty value. */
  lemma TransportRoundTrip(t: Transport)
    ensures TransportOf(TransportValue(t)) == Ok(t)
    ensures TransportValue(t) == "" <==> t == Tls
  {
  }

  /** The drivers that accept a `/session` path. */
  predicate SessionDriver(d: Option<Driver>)
  {
    d.Some? && d.value in {CloudHypervisor, Lxc, Qemu, VirtualBox, VmwareFusion, VmwarePlayer, VmwareWorkstation}
  }

  /** The drivers that accept a `/system` path. */
  predicate SystemDriver(d: Option<Driver>)
  {
    d.Some? && d.value in {Bhyve, Lxc, OpenVz, Qemu, Virtuozzo, Xen}
  }

  /** The drivers that only talk to a remote host with their own protocol. */
  predicate ClientOnlyDriver(d: Option<Driver>)
  {
    d.Some? && d.value in {HyperV, VmwareEsx, VmwareGsx, VmwareVpx}
  }

  predicate SshTransport(t: Option<Transport>)
  {
    t.Some? && t.value in {Ssh, Libssh, Libssh2}
  }

  // ---------------------------------------------------------------------
  // The URI value

  /** A query parameter, in the order the mapping holds it. */
  type Param = (string, string)

  datatype Uri = Uri(
    driver: Option<Driver>,
    transport: Option<Transport>,
    user: Option<string>,
    host: Option<string>,
    port: Option<int>,
    path: Option<string>,
    parameters: seq<Param>)

  predicate HasKey(params: seq<Param>, key: string)
  {
    exists k :: 0 <= k < |params| && params[k].0 == key
  }

  /** The combinations the constructor refuses, each with ValueError. */
  predicate Rejected(driver: Option<Driver>, transport: Option<Transport>, user: Option<string>,
                     host: Option<string>, port: Option<int>, path: Option<string>, params: seq<Param>)
  {
    || (path == Some("session") && !SessionDriver(driver))
    || (path == Some("system") && !SystemDriver(driver))
    || (transport.Some? && ClientOnlyDriver(driver))
    || (host.None? && ClientOnlyDriver(driver))
    || (transport == Some(External) && !HasKey(params, "command"))
    || (!SshTransport(transport) && user.Some?)
    || (port.Some? && !(1 <= port.value < 65536))
  }

  /**
   * `URI(driver=..., transport=..., ...)`: refuse the inconsistent
   * combinations, then, without a driver, drop transport, host, path and
   * parameters, and, without a host, drop the user and the port.
   */
  function MakeUri(driver: Option<Driver>, transport: Option<Transport>, user: Option<string>,
                   host: Option<string>, port: Option<int>, path: Option<string>, params: seq<Param>)
    : (r: Result<Uri>)
    ensures r.Err? <==> Rejected(driver, transport, user, host, port, path, params)
    ensures r.Err? ==> r.error == ValueError
    ensures r.Ok? ==> var u := r.value;
      && u.driver == driver
      && u.transport == (if driver.None? then None else transport)
      && u.host == (if driver.None? then None else host)
      && u.path == (if driver.None? then None else path)
      && u.parameters == (if driver.None? then [] else params)
      && u.user == (if u.host.None? then None else user)
      && u.port == (if u.host.None? then None else port)
  {
    if path == Some("session") && !SessionDriver(driver) then Err(ValueError)
    else if path == Some("system") && !SystemDriver(driver) then Err(ValueError)
    else if transport.Some? && ClientOnlyDriver(driver) then Err(ValueError)
    else if host.None? && ClientOnlyDriver(driver) then Err(ValueError)
    else if transport == Some(External) && !HasKey(params, "command") then Err(ValueError)
    else if !SshTransport(transport) && user.Some? then Err(ValueError)
    else if port.Some? && !(1 <= port.value < 65536) then Err(ValueError)
    else
      var u := Uri(driver, transport, user, host, port, path, params);
      var u := if driver.None? then u.(transport := None, host := None, path := None, parameters := []) else u;
      Ok(if u.host.None? then u.(user := None, port := None) else u)
  }

  /** `URI()`, the default URI. */
  const Default: Uri := Uri(None, None, None, None, None, None, [])

  /** Whatever else is passed, a constructed URI without a driver is the default one. */
  lemma NoDriverIsDefault(transport: Option<Transport>, user: Option<string>, host: Option<string>,
                          port: Option<int>, path: Option<string>, params: seq<Param>)
    requires MakeUri(None, transport, user, host, port, path, params).Ok?
    ensures MakeUri(None, transport, user, host, port, path, params) == Ok(Default)
  {
  }

  /** Normalisation is idempotent: rebuilding a constructed URI from its fields gives it back. */
  lemma RebuildIsIdentity(driver: Option<Driver>, transport: Option<Transport>, user: Option<string>,
                          host: Option<string>, port: Option<int>, path: Option<string>, params: seq<Param>)
    requires MakeUri(driver, transport, user, host, port, path, params).Ok?
    ensures var u := MakeUri(driver, transport, user, host, port, path, params).value;
      MakeUri(u.driver, u.transport, u.user, u.host, u.port, u.path, u.parameters) == Ok(u)
  {
    var u := MakeUri(driver, transport, user, host, port, path, params).value;
    if driver.Some? && transport == Some(External) {
      assert u.parameters == params;
    }
  }

  // ---------------------------------------------------------------------
  // Percent-encoding (`urllib.parse.quote`)

  /** The characters `quote` never encodes. */
  predicate Unreserved(c: char)
  {
    ('A' <= c <= 'Z') || ('a' <= c <= 'z') || ('0' <= c <= '9') || c == '_' || c == '.' || c == '-' || c == '~'
  }

  /** The UTF-8 encoding of one character. */
  function Utf8(c: char): (bytes: seq<nat>)
    ensures 1 <= |bytes| <= 4
    ensures forall k :: 0 <= k < |bytes| ==> bytes[k] < 256
    ensures (c as int < 128) <==> |bytes| == 1
    ensures |bytes| == 1 ==> bytes[0] == c as int
  {
    var n := c as int;
    if n < 0x80 then [n]
    else if n < 0x800 then [0xC0 + n / 0x40, 0x80 + n % 0x40]
    else if n < 0x10000 then [0xE0 + n / 0x1000, 0x80 + n / 0x40 % 0x40, 0x80 + n % 0x40]
    else [0xF0 + n / 0x40000, 0x80 + n / 0x1000 % 0x40, 0x80 + n / 0x40 % 0x40, 0x80 + n % 0x40]
  }

  function HexDigit(d: nat): (c: char)
    requires d < 16
    ensures Unreserved(c)
  {
    if d < 10 then ('0' as int + d) as char else ('A' as int + d - 10) as char
  }

  /** `%XX` with upper-case hexadecimal digits, for each byte. */
  function Escape(bytes: seq<nat>): (s: string)
    requires forall k :: 0 <= k < |bytes| ==> bytes[k] < 256
    ensures |s| == 3 * |bytes|
    ensures forall i :: 0 <= i < |s| ==> s[i] == '%' || Unreserved(s[i])
    decreases |bytes|
  {
    if bytes == [] then ""
    else ['%', HexDigit(bytes[0] / 16), HexDigit(bytes[0] % 16)] + Escape(bytes[1..])
  }

  function QuoteChar(c: char, safe: string): (s: string)
    ensures forall i :: 0 <= i < |s| ==> s[i] == '%' || Unreserved(s[i]) || s[i] in safe
  {
    if c as int < 128 && (Unreserved(c) || c in safe) then [c] else Escape(Utf8(c))
  }

  /** `quote(s, safe)`. */
  function Quote(s: string, safe: string): (q: string)
    ensures forall i :: 0 <= i < |q| ==> q[i] == '%' || Unreserved(q[i]) || q[i] in safe
    decreases |s|
  {
    if s == [] then "" else QuoteChar(s[0], safe) + Quote(s[1..], safe)
  }

  /** Text made only of unreserved and safe ASCII characters is left as it is. */
  lemma {:induction false} QuotePlain(s: string, safe: string)
    requires forall i :: 0 <= i < |s| ==> s[i] as int < 128 && (Unreserved(s[i]) || s[i] in safe)
    ensures Quote(s, safe) == s
    decreases |s|
  {
    if s != [] {
      QuotePlain(s[1..], safe);
      assert s == [s[0]] + s[1..];
    }
  }

  /** A character outside the unreserved set, not `%` and not safe never appears in quoted text. */
  lemma QuoteAvoids(s: string, safe: string, c: char)
    requires !Unreserved(c) && c != '%' && c !in safe
    ensures c !in Quote(s, safe)
  {
    var q := Quote(s, safe);
    assert forall i :: 0 <= i < |q| ==> q[i] != c;
  }

  // ---------------------------------------------------------------------
  // `str(uri)` as written

  /** What follows the driver's name: nothing for a TLS or absent transport. */
  function SchemeTail(u: Uri): string
  {
    if u.transport.Some? && TransportValue(u.transport.value) != "" then
      if u.transport.value == Unix && u.host.None? then "://"
      else "+" + TransportValue(u.transport.value) + "://"
    else ""
  }

  function UserPart(u: Uri): string
  {
    if u.user.Some? then u.user.value + "@" else ""
  }

  function HostPart(u: Uri): string
  {
    if u.host.Some? then u.host.value else ""
  }

  function PortPart(u: Uri): string
  {
    if u.port.Some? then ":" + IntStr(u.port.value) else ""
  }

  /** The path, quoted with `/` kept, or `/` alone when there is none. */
  function PathPart(u: Uri): string
  {
    if u.path.Some? then Quote(u.path.value, "/") else "/"
  }

  /** Everything before the query. */
  function Head(u: Uri): string
    requires u.driver.Some?
  {
    DriverValue(u.driver.value) + SchemeTail(u) + UserPart(u) + HostPart(u) + PortPart(u) + PathPart(u)
  }

  function Pair(p: Param): string
  {
    p.0 + "=" + Quote(p.1, "")
  }

  /** The query as written: `?` before the first pair, `&` before and a space after every later one. */
  function Query(params: seq<Param>): string
    decreases |params|
  {
    if |params| == 0 then ""
    else if |params| == 1 then "?" + Pair(params[0])
    else Query(params[..|params| - 1]) + ("&" + Pair(params[|params| - 1]) + " ")
  }

  function Text(u: Uri): string
  {
    if u.driver.None? then "" else Head(u) + Query(u.parameters)
  }

  /** `URI.__str__`. */
  method ToString(u: Uri) returns (s: string)
    ensures s == Text(u)
  {
    if u.driver.None? {
      return "";
    }
    s := HeadText(u);
    s := AppendQuery(s, u.parameters);
  }

  /** The scheme and location, grown piece by piece. */
  method HeadText(u: Uri) returns (uri: string)
    requires u.driver.Some?
    ensures uri == Head(u)
  {
    uri := DriverValue(u.driver.value);
    if u.transport.Some? && TransportValue(u.transport.value) != "" {
      if u.transport.value == Unix && u.host.None? {
        uri := uri + "://";
      } else {
        uri := uri + ("+" + TransportValue(u.transport.value) + "://");
      }
    }
    assert uri == DriverValue(u.driver.value) + SchemeTail(u);
    if u.user.Some? {
      uri := uri + (u.user.value + "@");
    }
    assert uri == DriverValue(u.driver.value) + SchemeTail(u) + UserPart(u);
    if u.host.Some? {
      uri := uri + u.host.value;
    }
    assert uri == DriverValue(u.driver.value) + SchemeTail(u) + UserPart(u) + HostPart(u);
    if u.port.Some? {
      uri := uri + (":" + IntStr(u.port.value));
    }
    assert uri == DriverValue(u.driver.value) + SchemeTail(u) + UserPart(u) + HostPart(u) + PortPart(u);
    if u.path.Some? {
      uri := uri + Quote(u.path.value, "/");
    } else {
      uri := uri + "/";
    }
  }

  /** The parameter loop with its `first` flag. */
  method AppendQuery(head: string, params: seq<Param>) returns (uri: string)
    ensures uri == head + Query(params)
  {
    uri := head;
    var first := true;
    var i := 0;
    while i < |params|
      invariant 0 <= i <= |params|
      invariant first <==> i == 0
      invariant uri == head + Query(params[..i])
    {
      QueryStep(params, i);
      if first {
        uri := uri + ("?" + Pair(params[i]));
        first := false;
      } else {
        uri := uri + ("&" + Pair(params[i]) + " ");
      }
      QueryAssoc(head, Query(params[..i]), params[i], i == 0);
      i := i + 1;
    }
    assert params[..i] == params;
  }

  lemma QueryStep(params: seq<Param>, i: nat)
    requires i < |params|
    ensures Query(params[..i + 1]) == if i == 0 then "?" + Pair(params[0])
      else Query(params[..i]) + ("&" + Pair(params[i]) + " ")
  {
    assert params[..i + 1][..i] == params[..i];
  }

  lemma QueryAssoc(head: string, q: string, p: Param, first: bool)
    requires first ==> q == ""
    ensures var x := if first then "?" + Pair(p) else "&" + Pair(p) + " ";
      head + q + x == head + (if first then x else q + x)
  {
  }

  lemma DriverValueShape(d: Driver)
    ensures DriverValue(d) != "" && '+' !in DriverValue(d)
  {
  }

  lemma TransportValueShape(t: Transport)
    ensures '+' !in TransportValue(t)
  {
  }

  lemma PrefixConcat(a: string, b: string)
    ensures StartsWith(a + b, a)
  {
    assert (a + b)[..|a|] == a;
  }

  lemma PrefixExtend(s: string, p: string, x: string)
    requires StartsWith(s, p)
    ensures StartsWith(s + x, p)
  {
    assert (s + x)[..|p|] == s[..|p|];
  }

  /** The string is empty exactly for a URI without a driver, and otherwise starts with the driver's name. */
  lemma TextStart(u: Uri)
    ensures Text(u) == "" <==> u.driver.None?
    ensures u.driver.Some? ==> StartsWith(Text(u), DriverValue(u.driver.value))
  {
    if u.driver.Some? {
      var d := DriverValue(u.driver.value);
      DriverValueShape(u.driver.value);
      PrefixConcat(d, SchemeTail(u));
      var x := d + SchemeTail(u);
      PrefixExtend(x, d, UserPart(u));
      x := x + UserPart(u);
      PrefixExtend(x, d, HostPart(u));
      x := x + HostPart(u);
      PrefixExtend(x, d, PortPart(u));
      x := x + PortPart(u);
      PrefixExtend(x, d, PathPart(u));
      x := x + PathPart(u);
      PrefixExtend(x, d, Query(u.parameters));
    }
  }

  /**
   * After the driver's name comes `://` for a local UNIX transport,
   * `+<transport>://` for any other named transport, and nothing at all for
   * a TLS or absent one.
   */
  lemma SchemeSeparator(u: Uri)
    ensures SchemeTail(u) == (
      if u.transport == Some(Unix) && u.host.None? then "://"
      else if u.transport.Some? && u.transport.value != Tls then "+" + TransportValue(u.transport.value) + "://"
      else "")
  {
  }

  // ---------------------------------------------------------------------
  // `URI.from_string`

  /**
   * What `urlparse` and `parse_qs` extract from the text; `port` is the
   * parsed port, and `params` the first value of each query key.
   */
  datatype UrlParts = UrlParts(
    scheme: string,
    username: Option<string>,
    hostname: Option<string>,
    port: Option<int>,
    path: string,
    params: seq<Param>)

  /**
   * The driver and transport named by the scheme, before defaulting TLS to
   * UNIX for a local URI: a `driver+transport` scheme names both, and a bare
   * driver gets UNIX locally and TLS (the empty transport) remotely.
   */
  function SchemeParts(scheme: string, hostname: Option<string>): (r: Result<(Driver, Transport)>)
    ensures r.Err? ==> r.error == ValueError
    ensures r.Ok? ==> StartsWith(scheme, DriverValue(r.value.0))
    ensures r.Ok? && '+' in scheme ==> scheme == DriverValue(r.value.0) + "+" + TransportValue(r.value.1)
    ensures r.Ok? && '+' !in scheme ==>
      scheme == DriverValue(r.value.0) && r.value.1 == (if hostname.None? then Unix else Tls)
  {
    var parts := Split(scheme, '+');
    SplitCount(scheme, '+');
    if |parts| == 1 then
      var d :- DriverOf(parts[0]);
      assert scheme == parts[0] by { SplitJoin(scheme, '+'); }
      Ok((d, if hostname.None? then Unix else Tls))
    else if |parts| == 2 then
      var d :- DriverOf(parts[0]);
      var t :- TransportOf(parts[1]);
      SplitJoin(scheme, '+');
      assert scheme == parts[0] + "+" + parts[1];
      Ok((d, t))
    else Err(ValueError)
  }

  function FromString(uri: string, parts: UrlParts): (r: Result<Uri>)
    ensures uri == "" ==> r == Ok(Default)
    ensures uri != "" && parts.scheme == "" ==> r == Err(ValueError)
    ensures uri != "" && multiset(parts.scheme)['+'] > 1 ==> r == Err(ValueError)
    ensures r.Err? ==> r.error == ValueError
    ensures uri != "" && r.Ok? ==> r.value.driver.Some? && StartsWith(parts.scheme, DriverValue(r.value.driver.value))
    ensures uri != "" && r.Ok? && parts.hostname.None? ==> r.value.transport != Some(Tls)
    ensures uri != "" && r.Ok? && '+' !in parts.scheme ==>
      parts.scheme == DriverValue(r.value.driver.value) &&
      r.value.transport == Some(if parts.hostname.None? then Unix else Tls)
    ensures uri != "" && r.Ok? && '+' in parts.scheme ==>
      exists t :: parts.scheme == DriverValue(r.value.driver.value) + "+" + TransportValue(t) &&
        r.value.transport == Some(if parts.hostname.None? && t == Tls then Unix else t)
  {
    if uri == "" then Ok(Default)
    else if parts.scheme == "" then Err(ValueError)
    else
      SplitCount(parts.scheme, '+');
      var dt :- SchemeParts(parts.scheme, parts.hostname);
      var transport := if parts.hostname.None? && dt.1 == Tls then Unix else dt.1;
      MakeUri(Some(dt.0), Some(transport), parts.username, parts.hostname, parts.port,
              if parts.path == "" then None else Some(parts.path), parts.params)
  }

  // ---------------------------------------------------------------------
  // What `__str__` and the path check evidently intend

  /** The text `urlparse` would find in the strings the repository's tests round-trip. */
  const XenParts: UrlParts := UrlParts("xen", None, Some("example.com"), None, "/system", [])
  const ChParts: UrlParts := UrlParts("ch", None, None, None, "/system", [])

  /** As written, a remote TLS URI loses its `://`: `xen://example.com/system` prints as `xenexample.com/system`. */
  lemma TlsLosesSeparator()
    ensures FromString("xen://example.com/system", XenParts) == Ok(XenUri)
    ensures Text(XenUri) == "xenexample.com/system"
  {
    XenParsed();
    XenText();
  }

  lemma XenParsed()
    ensures FromString("xen://example.com/system", XenParts) == Ok(XenUri)
  {
    XenScheme();
  }

  lemma XenText()
    ensures Text(XenUri) == "xenexample.com/system"
  {
    XenPath();
    XenPieces();
    assert Head(XenUri) == "xen" + "" + "" + "example.com" + "" + "/system";
    EmptyConcats("xen", "example.com", "/system");
    XenLiterals();
  }

  lemma XenPieces()
    ensures DriverValue(Xen) == "xen"
    ensures SchemeTail(XenUri) == "" && UserPart(XenUri) == "" && HostPart(XenUri) == "example.com"
    ensures PortPart(XenUri) == "" && Query([]) == "" && IntendedQuery([]) == ""
  {
  }

  lemma XenPath()
    ensures PathPart(XenUri) == "/system"
  {
    QuotePlain("/system", "/");
  }

  lemma XenLiterals()
    ensures "xen" + "example.com" + "/system" == "xenexample.com/system"
    ensures "xen" + "://" + "example.com" + "/system" == "xen://example.com/system"
  {
  }

  lemma EmptyConcats(a: string, b: string, c: string)
    ensures a + "" + "" + b + "" + c + "" == a + b + c
    ensures a + "://" + "" + b + "" + c + "" == a + "://" + b + c
  {
  }

  const XenUri: Uri := Uri(Some(Xen), Some(Tls), None, Some("example.com"), None, Some("/system"), [])

  lemma XenScheme()
    ensures SchemeParts("xen", Some("example.com")) == Ok((Xen, Tls))
  {
    SplitNoSep("xen", '+');
    assert DriverOf("xen") == Ok(Xen);
  }

  /** As written, and with no transport at all, `URI(driver=QEMU)` prints as `qemu/`. */
  lemma NoTransportLosesSeparator()
    ensures MakeUri(Some(Qemu), None, None, None, None, None, []).Ok?
    ensures Text(MakeUri(Some(Qemu), None, None, None, None, None, []).value) == "qemu/"
  {
  }

  /** As written, a second parameter is followed by a space. */
  lemma TrailingSpace()
    ensures Query([("a", "1"), ("b", "2")]) == "?a=1&b=2 "
  {
    var ps: seq<Param> := [("a", "1"), ("b", "2")];
    assert ps[..1] == [("a", "1")];
    QuotePlain("1", "");
    QuotePlain("2", "");
  }

  /**
   * As written, `from_string` hands the parsed path `/system` to a check
   * that compares with `system`, so `ch:///system` is accepted although
   * the cloud-hypervisor driver has no system instance.
   */
  lemma SystemPathAccepted()
    ensures FromString("ch:///system", ChParts).Ok?
  {
    assert Split("ch", '+') == ["ch"] by { SplitNoSep("ch", '+'); }
  }

  /** The transport a parsed URI ends with: an absent or TLS transport means UNIX locally and TLS remotely. */
  function EffectiveTransport(u: Uri): Transport
  {
    if u.transport.None? || u.transport == Some(Tls) then (if u.host.None? then Unix else Tls)
    else u.transport.value
  }

  /** The scheme, naming the transport unless it is implied by the driver alone. */
  function IntendedScheme(u: Uri): string
    requires u.driver.Some?
  {
    if u.transport.Some? && u.transport.value != Tls && !(u.transport.value == Unix && u.host.None?)
    then DriverValue(u.driver.value) + "+" + TransportValue(u.transport.value)
    else DriverValue(u.driver.value)
  }

  function Pairs(params: seq<Param>): (r: seq<string>)
    ensures |r| == |params|
    ensures forall k :: 0 <= k < |r| ==> r[k] == Pair(params[k])
  {
    seq(|params|, k requires 0 <= k < |params| => Pair(params[k]))
  }

  /** The query with `&` between pairs and nothing after the last. */
  function IntendedQuery(params: seq<Param>): string
  {
    if params == [] then "" else "?" + Join(Pairs(params), "&")
  }

  /** `str(uri)` as evidently intended: always `://` after the scheme. */
  function IntendedText(u: Uri): string
  {
    if u.driver.None? then ""
    else IntendedScheme(u) + "://" + UserPart(u) + HostPart(u) + PortPart(u) + PathPart(u) + IntendedQuery(u.parameters)
  }

  /** The intended scheme parses back to the driver and the effective transport. */
  lemma IntendedSchemeParses(u: Uri)
    requires u.driver.Some?
    ensures SchemeParts(IntendedScheme(u), u.host) == Ok((u.driver.value, EffectiveTransport(u)))
  {
    var d := u.driver.value;
    DriverRoundTrip(d);
    DriverValueShape(d);
    SplitNoSep(DriverValue(d), '+');
    if u.transport.Some? && u.transport.value != Tls && !(u.transport.value == Unix && u.host.None?) {
      var t := u.transport.value;
      TransportRoundTrip(t);
      TransportValueShape(t);
      SplitNoSep(TransportValue(t), '+');
      SplitAfter(DriverValue(d), '+', TransportValue(t));
      assert DriverValue(d) + "+" + TransportValue(t) == DriverValue(d) + ['+'] + TransportValue(t);
    }
  }

  /** Apart from the strings `from_string` cannot see, the intended text round-trips the effective transport. */
  lemma IntendedTransportRoundTrip(u: Uri, parts: UrlParts)
    requires u.driver.Some?
    requires parts.scheme == IntendedScheme(u) && parts.hostname == u.host
    ensures var r := SchemeParts(parts.scheme, parts.hostname);
      r.Ok? && r.value.0 == u.driver.value
      && (if parts.hostname.None? && r.value.1 == Tls then Unix else r.value.1) == EffectiveTransport(u)
  {
    IntendedSchemeParses(u);
  }

  /** The intended query splits on `&` back into one `key=value` piece per parameter. */
  lemma IntendedQuerySplits(params: seq<Param>)
    requires params != []
    requires forall k :: 0 <= k < |params| ==> '&' !in params[k].0
    ensures IntendedQuery(params)[0] == '?'
    ensures Split(IntendedQuery(params)[1..], '&') == Pairs(params)
  {
    var ps := Pairs(params);
    forall k | 0 <= k < |ps|
      ensures '&' !in ps[k]
    {
      QuoteAvoids(params[k].1, "", '&');
    }
    JoinSplit(ps, '&');
    assert IntendedQuery(params)[1..] == Join(ps, "&");
  }

  /** The intended text of the remote TLS sample is the text it was parsed from. */
  lemma IntendedTlsSample()
    ensures IntendedText(XenUri) == "xen://example.com/system"
  {
    XenPath();
    XenPieces();
    assert IntendedScheme(XenUri) == "xen";
    assert IntendedText(XenUri) == "xen" + "://" + "" + "example.com" + "" + "/system" + "";
    EmptyConcats("xen", "example.com", "/system");
    XenLiterals();
  }

  /** A path names the session or system instance with its leading slash, as `from_string` passes it. */
  predicate IntendedPathRejected(driver: Option<Driver>, path: Option<string>)
  {
    || (path == Some("/session") && !SessionDriver(driver))
    || (path == Some("/system") && !SystemDriver(driver))
  }

  /** `from_string` with the path check evidently intended, ahead of the checks as written. */
  function IntendedFromString(uri: string, parts: UrlParts): (r: Result<Uri>)
    ensures uri != "" && parts.scheme != "" ==>
      (SchemeParts(parts.scheme, parts.hostname).Ok?
       && IntendedPathRejected(Some(SchemeParts(parts.scheme, parts.hostname).value.0), Some(parts.path))
       ==> r == Err(ValueError))
    ensures r.Ok? ==> r == FromString(uri, parts)
    ensures r.Err? ==> r.error == ValueError
  {
    if uri != "" && parts.scheme != "" && SchemeParts(parts.scheme, parts.hostname).Ok?
       && IntendedPathRejected(Some(SchemeParts(parts.scheme, parts.hostname).value.0), Some(parts.path))
    then Err(ValueError)
    else FromString(uri, parts)
  }

  /** With the intended check, `ch:///system` is refused. */
  lemma SystemPathRejected()
    ensures IntendedFromString("ch:///system", ChParts) == Err(ValueError)
  {
    assert Split("ch", '+') == ["ch"] by { SplitNoSep("ch", '+'); }
  }

  // ---------------------------------------------------------------------
  // Client-only drivers and the transport `from_string` gives them

  /** `hyperv://example-hyperv.com/?transport=http`, as `urlparse` and `parse_qs` split it. */
  const HyperVParts: UrlParts :=
    UrlParts("hyperv", None, Some("example-hyperv.com"), None, "/", [("transport", "http")])

  /**
   * As written, `from_string` gives every scheme a transport, and the
   * constructor refuses any transport for a client-only driver, so no
   * URI of such a driver parses.
   */
  lemma ClientOnlyNeverParses(uri: string, parts: UrlParts)
    requires uri != ""
    ensures FromString(uri, parts).Ok? ==> !ClientOnlyDriver(FromString(uri, parts).value.driver)
  {
    if parts.scheme != "" && SchemeParts(parts.scheme, parts.hostname).Ok? {
      var dt := SchemeParts(parts.scheme, parts.hostname).value;
      var transport := if parts.hostname.None? && dt.1 == Tls then Unix else dt.1;
      var path := if parts.path == "" then None else Some(parts.path);
      assert FromString(uri, parts)
          == MakeUri(Some(dt.0), Some(transport), parts.username, parts.hostname, parts.port, path, parts.params);
    }
  }

  lemma HyperVScheme()
    ensures SchemeParts("hyperv", Some("example-hyperv.com")) == Ok((HyperV, Tls))
  {
    SplitNoSep("hyperv", '+');
    assert DriverOf("hyperv") == Ok(HyperV);
  }

  /** As written, the repository's Hyper-V sample URI is refused. */
  lemma HyperVSampleRefused()
    ensures FromString("hyperv://example-hyperv.com/?transport=http", HyperVParts) == Err(ValueError)
  {
    HyperVScheme();
  }

  /**
   * `from_string` with the evidently intended transport: a one-part
   * scheme naming a client-only driver gets none, since that driver
   * speaks its own protocol.
   */
  function IntendedClientFromString(uri: string, parts: UrlParts): (r: Result<Uri>)
    ensures r.Err? ==> r.error == ValueError
    ensures uri == "" || '+' in parts.scheme ==> r == FromString(uri, parts)
    ensures uri != "" && r.Ok? && '+' !in parts.scheme ==>
      r.value.transport == (if ClientOnlyDriver(r.value.driver) then None
                            else Some(if parts.hostname.None? then Unix else Tls))
  {
    if uri == "" || '+' in parts.scheme then FromString(uri, parts)
    else if parts.scheme == "" then Err(ValueError)
    else
      var dt :- SchemeParts(parts.scheme, parts.hostname);
      var transport := if ClientOnlyDriver(Some(dt.0)) then None
                       else Some(if parts.hostname.None? then Unix else Tls);
      MakeUri(Some(dt.0), transport, parts.username, parts.hostname, parts.port,
              if parts.path == "" then None else Some(parts.path), parts.params)
  }

  /** For every other driver the intended parse is the parse as written. */
  lemma IntendedClientAgrees(uri: string, parts: UrlParts)
    requires uri != "" && parts.scheme != ""
    requires SchemeParts(parts.scheme, parts.hostname).Ok?
    requires !ClientOnlyDriver(Some(SchemeParts(parts.scheme, parts.hostname).value.0))
    ensures IntendedClientFromString(uri, parts) == FromString(uri, parts)
  {
    if '+' !in parts.scheme {
      SplitNoSep(parts.scheme, '+');
    }
  }

  /** With the intended transport, the Hyper-V sample parses, keeping its host, path and parameters. */
  lemma HyperVSampleParses()
    ensures IntendedClientFromString("hyperv://example-hyperv.com/?transport=http", HyperVParts)
         == Ok(Uri(Some(HyperV), None, None, Some("example-hyperv.com"), None, Some("/"), [("transport", "http")]))
  {
    HyperVScheme();
    assert '+' !in "hyperv";
  }
}
