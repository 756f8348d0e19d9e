/**
 * The connection handling of fvirt/libvirt/hypervisor.py. A `Hypervisor`
 * shares one libvirt connection between its users by reference count:
 * `open` creates the connection on first use and otherwise only counts,
 * `close` drops one reference and releases the connection with the last
 * one. Defining or creating an entity first checks the instance's
 * privileges and connection.
 *
 * Calls into libvirt become parameters: `fails` says whether the libvirt
 * call raises `libvirt.libvirtError`.
 */
module LibvirtHypervisor {
  import opened Wrappers

  /** `_connection is not None` and `__conn_count`. */
  datatype ConnState = ConnState(open: bool, count: int)

  /** What `open` and `close` keep: a connection exists exactly when the count is positive. */
  predicate Consistent(s: ConnState)
  {
    s.count >= 0 && (s.open <==> s.count > 0)
  }

  /** A new instance: no connection, no references. */
  const Fresh: ConnState := ConnState(false, 0)

  /** `bool(hv)`. */
  predicate Connected(s: ConnState)
  {
    s.count > 0
  }

  /**
   * `open()`: creates the connection when there is none (the libvirt open
   * may raise), refuses a connection without references, and otherwise
   * adds a reference.
   */
  function Opened(s: ConnState, fails: bool): (r: Result<ConnState>)
    ensures r.Ok? ==> r.value.open && r.value.count == s.count + 1
    ensures Consistent(s) ==> (r.Err? <==> !s.open && fails)
    ensures s.open && s.count == 0 ==> r == Err(RuntimeError)
    ensures r.Ok? && Consistent(s) ==> Consistent(r.value)
  {
    if !s.open then
      if fails then Err(LibvirtError) else Ok(ConnState(true, s.count + 1))
    else if s.count == 0 then Err(RuntimeError)
    else Ok(s.(count := s.count + 1))
  }

  /** `close()`: drops one reference, releasing the connection with the last one; never below zero. */
  function Closed(s: ConnState): (r: ConnState)
    ensures r.count >= 0
    ensures s.count >= 1 ==> r.count == s.count - 1
    ensures Consistent(s) ==> Consistent(r) && (r.open <==> s.count >= 2)
  {
    var open := if s.open && s.count < 2 then false else s.open;
    var count := s.count - 1;
    ConnState(open, if count < 0 then 0 else count)
  }

  /** Closing a closed instance leaves it closed with no references. */
  lemma CloseWhenClosed()
    ensures Closed(Fresh) == Fresh
    ensures Closed(Closed(Fresh)) == Fresh
  {
  }

  /** `n` successful opens in a row. */
  function OpenTimes(s: ConnState, n: nat): (r: ConnState)
    requires Consistent(s)
    ensures Consistent(r)
    decreases n
  {
    if n == 0 then s else OpenTimes(Opened(s, false).value, n - 1)
  }

  /** `k` closes in a row. */
  function CloseTimes(s: ConnState, k: nat): (r: ConnState)
    requires Consistent(s)
    ensures Consistent(r)
    decreases k
  {
    if k == 0 then s else CloseTimes(Closed(s), k - 1)
  }

  lemma {:induction false} OpenTimesCount(s: ConnState, n: nat)
    requires Consistent(s)
    ensures OpenTimes(s, n).count == s.count + n
    decreases n
  {
    if n > 0 {
      OpenTimesCount(Opened(s, false).value, n - 1);
    }
  }

  lemma {:induction false} CloseTimesCount(s: ConnState, k: nat)
    requires Consistent(s)
    ensures CloseTimes(s, k).count == if s.count >= k then s.count - k else 0
    decreases k
  {
    if k > 0 {
      CloseTimesCount(Closed(s), k - 1);
    }
  }

  /** After `n` opens and `k` closes the instance is connected exactly when `k < n`. */
  lemma OpensThenCloses(n: nat, k: nat)
    ensures Connected(CloseTimes(OpenTimes(Fresh, n), k)) <==> k < n
    ensures CloseTimes(OpenTimes(Fresh, n), k).open <==> k < n
  {
    OpenTimesCount(Fresh, n);
    CloseTimesCount(OpenTimes(Fresh, n), k);
  }

  /** libvirt's `virDomainCreateFlags` values used by `createDomain`. */
  const StartPaused: bv32 := 1
  const StartAutoDestroy: bv32 := 2
  const StartResetNvram: bv32 := 32

  class Hypervisor {
    const readOnly: bool
    /** `_connection is not None`. */
    var connection: bool
    /** `__conn_count`. */
    var count: int

    function State(): ConnState
      reads this
    {
      ConnState(connection, count)
    }

    /** `__bool__`, and the `connected` test the entity wrappers make. */
    predicate IsConnected()
      reads this
    {
      Connected(State())
    }

    constructor(readOnly: bool)
      ensures this.readOnly == readOnly
      ensures State() == Fresh
    {
      this.readOnly := readOnly;
      connection := false;
      count := 0;
    }

    /** `open()`. */
    method Open(fails: bool) returns (r: Check)
      modifies this
      ensures Opened(old(State()), fails).Ok? ==> r == Pass && State() == Opened(old(State()), fails).value
      ensures Opened(old(State()), fails).Err? ==>
                r == Fail(Opened(old(State()), fails).error) && State() == old(State())
    {
      if !connection {
        if fails {
          return Fail(LibvirtError);
        }
        connection := true;
        count := count + 1;
      } else if count == 0 {
        return Fail(RuntimeError);
      } else {
        count := count + 1;
      }
      return Pass;
    }

    /** `close()`. */
    method Close()
      modifies this
      ensures State() == Closed(old(State()))
    {
      if connection && count < 2 {
        connection := false;
      }
      count := count - 1;
      if count < 0 {
        count := 0;
      }
    }

    /**
     * `__define_entity` as written: its handler names `libvirt.LibvirtError`,
     * which the libvirt module does not define, so a failing backend call
     * ends in an `AttributeError` raised while the handler is matched.
     */
    function DefineEntityAsWritten(fails: bool): (r: Check)
      reads this
      ensures readOnly ==> r == Fail(InsufficientPrivileges)
      ensures !readOnly && !connection ==> r == Fail(NotConnected)
      ensures !readOnly && connection ==> (r.Pass? <==> !fails)
      ensures r.Fail? && fails && !readOnly && connection ==> r.error == AttributeError
    {
      if readOnly then Fail(InsufficientPrivileges)
      else if !connection then Fail(NotConnected)
      else if fails then Fail(AttributeError)
      else Pass
    }

    /**
     * `__define_entity` as its documentation and its callers' promise it:
     * a configuration libvirt refuses raises `InvalidConfig`. The
     * read-only check comes before the connection check.
     */
    function DefineEntity(fails: bool): (r: Check)
      reads this
      ensures r.Pass? <==> !readOnly && connection && !fails
      ensures readOnly ==> r == Fail(InsufficientPrivileges)
      ensures !readOnly && !connection ==> r == Fail(NotConnected)
      ensures !readOnly && connection && fails ==> r == Fail(InvalidConfig)
    {
      if readOnly then Fail(InsufficientPrivileges)
      else if !connection then Fail(NotConnected)
      else if fails then Fail(InvalidConfig)
      else Pass
    }

    /** The two differ exactly on a backend error reached past both checks. */
    lemma DefineErrorMisreported(fails: bool)
      ensures DefineEntityAsWritten(fails) != DefineEntity(fails) <==> !readOnly && connection && fails
    {
    }

    /**
     * `createDomain`: assembles the start flags, then defines and starts the
     * domain through the intended `__define_entity`. It parts from the code
     * as written only where libvirt refuses the configuration.
     */
    method CreateDomain(paused: bool, resetNvram: bool, autoDestroy: bool, fails: bool)
      returns (r: Check, flags: bv32)
      ensures r == DefineEntity(fails)
      ensures r != DefineEntityAsWritten(fails) <==> !readOnly && connection && fails
      ensures (flags & StartPaused != 0) <==> paused
      ensures (flags & StartResetNvram != 0) <==> resetNvram
      ensures (flags & StartAutoDestroy != 0) <==> autoDestroy
      ensures flags & !(StartPaused | StartResetNvram | StartAutoDestroy) == 0
    {
      flags := 0;
      if paused {
        flags := flags | StartPaused;
      }
      if resetNvram {
        flags := flags | StartResetNvram;
      }
      if autoDestroy {
        flags := flags | StartAutoDestroy;
      }
      r := DefineEntity(fails);
    }
  }
}
