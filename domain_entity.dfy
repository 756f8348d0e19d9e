/**
 * The domain wrapper of fvirt/libvirt/domain.py: `DomainState` and its
 * text, the validators of the CPU and memory properties, and the
 * lifecycle operations `reset`, `shutdown` and `managedSave`.
 *
 * `shutdown` asks the guest to stop and then polls `running` about once a
 * second. What each read of `running` sees is the oracle `polls`: the
 * `k`-th read after the request (counting from 0) sees `polls(k)`, and the
 * model writes that answer into the backend before the read. Sleeping is
 * not modelled.
 */
module LibvirtDomain {
  import opened Wrappers
  import opened LibvirtEntity

  // ---------------------------------------------------------------------
  // DomainState

  /** `DomainState`, libvirt's `virDomainState` (its `NONE` is `StateNone` here). */
  datatype DomainState =
    | StateNone | Running | Blocked | Paused | Shutdown | Shutoff | Crashed | Pmsuspend | Unknown

  /** The enumeration value of a state. */
  function Code(s: DomainState): (c: int)
    ensures 0 <= c <= 8
  {
    match s
    case StateNone => 0
    case Running => 1
    case Blocked => 2
    case Paused => 3
    case Shutdown => 4
    case Shutoff => 5
    case Crashed => 6
    case Pmsuspend => 7
    case Unknown => 8
  }

  /** The `state` property: `DomainState(n)`, with `UNKNOWN` for a value the enumeration lacks. */
  function StateOf(n: int): DomainState
  {
    match n
    case 0 => StateNone
    case 1 => Running
    case 2 => Blocked
    case 3 => Paused
    case 4 => DomainState.Shutdown
    case 5 => Shutoff
    case 6 => Crashed
    case 7 => Pmsuspend
    case _ => Unknown
  }

  /** Every state reads back from its own value, so the values are distinct. */
  lemma StateRoundTrip(s: DomainState)
    ensures StateOf(Code(s)) == s
  {
  }

  /** Values outside the enumeration read as `UNKNOWN`. */
  lemma UnknownValues(n: int)
    requires n < 0 || n > 7
    ensures StateOf(n) == Unknown
  {
  }

  /** `DomainState.__str__`: three states have their own text, the others their lower-cased name. */
  function StateText(s: DomainState): string
  {
    match s
    case Shutdown => "shutting down"
    case Shutoff => "shut off"
    case Pmsuspend => "suspended by guest"
    case StateNone => "none"
    case Running => "running"
    case Blocked => "blocked"
    case Paused => "paused"
    case Crashed => "crashed"
    case Unknown => "unknown"
  }

  /** No two states print alike. */
  lemma StateTextInjective(a: DomainState, b: DomainState)
    requires StateText(a) == StateText(b)
    ensures a == b
  {
    var ta, tb := StateText(a), StateText(b);
    assert ta[0] == tb[0] && |ta| == |tb|;
    if ta[0] == 's' {
      assert ta[1] == tb[1] && ta[6] == tb[6];
    } else if ta[0] == 'r' || ta[0] == 'c' || ta[0] == 'b' || ta[0] == 'p' {
    } else {
      assert ta[1] == tb[1];
    }
  }

  // ---------------------------------------------------------------------
  // Property validators

  /** `_non_negative_integer`: an integer of at least 1 (despite the name). */
  function PositiveInteger(value: Number): (r: Check)
    ensures r.Pass? <==> value.Int? && value.value >= 1
    ensures r.Fail? ==> r.error == ValueError
  {
    if value.NotAnInt? then Fail(ValueError)
    else if value.value < 1 then Fail(ValueError)
    else Pass
  }

  /**
   * `_currentCPUs_validator`, `_memory_validator` and
   * `_currentMemory_validator`: a positive integer no larger than
   * `maxCPUs`, `maxMemory` and `memory` respectively.
   */
  function PositiveWithin(value: Number, limit: int): (r: Check)
    ensures r.Pass? <==> value.Int? && 1 <= value.value <= limit
    ensures r.Fail? ==> r.error == ValueError
  {
    var c := PositiveInteger(value);
    if c.Fail? then c
    else if value.value > limit then Fail(ValueError)
    else Pass
  }

  /** Accepted memory settings are ordered: `currentMemory <= memory <= maxMemory`. */
  lemma MemoryOrdered(currentMemory: Number, memory: Number, maxMemory: int)
    requires memory.Int?
    requires PositiveWithin(memory, maxMemory).Pass? && PositiveWithin(currentMemory, memory.value).Pass?
    ensures 1 <= currentMemory.value <= memory.value <= maxMemory
  {
  }

  // ---------------------------------------------------------------------
  // Lifecycle operations

  /** `reset`: only for a running domain. */
  method Reset(d: Entity, fails: bool) returns (r: Result<LifecycleResult>)
    requires d.kind == DomainKind
    modifies d.backend
    ensures d.backend.Reported() == old(d.backend.Reported())
    ensures d.CheckValid().Fail? ==> r == Err(d.CheckValid().error) && d.backend.calls == old(d.backend.calls)
    ensures d.CheckValid().Pass? && !d.backend.active ==>
              r == Err(EntityNotRunning) && d.backend.calls == old(d.backend.calls)
    ensures d.CheckValid().Pass? && d.backend.active ==>
              d.backend.calls == old(d.backend.calls) + [Call.Reset] && r == Ok(if fails then Failure else Success)
  {
    var c := d.CheckValid();
    if c.Fail? {
      return Err(c.error);
    }
    // `running` repeats the validity check that just passed
    if !d.backend.active {
      return Err(EntityNotRunning);
    }
    d.backend.calls := d.backend.calls + [Call.Reset];
    if fails {
      return Ok(Failure);
    }
    return Ok(Success);
  }

  /**
   * `managedSave`: a stopped domain with a saved image answers without a
   * call (`NO_OPERATION` when idempotent, `FAILURE` otherwise); one without
   * raises `EntityNotRunning`; a transient domain cannot be saved.
   */
  method ManagedSave(d: Entity, idempotent: bool, fails: bool) returns (r: Result<LifecycleResult>)
    requires d.kind == DomainKind
    modifies d.backend
    ensures d.backend.Reported() == old(d.backend.Reported())
    ensures d.CheckValid().Fail? ==> r == Err(d.CheckValid().error)
    ensures d.CheckValid().Pass? && !d.backend.active && d.backend.managedSaveImage ==>
              r == Ok(if idempotent then NoOperation else Failure)
    ensures d.CheckValid().Pass? && !d.backend.active && !d.backend.managedSaveImage ==>
              r == Err(EntityNotRunning)
    ensures d.CheckValid().Pass? && d.backend.active && !d.backend.persistent ==> r == Err(InvalidOperation)
    ensures d.CheckValid().Pass? && d.backend.active && d.backend.persistent ==>
              d.backend.calls == old(d.backend.calls) + [Call.ManagedSave]
              && r == Ok(if fails then Failure else Success)
    ensures !(d.CheckValid().Pass? && d.backend.active && d.backend.persistent) ==>
              d.backend.calls == old(d.backend.calls)
  {
    var c := d.CheckValid();
    if c.Fail? {
      return Err(c.error);
    }
    // `running`, `hasManagedSave` and `persistent` repeat the validity check that just passed
    if !d.backend.active {
      if d.backend.managedSaveImage {
        return Ok(if idempotent then NoOperation else Failure);
      }
      return Err(EntityNotRunning);
    }
    if !d.backend.persistent {
      return Err(InvalidOperation);
    }
    d.backend.calls := d.backend.calls + [Call.ManagedSave];
    if fails {
      return Ok(Failure);
    }
    return Ok(Success);
  }

  /** The number of polls `shutdown` may make: no timeout and a negative one mean none. */
  function Ticks(timeout: Option<Number>): (r: Result<nat>)
    ensures r.Err? <==> timeout == Some(NotAnInt)
    ensures r.Err? ==> r.error == ValueError
    ensures timeout.None? ==> r == Ok(0)
    ensures timeout.Some? && timeout.value.Int? ==>
              r == Ok(if timeout.value.value < 0 then 0 else timeout.value.value)
  {
    match timeout
    case None => Ok(0)
    case Some(NotAnInt) => Err(ValueError)
    case Some(Int(n)) => if n < 0 then Ok(0) else Ok(n)
  }

  /** The reads of `running` the poll loop makes from read `j` on, out of `ticks`: it stops at the first one that sees the domain stopped. */
  function ReadsFrom(polls: nat -> bool, ticks: nat, j: nat): (n: nat)
    requires j <= ticks
    ensures j <= n <= ticks
    decreases ticks - j
  {
    if j == ticks then ticks
    else if !polls(j) then j + 1
    else ReadsFrom(polls, ticks, j + 1)
  }

  /** The number of reads of `running` in `shutdown`'s poll loop. */
  function PollReads(polls: nat -> bool, ticks: nat): nat
  {
    ReadsFrom(polls, ticks, 0)
  }

  lemma {:induction false} ReadsFromMeaning(polls: nat -> bool, ticks: nat, j: nat)
    requires j <= ticks
    ensures forall i :: j <= i < ReadsFrom(polls, ticks, j) - 1 ==> polls(i)
    ensures ReadsFrom(polls, ticks, j) < ticks ==> ReadsFrom(polls, ticks, j) > j && !polls(ReadsFrom(polls, ticks, j) - 1)
    ensures (exists i :: j <= i < ticks && !polls(i))
        <==> (ReadsFrom(polls, ticks, j) > j && !polls(ReadsFrom(polls, ticks, j) - 1))
    decreases ticks - j
  {
    if j < ticks && polls(j) {
      ReadsFromMeaning(polls, ticks, j + 1);
    }
  }

  /**
   * The poll loop makes at most `ticks` reads, every read but the last saw
   * the domain running, and it ends early exactly when a read sees the
   * domain stopped.
   */
  lemma PollLoopBounded(polls: nat -> bool, ticks: nat)
    ensures PollReads(polls, ticks) <= ticks
    ensures forall i :: 0 <= i < PollReads(polls, ticks) - 1 ==> polls(i)
    ensures PollReads(polls, ticks) < ticks ==> PollReads(polls, ticks) > 0 && !polls(PollReads(polls, ticks) - 1)
    ensures (exists i :: 0 <= i < ticks && !polls(i))
        <==> (PollReads(polls, ticks) > 0 && !polls(PollReads(polls, ticks) - 1))
  {
    ReadsFromMeaning(polls, ticks, 0);
  }

  /** The `match` on `destroy(idempotent=True)` in the `force` branch. */
  function ForcedOutcome(destroyed: Result<LifecycleResult>): (r: Result<LifecycleResult>)
    ensures r == Ok(Forced) <==> destroyed == Ok(Success)
    ensures destroyed.Err? ==> r == destroyed
  {
    match destroyed
    case Ok(Success) => Ok(Forced)
    case Ok(Failure) => Ok(Failure)
    case Ok(NoOperation) => Ok(Success)
    case Ok(_) => Err(RuntimeError)
    case Err(e) => Err(e)
  }

  /** `shutdown` gets past its early answers: a valid timeout, a valid wrapper and a running domain. */
  predicate Requested(timeout: Option<Number>, check: Check, active: bool)
  {
    Ticks(timeout).Ok? && check.Pass? && active
  }

  /**
   * `shutdown`. The writes to `self.__valid` after the domain stops land in
   * a name-mangled attribute and never change `valid`; only a forced
   * `destroy` of a transient domain invalidates the wrapper.
   */
  method Shutdown(d: Entity, timeout: Option<Number>, force: bool, idempotent: bool,
                  shutdownFails: bool, polls: nat -> bool, destroyFails: bool)
    returns (r: Result<LifecycleResult>)
    requires d.kind == DomainKind
    modifies d, d.backend
    ensures d.backend == old(d.backend)
    ensures d.backend.persistent == old(d.backend.persistent)
    ensures d.backend.managedSaveImage == old(d.backend.managedSaveImage)
    ensures d.backend.capacity == old(d.backend.capacity)
    ensures Ticks(timeout).Err? ==>
              r == Err(ValueError) && d.valid == old(d.valid) && d.backend.calls == old(d.backend.calls)
    ensures Ticks(timeout).Ok? && old(d.CheckValid()).Fail? ==>
              r == Err(old(d.CheckValid()).error) && d.valid == old(d.valid) && d.backend.calls == old(d.backend.calls)
    ensures Ticks(timeout).Ok? && old(d.CheckValid()).Pass? && !old(d.backend.active) ==>
              r == Ok(AlreadyDone(idempotent)) && d.valid && d.backend.calls == old(d.backend.calls)
    ensures Requested(timeout, old(d.CheckValid()), old(d.backend.active)) && shutdownFails ==>
              r == Ok(Failure) && d.valid && d.backend.calls == old(d.backend.calls) + [Call.Shutdown]
    ensures Requested(timeout, old(d.CheckValid()), old(d.backend.active)) && !shutdownFails ==>
              var n := PollReads(polls, Ticks(timeout).value);
              && (!polls(n) ==> r == Ok(Success) && d.valid && d.backend.calls == old(d.backend.calls) + [Call.Shutdown])
              && (polls(n) && !force ==>
                    r == Ok(TimedOut) && d.valid && d.backend.calls == old(d.backend.calls) + [Call.Shutdown])
              && (polls(n) && force && !polls(n + 1) ==>
                    r == Ok(Forced) && d.valid && d.backend.calls == old(d.backend.calls) + [Call.Shutdown])
              && (polls(n) && force && polls(n + 1) ==>
                    && d.backend.calls == old(d.backend.calls) + [Call.Shutdown, Call.Destroy]
                    && r == Ok(if destroyFails then Failure else Forced)
                    && d.valid == (destroyFails || d.backend.persistent))
  {
    var t := Ticks(timeout);
    if t.Err? {
      return Err(t.error);
    }
    var ticks := t.value;
    var running :- d.Probe(d.backend.active);
    if !running || !d.valid {
      return Ok(AlreadyDone(idempotent));
    }
    // `mark_invalid` (not persistent) only feeds the `__valid` writes, which change nothing
    d.backend.calls := d.backend.calls + [Call.Shutdown];
    if shutdownFails {
      return Ok(Failure);
    }
    ghost var calls := d.backend.calls;
    var tmcount := ticks;
    var polled := 0;
    while tmcount > 0
      invariant 0 <= tmcount <= ticks && polled == ticks - tmcount
      invariant ReadsFrom(polls, ticks, polled) == PollReads(polls, ticks)
      invariant d.valid && d.backend == old(d.backend) && d.backend.calls == calls
      invariant d.backend.persistent == old(d.backend.persistent)
      invariant d.backend.managedSaveImage == old(d.backend.managedSaveImage)
      invariant d.backend.capacity == old(d.backend.capacity)
      decreases tmcount
    {
      d.backend.active := polls(polled);
      polled := polled + 1;
      if !d.backend.active {
        break;
      }
      tmcount := tmcount - 1;
    }
    assert polled == PollReads(polls, ticks);
    d.backend.active := polls(polled);
    if !d.backend.active {
      return Ok(Success);
    }
    if !force {
      return Ok(TimedOut);
    }
    d.backend.active := polls(polled + 1);
    var destroyed := d.Destroy(true, destroyFails);
    return ForcedOutcome(destroyed);
  }
}
