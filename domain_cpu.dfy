/**
 * The CPU part of the domain templating model
 * (fvirt/libvirt/models/domain.py): `CPUTopology.total_cpus`,
 * `CPUTopology.check`, which rewrites the topology in place until it
 * describes exactly the requested number of vcpus, and the branch of
 * `DomainInfo.fixup_vcpus` taken when no `cpu` entry is given.
 */
module DomainCpu {
  import opened Wrappers

  /** The values of `coalesce`. */
  datatype Level = Sockets | Dies | Cores | Threads

  /** A snapshot of the four topology counts. */
  datatype Topology = Topology(sockets: int, dies: int, cores: int, threads: int)
  {
    /** `total_cpus`. */
    function Total(): int
    {
      sockets * dies * cores * threads
    }

    /** The `gt=0` field constraints. */
    predicate Positive()
    {
      sockets > 0 && dies > 0 && cores > 0 && threads > 0
    }

    function Get(level: Level): int
    {
      match level
      case Sockets => sockets
      case Dies => dies
      case Cores => cores
      case Threads => threads
    }
  }

  /** The topology with `level` set to `vcpus` and every other level set to 1. */
  function Coalesced(level: Level, vcpus: int): (t: Topology)
    ensures t.Get(level) == vcpus
    ensures forall other :: other != level ==> t.Get(other) == 1
    ensures t.Total() == vcpus
  {
    match level
    case Sockets => Topology(vcpus, 1, 1, 1)
    case Dies => Topology(1, vcpus, 1, 1)
    case Cores => Topology(1, 1, vcpus, 1)
    case Threads => Topology(1, 1, 1, vcpus)
  }

  lemma TotalWithoutSockets(t: Topology)
    ensures t.(sockets := 1).Total() == t.dies * t.cores * t.threads
  {
  }

  lemma TotalWithoutDies(t: Topology)
    ensures t.(sockets := 1, dies := 1).Total() == t.cores * t.threads
  {
    assert 1 * 1 * t.cores * t.threads == t.cores * t.threads;
  }

  /**
   * What `check(vcpus)` does to a topology: an error for fewer than one
   * vcpu, otherwise a topology whose total is exactly `vcpus`.
   */
  function Synced(t: Topology, coalesce: Option<Level>, vcpus: int): (r: Result<Topology>)
    ensures r.Err? <==> vcpus < 1
    ensures r.Err? ==> r.error == ValueError
    ensures r.Ok? ==> r.value.Total() == vcpus
    ensures r.Ok? && t.Total() == vcpus ==> r.value == t
    ensures r.Ok? && t.Total() != vcpus && coalesce.Some? ==> r.value == Coalesced(coalesce.value, vcpus)
    ensures r.Ok? && t.Positive() ==> r.value.Positive()
  {
    if vcpus < 1 then Err(ValueError)
    else if t.Total() == vcpus then Ok(t)
    else if coalesce.None? then
      if t.dies * t.cores * t.threads == vcpus then
        TotalWithoutSockets(t);
        Ok(t.(sockets := 1))
      else if t.cores * t.threads == vcpus then
        TotalWithoutDies(t);
        Ok(t.(sockets := 1, dies := 1))
      else Ok(Topology(1, 1, vcpus, 1))
    else Ok(Coalesced(coalesce.value, vcpus))
  }

  /**
   * Without `coalesce` the fix-up keeps the inner levels it can: threads
   * always survive unless everything is folded into the cores.
   */
  lemma MinimalFixup(t: Topology, vcpus: int)
    requires vcpus >= 1 && t.Total() != vcpus
    ensures var r := Synced(t, None, vcpus).value;
      r.sockets == 1
      && (r.threads == t.threads || r == Topology(1, 1, vcpus, 1))
      && (t.dies * t.cores * t.threads == vcpus ==> r == t.(sockets := 1))
  {
  }

  /** Synchronising twice changes nothing the second time. */
  lemma SyncedIdempotent(t: Topology, coalesce: Option<Level>, vcpus: int)
    requires vcpus >= 1
    ensures Synced(Synced(t, coalesce, vcpus).value, coalesce, vcpus) == Synced(t, coalesce, vcpus)
  {
  }

  /** `CPUTopology` (the `infer` field and its psutil lookup are not modelled). */
  class CpuTopology {
    const coalesce: Option<Level>
    var sockets: int
    var dies: int
    var cores: int
    var threads: int

    function Shape(): Topology
      reads this
    {
      Topology(sockets, dies, cores, threads)
    }

    /** `total_cpus`. */
    function TotalCpus(): int
      reads this
    {
      sockets * dies * cores * threads
    }

    constructor(coalesce: Option<Level>, sockets: int, dies: int, cores: int, threads: int)
      ensures this.coalesce == coalesce
      ensures Shape() == Topology(sockets, dies, cores, threads)
    {
      this.coalesce := coalesce;
      this.sockets := sockets;
      this.dies := dies;
      this.cores := cores;
      this.threads := threads;
    }

    /** `check(vcpus)`: raises for `vcpus < 1`, otherwise rewrites the fields as `Synced` says. */
    method Check(vcpus: int) returns (r: Check)
      modifies this
      ensures r.Fail? <==> vcpus < 1
      ensures r.Fail? ==> r.error == ValueError && Shape() == old(Shape())
      ensures r.Pass? ==> Shape() == Synced(old(Shape()), coalesce, vcpus).value
      ensures r.Pass? ==> TotalCpus() == vcpus
    {
      if vcpus < 1 {
        return Fail(ValueError);
      }
      ghost var before := Shape();
      r := Pass;
      if TotalCpus() == vcpus {
        return;
      }
      if coalesce.None? {
        if dies * cores * threads == vcpus {
          sockets := 1;
          return;
        }
        if cores * threads == vcpus {
          sockets := 1;
          dies := 1;
          return;
        }
        sockets := 1;
        dies := 1;
        cores := vcpus;
        threads := 1;
      } else {
        sockets := 1;
        dies := 1;
        cores := 1;
        threads := 1;
        match coalesce.value
        case Sockets => sockets := vcpus;
        case Dies => dies := vcpus;
        case Cores => cores := vcpus;
        case Threads => threads := vcpus;
      }
      assert Shape() == Synced(before, coalesce, vcpus).value;
    }
  }

  /** The `vcpu` value `fixup_vcpus` leaves when the domain has no `cpu` entry. */
  function VcpuAfter(vcpu: int): (r: int)
    ensures vcpu >= 0 ==> r >= 1
    ensures vcpu != 0 ==> r == vcpu
  {
    if vcpu == 0 then 1 else vcpu
  }

  /** The vcpu count of `DomainInfo`, for a domain without a `cpu` entry. */
  class DomainVcpus {
    var vcpu: int

    constructor(vcpu: int)
      ensures this.vcpu == vcpu
    {
      this.vcpu := vcpu;
    }

    /** `fixup_vcpus` with `cpu` None: a zero count becomes one. */
    method FixupVcpus()
      modifies this
      ensures vcpu == VcpuAfter(old(vcpu))
    {
      if vcpu == 0 {
        vcpu := 1;
      }
    }
  }
}
