/**
  The authoritative resource pool: a total and what is still available, with
  all-or-nothing allocation and unchecked release.
*/
module Resources {
  import opened Tasks

  class ResourceManager {
    var totalResources: ResourceRequirements
    var availableResources: ResourceRequirements

    /** A pool whose availability starts at its total. */
    constructor (total: ResourceRequirements)
      ensures totalResources == total && availableResources == total
    {
      totalResources := total;
      availableResources := total;
    }

    /**
      Grants `req` when it fits in every dimension, otherwise changes nothing:
      no partial allocation is ever observable.
    */
    method AllocateResources(req: ResourceRequirements) returns (granted: bool)
      modifies this
      ensures granted <==> Fits(req, old(availableResources))
      ensures granted ==> availableResources == Sub(old(availableResources), req)
      ensures !granted ==> availableResources == old(availableResources)
      ensures totalResources == old(totalResources)
    {
      if req.cpu <= availableResources.cpu && req.memory <= availableResources.memory {
        availableResources := ResourceRequirements(
          availableResources.cpu - req.cpu,
          availableResources.memory - req.memory);
        granted := true;
      } else {
        granted := false;
      }
    }

    /**
      Gives `req` back. There is no check against the total: the caller must
      only return what it was granted. The `u32` additions must not overflow.
    */
    method ReleaseResources(req: ResourceRequirements)
      requires CanAdd(availableResources, req)
      modifies this
      ensures availableResources == Add(old(availableResources), req)
      ensures totalResources == old(totalResources)
    {
      availableResources := ResourceRequirements(
        availableResources.cpu + req.cpu,
        availableResources.memory + req.memory);
    }

    /** A read-only snapshot of the availability. */
    method GetAvailableResources() returns (available: ResourceRequirements)
      ensures available == availableResources
    {
      available := availableResources;
    }
  }

  /** Sum of the cpu amounts of a sequence of grants. */
  function HeldCpu(held: seq<ResourceRequirements>): nat
  {
    if held == [] then 0 else held[0].cpu + HeldCpu(held[1..])
  }

  /** Sum of the memory amounts of a sequence of grants. */
  function HeldMemory(held: seq<ResourceRequirements>): nat
  {
    if held == [] then 0 else held[0].memory + HeldMemory(held[1..])
  }

  /**
    The pool's books balance: what is available plus everything granted and
    not yet released is the total, in each dimension.
  */
  predicate Accounted(total: ResourceRequirements, available: ResourceRequirements, held: seq<ResourceRequirements>)
  {
    available.cpu + HeldCpu(held) == total.cpu && available.memory + HeldMemory(held) == total.memory
  }

  lemma {:induction false} HeldAppend(held: seq<ResourceRequirements>, req: ResourceRequirements)
    ensures HeldCpu(held + [req]) == HeldCpu(held) + req.cpu
    ensures HeldMemory(held + [req]) == HeldMemory(held) + req.memory
  {
    if held != [] {
      assert (held + [req])[1..] == held[1..] + [req];
      HeldAppend(held[1..], req);
    }
  }

  lemma {:induction false} HeldRemove(held: seq<ResourceRequirements>, i: nat)
    requires i < |held|
    ensures HeldCpu(held) == HeldCpu(held[..i] + held[i + 1..]) + held[i].cpu
    ensures HeldMemory(held) == HeldMemory(held[..i] + held[i + 1..]) + held[i].memory
  {
    if i > 0 {
      HeldRemove(held[1..], i - 1);
      assert held[1..][..i - 1] + held[1..][i..] == (held[..i] + held[i + 1..])[1..];
    } else {
      assert held[..i] + held[i + 1..] == held[1..];
    }
  }

  /** A balanced pool never shows more available than its total. */
  lemma AccountedBounds(total: ResourceRequirements, available: ResourceRequirements, held: seq<ResourceRequirements>)
    requires Accounted(total, available, held)
    ensures Fits(available, total)
    ensures held == [] ==> available == total
  {
  }

  /** A successful allocation keeps the books balanced, with the grant now held. */
  lemma AllocateKeepsAccount(total: ResourceRequirements, available: ResourceRequirements,
                             held: seq<ResourceRequirements>, req: ResourceRequirements)
    requires Accounted(total, available, held) && Fits(req, available)
    ensures Accounted(total, Sub(available, req), held + [req])
  {
    HeldAppend(held, req);
  }

  /**
    Releasing any grant still held cannot overflow a `u32` and keeps the books
    balanced, with that grant no longer held.
  */
  lemma ReleaseKeepsAccount(total: ResourceRequirements, available: ResourceRequirements,
                            held: seq<ResourceRequirements>, i: nat)
    requires Accounted(total, available, held) && i < |held|
    ensures CanAdd(available, held[i])
    ensures Accounted(total, Add(available, held[i]), held[..i] + held[i + 1..])
  {
    HeldRemove(held, i);
  }

  /** The pool's test: 8/16000, grant 4/4000, see 4/12000, release, see 8/16000 again. */
  method AllocateReleaseScenario()
  {
    var manager := new ResourceManager(ResourceRequirements(8, 16_000));
    var requirements := ResourceRequirements(4, 4_000);
    var granted := manager.AllocateResources(requirements);
    assert granted;
    assert manager.availableResources == ResourceRequirements(4, 12_000);
    manager.ReleaseResources(requirements);
    assert manager.availableResources == ResourceRequirements(8, 16_000);
  }
}
