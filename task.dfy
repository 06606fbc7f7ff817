/**
  The task descriptor of the batch system and the two-dimensional resource
  amounts (compute units and memory) that tasks require and pools hold.
*/
module Tasks {
  import opened Prelude

  /** An amount of resources in each tracked dimension; both fields are `u32`. */
  datatype ResourceRequirements = ResourceRequirements(cpu: U32, memory: U32)

  /** The four states a task can be reported in. */
  datatype TaskStatus = Queued | Running | Completed | Failed

  /**
    A unit of work: the executable's name, its ordered arguments, a `u32`
    priority, what it needs to run, and a status field that no operation of
    the kernel ever writes.
  */
  datatype Task = Task(
    executable: string,
    arguments: seq<string>,
    priority: U32,
    resourceRequirements: ResourceRequirements,
    status: TaskStatus)

  /** `req` fits within `available` in every dimension. */
  predicate Fits(req: ResourceRequirements, available: ResourceRequirements)
  {
    req.cpu <= available.cpu && req.memory <= available.memory
  }

  /** Adding `req` to `available` stays within `u32` in every dimension. */
  predicate CanAdd(available: ResourceRequirements, req: ResourceRequirements)
  {
    available.cpu + req.cpu <= U32_MAX && available.memory + req.memory <= U32_MAX
  }

  /** Component-wise `+=` on resource amounts, without `u32` overflow. */
  function Add(available: ResourceRequirements, req: ResourceRequirements): (r: ResourceRequirements)
    requires CanAdd(available, req)
    ensures Fits(available, r) && Fits(req, r)
  {
    ResourceRequirements(available.cpu + req.cpu, available.memory + req.memory)
  }

  /**
    Component-wise `-=` on resource amounts. Only defined when `req` fits, so
    it never underflows; adding `req` back gives `available` again.
  */
  function Sub(available: ResourceRequirements, req: ResourceRequirements): (r: ResourceRequirements)
    requires Fits(req, available)
    ensures Fits(r, available)
    ensures CanAdd(r, req) && Add(r, req) == available
  {
    ResourceRequirements(available.cpu - req.cpu, available.memory - req.memory)
  }

  /** Removing what was added restores the amount: the other half of the round trip. */
  lemma AddThenSub(available: ResourceRequirements, req: ResourceRequirements)
    requires CanAdd(available, req)
    ensures Fits(req, Add(available, req)) && Sub(Add(available, req), req) == available
  {
  }

  /** `Fits` is a partial order: transitive. */
  lemma FitsTransitive(a: ResourceRequirements, b: ResourceRequirements, c: ResourceRequirements)
    requires Fits(a, b) && Fits(b, c)
    ensures Fits(a, c)
  {
  }
}
