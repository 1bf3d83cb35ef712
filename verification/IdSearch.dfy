/** The search for an unused id, run by one process alone (src/sharedMemory.cpp). */
module IdSearch {
  import opened Wrappers
  import opened OperatingSystem

  /** Ids are unsigned 64-bit numbers that wrap around. */
  const IDS := 0x1_0000_0000_0000_0000

  type Id = id: nat | id < IDS

  function Next(id: Id): Id {
    if id + 1 == IDS then 0 else id + 1
  }

  /** The id reached after `steps` increments. */
  function Ahead(id: nat, steps: nat): (r: nat)
    requires id < IDS && steps <= IDS
    ensures r < IDS
  {
    if id + steps < IDS then id + steps else id + steps - IDS
  }

  /** How many increments lead from `from` to `to`, counting a full turn when they are equal. */
  function Distance(from: nat, to: nat): (d: nat)
    requires from < IDS && to < IDS
    ensures 1 <= d <= IDS && Ahead(from, d) == to
    ensures forall e :: 1 <= e <= IDS && Ahead(from, e) == to ==> e == d
  {
    if to > from then to - from else to + IDS - from
  }

  /** The search goes upwards, one id at a time, and around after the last. */
  lemma AheadIsModulo(id: Id, steps: nat)
    requires steps <= IDS
    ensures Ahead(id, steps) == (id + steps) % IDS
    ensures steps < IDS ==> Ahead(id, steps + 1) == Next(Ahead(id, steps))
    ensures 1 <= steps ==> Distance(id, (id + steps) % IDS) == steps
  {
  }

  ghost predicate InUse(os: Os, id: nat) {
    Data(id) in os.names
  }

  /** `id` is the first unused id in cyclic order after `from`. */
  ghost predicate FirstUnused(os: Os, from: nat, id: nat)
    requires from < IDS
  {
    && id < IDS && !InUse(os, id)
    && forall other: nat :: other < IDS && Distance(from, other) < Distance(from, id) ==> InUse(os, other)
  }

  class IdCounter {
    var lastId: nat

    method GetNextId(table: SystemTable) returns (r: Result<nat>)
      requires lastId < IDS
      modifies this
      ensures r.Ok? <==> exists id: nat :: id < IDS && !InUse(table.state, id)
      ensures r.Ok? ==> FirstUnused(table.state, old(lastId), r.value) && lastId == r.value
      ensures r.Err? ==> lastId == old(lastId)
    {
      var initialId := lastId;
      ghost var steps: nat := 0;
      while true
        invariant steps <= IDS && lastId == Ahead(initialId, steps)
        invariant lastId < IDS && (steps == IDS ==> lastId == initialId)
        invariant forall other: nat :: other < IDS && Distance(initialId, other) <= steps ==> InUse(table.state, other)
        invariant steps > 0 ==> lastId != initialId
        decreases IDS - steps
      {
        lastId := Next(lastId);
        steps := steps + 1;
        assert lastId == Ahead(initialId, steps) && steps == Distance(initialId, lastId);
        if Data(lastId) !in table.state.names {
          assert !InUse(table.state, lastId);
          return Ok(lastId);
        }
        if lastId == initialId {
          break;
        }
      }
      assert forall other: nat :: other < IDS ==> Distance(initialId, other) <= IDS;
      r := Err(NoFreeId);
    }
  }

  /** There is at most one such id, so the search has only one answer. */
  lemma FirstUnusedIsUnique(os: Os, from: nat, a: nat, b: nat)
    requires from < IDS && FirstUnused(os, from, a) && FirstUnused(os, from, b)
    ensures a == b
  {
    assert Ahead(from, Distance(from, a)) == a && Ahead(from, Distance(from, b)) == b;
  }
}
