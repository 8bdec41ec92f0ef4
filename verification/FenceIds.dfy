/** The simulator's fence ids (plugins/gpu_driver/sim/fence_id.cpp), without the bridge to the
    semaphore manager: a counter and a table of signalled flags. */
module FenceIds {
  const FENCE_BASE: nat := 0x1_0000_0000
  const FENCE_MAX: nat := 0x7FFF_FFFF_FFFF_FFFF

  datatype Fences = Fences(next: nat, table: map<nat, bool>)

  function NoFences(): Fences { Fences(FENCE_BASE, map[]) }

  predicate InRange(id: nat) { FENCE_BASE <= id <= FENCE_MAX }

  function Allocate(f: Fences): Fences { Fences(f.next + 1, f.table[f.next := false]) }

  function Signal(f: Fences, id: nat): Fences { if InRange(id) then f.(table := f.table[id := true]) else f }

  /** What a check of an id in range reports. */
  predicate Signalled(f: Fences, id: nat) { id in f.table && f.table[id] }

  class FenceTable {
    var next: nat
    var table: map<nat, bool>

    function Contents(): Fences
      reads this
    {
      Fences(next, table)
    }

    constructor ()
      ensures Contents() == NoFences()
    {
      next, table := FENCE_BASE, map[];
    }

    method AllocateId() returns (id: nat)
      modifies this
      ensures Contents() == Allocate(old(Contents())) && id == old(next)
    {
      id := next;
      next := next + 1;
      table := table[id := false];
    }

    method Check(id: nat) returns (ok: bool, signaled: bool)
      ensures ok <==> InRange(id)
      ensures ok ==> (signaled <==> Signalled(Contents(), id))
    {
      if id < FENCE_BASE || id > FENCE_MAX { return false, false; }
      if id !in table { return true, false; }
      return true, table[id];
    }

    method SignalId(id: nat)
      modifies this
      ensures Contents() == Signal(old(Contents()), id)
    {
      if id < FENCE_BASE || id > FENCE_MAX { return; }
      table := table[id := true];
    }
  }

  /** A signalled fence stays signalled over an allocation exactly when its id is not the one
      being handed out, which only a fence signalled before it was allocated can be. */
  lemma AllocateKeepsSignal(f: Fences, id: nat)
    requires Signalled(f, id)
    ensures Signalled(Allocate(f), id) <==> id != f.next
  {
  }
}
