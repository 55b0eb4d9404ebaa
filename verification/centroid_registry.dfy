/** The per-process anchor registry an IceT context keeps (`m_procPositions`):
    one spatial anchor per process id, written by `setProcessorCentroid` and
    read only by the visibility ordering. */
module CentroidRegistry {

  /** A process id as the caller passes it; the registry does not check it. */
  type ProcessId = int

  /** An anchor as handed over: the caller's float vector, read as reals. */
  type Position = seq<real>

  /** Ids map to anchors; there is no removal operation. */
  type Registry = map<ProcessId, Position>

  /** Every id of `[0, n)` has an anchor with at least the three coordinates
      the distance computation reads. */
  predicate CoversRange(reg: Registry, n: nat)
  {
    forall id :: 0 <= id < n ==> id in reg && |reg[id]| >= 3
  }

  /** Inserts or overwrites the anchor of `id`; every other entry stays. */
  function SetProcessorCentroid(reg: Registry, id: ProcessId, position: Position): (r: Registry)
    ensures id in r && r[id] == position
    ensures r.Keys == reg.Keys + {id}
    ensures forall other :: other in reg && other != id ==> r[other] == reg[other]
  {
    reg[id := position]
  }

  /** Repeating a call with the same values changes nothing further. */
  lemma SetProcessorCentroidIdempotent(reg: Registry, id: ProcessId, position: Position)
    ensures SetProcessorCentroid(SetProcessorCentroid(reg, id, position), id, position)
         == SetProcessorCentroid(reg, id, position)
  {
  }

  /** A later call for the same id replaces the earlier anchor entirely. */
  lemma SetProcessorCentroidLastWriteWins(reg: Registry, id: ProcessId, first: Position, second: Position)
    ensures SetProcessorCentroid(SetProcessorCentroid(reg, id, first), id, second)
         == SetProcessorCentroid(reg, id, second)
  {
  }

  /** Calls for different ids may be issued in either order. */
  lemma SetProcessorCentroidCommutes(reg: Registry, a: ProcessId, p: Position, b: ProcessId, q: Position)
    requires a != b
    ensures SetProcessorCentroid(SetProcessorCentroid(reg, a, p), b, q)
         == SetProcessorCentroid(SetProcessorCentroid(reg, b, q), a, p)
  {
  }

  /** Registering a three-coordinate anchor keeps every id already covered
      covered, and adds `id` when it is the next one. */
  lemma SetProcessorCentroidExtendsCoverage(reg: Registry, n: nat, id: ProcessId, position: Position)
    requires CoversRange(reg, n)
    requires |position| >= 3
    ensures CoversRange(SetProcessorCentroid(reg, id, position), n)
    ensures id == n ==> CoversRange(SetProcessorCentroid(reg, id, position), n + 1)
  {
  }
}
