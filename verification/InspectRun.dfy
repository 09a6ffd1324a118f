/** The chain over the real chunk, and what a whole run asks of Google. */
module InspectRun {
  import opened Common
  import opened InspectChunk
  import opened InspectChain

  lemma ChunksSpend()
    ensures forall world, table, remaining, skipIds {:trigger Chunk(world, table, remaining, skipIds)} ::
      SpendsWithin(Chunk(world, table, remaining, skipIds), remaining)
  {
    hide Chunk;
    forall world, table, remaining, skipIds
      ensures SpendsWithin(Chunk(world, table, remaining, skipIds), remaining)
    {
      ChunkSpends(world, table, remaining, skipIds);
    }
  }

  // `runGscInspectChunk` as the chain sees it.
  function Inspect(): (run: Runner)
    ensures forall world, table, remaining, skipIds {:trigger run(world, table, remaining, skipIds)} ::
      run(world, table, remaining, skipIds)
      == Chunked(Chunk(world, table, remaining, skipIds), ChunkTable(world, table, remaining, skipIds))
  {
    ChunksSpend();
    (world, table, remaining, skipIds) =>
      Chunked(Chunk(world, table, remaining, skipIds), ChunkTable(world, table, remaining, skipIds))
  }

  function Inspection(worlds: nat -> World): Site { Site(worlds, Inspect()) }

  predicate AskedIn(call: Call, id: int) {
    exists e :: e in Asked(call.world, call.table, call.remaining, call.skipIds) && e.id == id
  }

  // ----- when a run ends

  // Every row that is due when the chunk reads the list, the skip list aside, is asked about.
  ghost predicate AskedAll(call: Call) {
    forall id :: id in Due(Edited(call.table, call.world.before), call.world.startedAt, call.skipIds) ==>
      AskedIn(call, id)
  }

  lemma UnfilledAsksAll(world: World, table: Table, remaining: int, skipIds: seq<int>)
    requires var r := Chunk(world, table, remaining, skipIds);
      r.outcome == Ran && r.next == None && r.inspected < remaining
    ensures AskedAll(CallOf(Inspect(), world, table, remaining, skipIds))
  {
    hide Chunk, Selected, Due, Edited, Refused;
    ChunkReports(world, table, remaining, skipIds);
    AskedCount(world, table, remaining, skipIds);
    var call, due := CallOf(Inspect(), world, table, remaining, skipIds),
                     Due(Edited(table, world.before), world.startedAt, skipIds);
    forall id | id in due ensures AskedIn(call, id) {
      SelectedWhole(world, table, remaining, skipIds, id);
    }
  }

  // What of the budget was not spent when the run ended.
  function Unspent(calls: seq<Call>): int
    requires calls != []
  {
    Last(calls).remaining - Last(calls).result.inspected
  }

  /** When the loop ends its budget is used up, or the run was halted or not configured, or every
      row due at its last chunk was asked about, but for those that failed earlier in the run. */
  lemma {:induction false} LoopEnds(worlds: nat -> World, k: nat, table: Table, remaining: int, skipIds: seq<int>)
    ensures var inline := InlineCalls(Inspection(worlds), k, table, remaining, skipIds);
      && Summed(inline).inspected + Unspent(inline) == remaining
      && Last(inline).skipIds == Skipped(skipIds, inline[..|inline| - 1])
      && (Last(inline).result.outcome != Ran || Unspent(inline) <= 0 || AskedAll(Last(inline)))
    decreases Positive(remaining)
  {
    hide Chunk, ChunkTable, AskedAll, InlineCalls;
    var site := Inspection(worlds);
    InlineSplits(site, k, table, remaining, skipIds);
    var inline, call := InlineCalls(site, k, table, remaining, skipIds),
                        CallOf(Inspect(), worlds(k), table, remaining, skipIds);
    ChunkSpends(worlds(k), table, remaining, skipIds);
    SummedAdds([call], inline[1..]);
    assert inline == [call] + inline[1..];
    if call.result.next.Some? {
      var rest := inline[1..];
      LoopEnds(worlds, k + 1, call.after, call.result.next.value, skipIds + call.result.failedIds);
      assert Last(inline) == Last(rest);
      assert inline[..|inline| - 1] == [call] + rest[..|rest| - 1];
      SkippedAdds(skipIds, call, rest[..|rest| - 1]);
    } else {
      assert inline == [call] && inline[..0] == [];
      if call.result.outcome == Ran && call.result.inspected < remaining {
        UnfilledAsksAll(worlds(k), table, remaining, skipIds);
      }
    }
  }

  // ----- no row is asked about twice

  // The row cannot be on the worklist of any chunk that rechecks only before `bound`.
  predicate Out(table: Table, skipIds: seq<int>, id: int, bound: int) {
    || id in skipIds
    || id !in table
    || (table[id].inspectedAt.Some? && table[id].inspectedAt.value >= bound)
  }

  predicate Unedited(world: World, id: int) {
    id !in world.before && id !in world.during && id !in world.late
  }

  lemma StaysOut(world: World, table: Table, remaining: int, skipIds: seq<int>, id: int, bound: int)
    requires Out(table, skipIds, id, bound) && Unedited(world, id)
    requires world.startedAt - GSC_INSPECT_RECHECK_MS <= bound
    ensures !AskedIn(CallOf(Inspect(), world, table, remaining, skipIds), id)
    ensures var call := CallOf(Inspect(), world, table, remaining, skipIds);
            Out(call.after, skipIds + call.result.failedIds, id, bound)
  {
    hide Selected, Chunk;
    forall e | e in Asked(world, table, remaining, skipIds) ensures e.id != id {
      AskedWasRead(world, table, remaining, skipIds, e);
    }
  }

  // From chunk `k` on, the loop never asks about a row that is out.
  lemma {:induction false} NeverAsked(worlds: nat -> World, k: nat, table: Table, remaining: int,
                                      skipIds: seq<int>, id: int, bound: int, j: nat)
    requires Out(table, skipIds, id, bound)
    requires j < |InlineCalls(Inspection(worlds), k, table, remaining, skipIds)|
    requires forall n: nat {:trigger worlds(n)} :: k <= n <= k + j ==>
      Unedited(worlds(n), id) && worlds(n).startedAt - GSC_INSPECT_RECHECK_MS <= bound
    ensures !AskedIn(InlineCalls(Inspection(worlds), k, table, remaining, skipIds)[j], id)
    decreases j
  {
    hide Chunk, ChunkTable, Out, AskedIn;
    var call := CallOf(Inspect(), worlds(k), table, remaining, skipIds);
    StaysOut(worlds(k), table, remaining, skipIds, id, bound);
    if j > 0 {
      NeverAsked(worlds, k + 1, call.after, call.result.next.value, skipIds + call.result.failedIds, id, bound, j - 1);
    }
  }

  /** A run asks Google about a row at most once, unless the page is edited meanwhile or the
      run outlasts the recheck window: failing rows included, which the skip list carries. */
  lemma {:induction false} AskedOnce(worlds: nat -> World, k: nat, table: Table, remaining: int,
                                     skipIds: seq<int>, i: nat, j: nat, id: int)
    requires i < j < |InlineCalls(Inspection(worlds), k, table, remaining, skipIds)|
    requires AskedIn(InlineCalls(Inspection(worlds), k, table, remaining, skipIds)[i], id)
    requires Quiet(worlds(k + i), id)
    requires forall n: nat {:trigger worlds(n)} :: k + i < n <= k + j ==>
      Unedited(worlds(n), id) && worlds(n).startedAt - GSC_INSPECT_RECHECK_MS <= worlds(k + i).inspectedAt
    ensures !AskedIn(InlineCalls(Inspection(worlds), k, table, remaining, skipIds)[j], id)
    decreases i
  {
    hide Chunk, ChunkTable, Asked;
    var call := CallOf(Inspect(), worlds(k), table, remaining, skipIds);
    var next := call.result.next;
    if i > 0 {
      AskedOnce(worlds, k + 1, call.after, next.value, skipIds + call.result.failedIds, i - 1, j - 1, id);
    } else {
      var e :| e in Asked(call.world, table, remaining, skipIds) && e.id == id;
      AskedLeaves(worlds(k), table, remaining, skipIds, e);
      NeverAsked(worlds, k + 1, call.after, next.value, skipIds + call.result.failedIds,
                 id, worlds(k).inspectedAt, j - 1);
    }
  }
}
