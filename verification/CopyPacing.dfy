/** Destination writes: one atomic batch at a time, retried while D1 reports overload and
    followed by a rest (`pacedWrite`, `runInBatches`). The database's answers, lost
    acknowledgements included, are the environment's choice. */
module CopyPacing {
  import opened Common
  import opened Database
  import opened CopySizing

  const OVERLOAD_WINDOW_MS := 10_000
  const OVERLOAD_RETRY_DELAYS_MS: seq<nat> := [2_000, 5_000, 10_000, 10_000, 13_000]

  datatype Answer =
    | Applied
    | Overloaded   // refused before the work ran
    | Rejected     // a constraint failed and the batch rolled back
    | Broken       // any other error: the batch may or may not have committed

  class Destination {
    const catalog: Catalog
    var tables: Tables
    var queries: nat
    var refusals: nat
    // How often a batch failed for no fault of its statements.
    ghost var faults: nat

    constructor (catalog: Catalog, tables: Tables)
      ensures this.catalog == catalog && this.tables == tables && queries == refusals == faults == 0
    {
      this.catalog, this.tables, queries, refusals, faults := catalog, tables, 0, 0, 0;
    }

    method Batch(ss: seq<Statement>) returns (a: Answer)
      modifies this
      ensures queries == old(queries) + 1
      ensures refusals == old(refusals) + if a == Overloaded then 1 else 0
      ensures faults == old(faults) + if a == Broken then 1 else 0
      ensures a == Applied ==> BatchAccepted(catalog, old(tables), ss) && tables == BatchEffect(old(tables), ss)
      ensures a == Overloaded ==> tables == old(tables)
      ensures a == Rejected ==> tables == old(tables) && !BatchAccepted(catalog, old(tables), ss)
      ensures a == Broken && tables != old(tables) ==>
        BatchAccepted(catalog, old(tables), ss) && tables == BatchEffect(old(tables), ss)
    {
      queries := queries + 1;
      if * {
        refusals := refusals + 1;
        return Overloaded;
      }
      if !BatchAccepted(catalog, tables, ss) {
        return Rejected;
      }
      if * {
        faults := faults + 1;
        return Broken;
      }
      tables := BatchEffect(tables, ss);
      if * {
        faults := faults + 1;
        return Broken;
      }
      return Applied;
    }
  }

  class Pacer {
    var clock: nat
    var slept: nat
    // How long the last write took.
    ghost var took: nat

    constructor ()
      ensures clock == slept == 0
    {
      clock, slept, took := 0, 0, 0;
    }

    method Sleep(ms: nat)
      modifies this
      ensures clock == old(clock) + ms && slept == old(slept) + ms && took == old(took)
    {
      clock, slept := clock + ms, slept + ms;
    }

    // However long the database took.
    method Elapse()
      modifies this
      ensures clock == old(clock) + took && slept == old(slept)
    {
      var ms :| ms >= 0;
      clock, took := clock + ms, ms;
    }
  }

  function TotalDelay(delays: seq<nat>): nat {
    if delays == [] then 0 else TotalDelay(delays[..|delays| - 1]) + delays[|delays| - 1]
  }

  // The waits before the first, second, … retry, summed up.
  lemma DelaysWithin(k: nat)
    requires k <= |OVERLOAD_RETRY_DELAYS_MS|
    ensures k <= 5
    ensures TotalDelay(OVERLOAD_RETRY_DELAYS_MS[..k]) == [0, 2_000, 7_000, 17_000, 27_000, 40_000][k]
  {
    var d := OVERLOAD_RETRY_DELAYS_MS;
    assert TotalDelay(d[..0]) == 0;
    assert d[..1][..0] == d[..0] && TotalDelay(d[..1]) == 2_000;
    assert d[..2][..1] == d[..1] && TotalDelay(d[..2]) == 7_000;
    assert d[..3][..2] == d[..2] && TotalDelay(d[..3]) == 17_000;
    assert d[..4][..3] == d[..3] && TotalDelay(d[..4]) == 27_000;
    assert d[..5][..4] == d[..4] && TotalDelay(d[..5]) == 40_000;
  }

  /** One paced write: applied exactly once if it returns `Applied`, not at all if it was
      refused to the end, at most six attempts with 2, 5, 10, 10 and 13 s between them, and after
      success a rest as long as the write took, up to 10 s. */
  method PacedWrite(dest: Destination, ss: seq<Statement>, pacer: Pacer) returns (a: Answer)
    modifies dest, pacer
    ensures a == Applied ==>
      BatchAccepted(dest.catalog, old(dest.tables), ss) && dest.tables == BatchEffect(old(dest.tables), ss)
    ensures a == Overloaded ==> dest.tables == old(dest.tables) && dest.queries == old(dest.queries) + 6
    ensures a == Rejected ==> dest.tables == old(dest.tables) && !BatchAccepted(dest.catalog, old(dest.tables), ss)
    ensures a == Broken && dest.tables != old(dest.tables) ==>
      BatchAccepted(dest.catalog, old(dest.tables), ss) && dest.tables == BatchEffect(old(dest.tables), ss)
    ensures old(dest.queries) < dest.queries <= old(dest.queries) + 6
    ensures dest.queries - old(dest.queries) == dest.refusals - old(dest.refusals) + if a == Overloaded then 0 else 1
    ensures dest.faults == old(dest.faults) + if a == Broken then 1 else 0
    ensures dest.refusals - old(dest.refusals) <= if a == Overloaded then 6 else 5
    ensures var retries := dest.refusals - old(dest.refusals) - if a == Overloaded then 1 else 0;
      pacer.slept == old(pacer.slept) + [0, 2_000, 7_000, 17_000, 27_000, 40_000][retries]
                     + if a == Applied then Min(10_000, pacer.took) else 0
  {
    var attempt := 0;
    while true
      invariant 0 <= attempt <= |OVERLOAD_RETRY_DELAYS_MS|
      invariant dest.tables == old(dest.tables) && dest.faults == old(dest.faults)
      invariant dest.queries == old(dest.queries) + attempt && dest.refusals == old(dest.refusals) + attempt
      invariant pacer.slept == old(pacer.slept) + TotalDelay(OVERLOAD_RETRY_DELAYS_MS[..attempt])
      decreases |OVERLOAD_RETRY_DELAYS_MS| - attempt
    {
      DelaysWithin(attempt);
      var started := pacer.clock;
      pacer.Elapse();
      a := dest.Batch(ss);
      if a == Applied {
        var rest := Min(OVERLOAD_WINDOW_MS, pacer.clock - started);
        if rest > 0 { pacer.Sleep(rest); }
        return;
      }
      if attempt == |OVERLOAD_RETRY_DELAYS_MS| || a != Overloaded {
        return;
      }
      assert OVERLOAD_RETRY_DELAYS_MS[..attempt + 1][..attempt] == OVERLOAD_RETRY_DELAYS_MS[..attempt];
      pacer.Sleep(OVERLOAD_RETRY_DELAYS_MS[attempt]);
      attempt := attempt + 1;
    }
  }

  // An accepted part of the list ran, from its start.
  ghost predicate StoppedWithin(catalog: Catalog, before: Tables, ss: seq<Statement>, after: Tables) {
    exists k :: 0 <= k <= |ss| && BatchAccepted(catalog, before, ss[..k]) && after == BatchEffect(before, ss[..k])
  }

  lemma NothingRun(catalog: Catalog, db: Tables, ss: seq<Statement>, perBatch: nat)
    requires perBatch > 0
    ensures BatchAccepted(catalog, db, ss[..0]) && BatchEffect(db, ss[..0]) == db && CeilDiv(0, perBatch) == 0
  {
    CeilDivUnique(0, perBatch, 0);
  }

  // The batch from `i` to `end` continues an accepted list, and a rejected one ends it.
  lemma BatchBoundary(catalog: Catalog, db: Tables, ss: seq<Statement>, i: nat, end: nat)
    requires i <= end <= |ss| && BatchAccepted(catalog, db, ss[..i])
    ensures BatchEffect(BatchEffect(db, ss[..i]), ss[i..end]) == BatchEffect(db, ss[..end])
    ensures BatchAccepted(catalog, BatchEffect(db, ss[..i]), ss[i..end]) <==> BatchAccepted(catalog, db, ss[..end])
    ensures BatchAccepted(catalog, db, ss) ==> BatchAccepted(catalog, db, ss[..end])
  {
    assert ss[..end] == ss[..i] + ss[i..end] && ss == ss[..end] + ss[end..];
    BatchConcat(catalog, db, ss[..i], ss[i..end]);
    BatchConcat(catalog, db, ss[..end], ss[end..]);
  }

  lemma NextBatchCount(i: nat, end: nat, total: nat, perBatch: nat)
    requires perBatch > 0 && i % perBatch == 0 && i < total && end == Min(i + perBatch, total)
    ensures CeilDiv(end, perBatch) == CeilDiv(i, perBatch) + 1
    ensures end < total ==> end % perBatch == 0
  {
    var k := i / perBatch;
    assert i == k * perBatch;
    CeilDivSplit(k, 0, perBatch);
    CeilDivSplit(k, end - i, perBatch);
    CeilDivUnique(end - i, perBatch, 1);
    CeilDivUnique(0, perBatch, 0);
    if end < total {
      assert end == (k + 1) * perBatch;
      MultipleMod(k + 1, perBatch);
    }
  }

  /** Running a list batch by batch: it stops at a batch that fails, and only there, and a
      rejection means the database does not accept the list. */
  method RunInBatches(dest: Destination, ss: seq<Statement>, perBatch: nat, pacer: Pacer) returns (a: Answer)
    requires perBatch > 0
    modifies dest, pacer
    ensures a == Applied ==>
      BatchAccepted(dest.catalog, old(dest.tables), ss) && dest.tables == BatchEffect(old(dest.tables), ss)
    ensures a == Rejected ==> !BatchAccepted(dest.catalog, old(dest.tables), ss)
    ensures StoppedWithin(dest.catalog, old(dest.tables), ss, dest.tables)
    ensures a == Applied ==>
      dest.queries == old(dest.queries) + CeilDiv(|ss|, perBatch) + (dest.refusals - old(dest.refusals))
    ensures dest.queries <= old(dest.queries) + CeilDiv(|ss|, perBatch) + (dest.refusals - old(dest.refusals))
    ensures dest.refusals >= old(dest.refusals) + if a == Overloaded then 6 else 0
    ensures dest.faults == old(dest.faults) + if a == Broken then 1 else 0
  {
    hide BatchAccepted, BatchEffect, CeilDiv;
    var i := 0;
    a := Applied;
    ghost var before := dest.tables;
    NothingRun(dest.catalog, before, ss, perBatch);
    while i < |ss|
      invariant 0 <= i <= |ss| && (i < |ss| ==> i % perBatch == 0) && a == Applied
      invariant BatchAccepted(dest.catalog, before, ss[..i]) && dest.tables == BatchEffect(before, ss[..i])
      invariant dest.queries == old(dest.queries) + CeilDiv(i, perBatch) + (dest.refusals - old(dest.refusals))
      invariant dest.refusals >= old(dest.refusals) && dest.faults == old(dest.faults)
    {
      var end := Min(i + perBatch, |ss|);
      BatchBoundary(dest.catalog, before, ss, i, end);
      NextBatchCount(i, end, |ss|, perBatch);
      CeilDivMonotone(end, |ss|, perBatch);
      a := PacedWrite(dest, ss[i..end], pacer);
      if a != Applied {
        assert dest.tables == BatchEffect(before, ss[..i])
            || (BatchAccepted(dest.catalog, before, ss[..end]) && dest.tables == BatchEffect(before, ss[..end]));
        return;
      }
      i := end;
    }
    assert ss[..|ss|] == ss;
  }

  /** Wherever a list stops, the destination is sound. */
  lemma StoppedIsSound(catalog: Catalog, before: Tables, ss: seq<Statement>, after: Tables)
    requires Sound(catalog, before) && StoppedWithin(catalog, before, ss, after)
    ensures Sound(catalog, after)
  {
    hide Sound;
    var k :| 0 <= k <= |ss| && BatchAccepted(catalog, before, ss[..k]) && after == BatchEffect(before, ss[..k]);
    AcceptedStaysSound(catalog, before, ss[..k], k);
    assert ss[..k][..k] == ss[..k];
  }
}
