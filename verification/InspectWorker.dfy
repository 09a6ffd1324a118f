/** The consumer side of the inspection run (`runGscInspectJob`): with the queue bound one
    chunk per message and one send; without it every chunk in a loop. */
module InspectWorker {
  import opened Common
  import opened JobQueue
  import opened InspectChunk
  import opened InspectChain
  import opened InspectRun

  datatype RunOutcome = RunOk | RunSkipped | RunQuota | RunFailed

  datatype Report = Report(outcome: RunOutcome, totals: Totals, next: Option<int>)

  function MetricOutcome(last: Result, enqueueFailed: bool): RunOutcome {
    if last.outcome == HaltedAuth || enqueueFailed then RunFailed
    else if last.outcome == HaltedQuota then RunQuota
    else if last.outcome == NotConfigured then RunSkipped
    else RunOk
  }

  /** How a run is reported: failed when the key was refused or the next chunk could not be sent,
      else out of quota, skipped or fine as its last chunk was. */
  lemma ReportedAs(last: Result, enqueueFailed: bool)
    ensures var reported := MetricOutcome(last, enqueueFailed);
      && (reported == RunFailed <==> enqueueFailed || last.outcome == HaltedAuth)
      && (reported == RunQuota <==> !enqueueFailed && last.outcome == HaltedQuota)
      && (reported == RunSkipped <==> !enqueueFailed && last.outcome == NotConfigured)
      && (reported == RunOk <==> !enqueueFailed && last.outcome == Ran)
  {
  }

  // Chunks done, and the loop's chunks still to come, make up the whole run.
  ghost predicate OnTrack(site: Site, inline: seq<Call>, m: InspectPayload, done: seq<Call>,
                          clock: nat, table: Table, remaining: int, skipIds: seq<int>) {
    && done + InlineCalls(site, clock, table, remaining, skipIds) == inline
    && skipIds == Skipped(m.skipIds, done)
  }

  lemma OneMoreChunk(site: Site, inline: seq<Call>, m: InspectPayload, done: seq<Call>,
                     clock: nat, table: Table, remaining: int, skipIds: seq<int>)
    requires OnTrack(site, inline, m, done, clock, table, remaining, skipIds)
    ensures var call := CallOf(site.run, site.worlds(clock), table, remaining, skipIds);
            && Summed(done + [call]) == Plus(Summed(done), call.result)
            && Last(done + [call]) == call
            && done + [call] <= inline
            && if call.result.next.None? then done + [call] == inline
               else Positive(call.result.next.value) < Positive(remaining) &&
                    OnTrack(site, inline, m, done + [call], clock + 1, call.after, call.result.next.value,
                            skipIds + call.result.failedIds)
  {
    var call := CallOf(site.run, site.worlds(clock), table, remaining, skipIds);
    assert (done + [call])[..|done|] == done;
    var rest := InlineCalls(site, clock, table, remaining, skipIds);
    assert rest[0] == call;
    assert done + rest == done + [call] + rest[1..];
  }

  // The worlds of a run that starts with edits landed in earlier attempts.
  function StartingFrom(worlds: nat -> World, clock: nat, landed: Edits): nat -> World {
    (k: nat) => if k == clock then Landed(worlds(k), landed) else worlds(k)
  }

  lemma StartsWithLanded(worlds: nat -> World, clock: nat, landed: Edits)
    ensures var ws := StartingFrom(worlds, clock, landed);
            && ws(clock) == Landed(worlds(clock), landed)
            && forall k: nat {:trigger ws(k)} :: k != clock ==> ws(k) == worlds(k)
  {
  }

  // The chunks the loop runs from a state.
  function Inline(site: Site, s: State, m: InspectPayload): seq<Call> {
    InlineCalls(site.(worlds := StartingFrom(site.worlds, s.clock, s.landed)), s.clock, s.table, m.remaining, m.skipIds)
  }

  // A turn of the loop: what has run, what is to come, and the state between.
  ghost predicate InLoop(site: Site, s0: State, m: InspectPayload, s: State, ran: seq<Call>,
                         remaining: int, skipIds: seq<int>, totals: Totals) {
    var ws := StartingFrom(site.worlds, s0.clock, s0.landed);
    && OnTrack(site.(worlds := ws), Inline(site, s0, m), m, ran, s.clock, s.table, remaining, skipIds)
    && Landed(site.worlds(s.clock), s.landed) == ws(s.clock)
    && s.clock == s0.clock + |ran|
    && s.calls == s0.calls + ran && s.queue == s0.queue
    && totals == Summed(ran) && ran <= Inline(site, s0, m)
    && (ran == [] ==> s == s0 && remaining == m.remaining && skipIds == m.skipIds)
  }

  lemma LoopStarts(site: Site, s: State, m: InspectPayload)
    ensures InLoop(site, s, m, s, [], m.remaining, m.skipIds, Totals(0, 0, 0, 0))
  {
    hide InlineCalls, Landed;
    StartsWithLanded(site.worlds, s.clock, s.landed);
  }

  lemma LoopGoesOn(site: Site, s0: State, m: InspectPayload, s: State, ran: seq<Call>,
                   remaining: int, skipIds: seq<int>, totals: Totals)
    requires InLoop(site, s0, m, s, ran, remaining, skipIds, totals)
    ensures var call := CallOf(site.run, Landed(site.worlds(s.clock), s.landed), s.table, remaining, skipIds);
            var s', ran', totals' := Commit(s, call), ran + [call], Plus(totals, call.result);
            var next, skipIds' := call.result.next, skipIds + call.result.failedIds;
            && s'.calls == s0.calls + ran' && s'.queue == s0.queue && s'.landed == map[] && s'.table == call.after
            && ran' <= Inline(site, s0, m) && totals' == Summed(ran') && Last(ran') == call
            && (next.None? ==> ran' == Inline(site, s0, m))
            && (next.Some? ==> Positive(next.value) < Positive(remaining)
                               && InLoop(site, s0, m, s', ran', next.value, skipIds', totals'))
            && (ran == [] ==> call == CallNow(site, s0, m) && s' == Commit(s0, call) && ran' == [call]
                              && skipIds == m.skipIds)
  {
    hide InlineCalls, Landed, OnTrack, Summed, StartingFrom;
    var ws := StartingFrom(site.worlds, s0.clock, s0.landed);
    StartsWithLanded(site.worlds, s0.clock, s0.landed);
    NothingLanded(site.worlds(s.clock + 1));
    OneMoreChunk(site.(worlds := ws), Inline(site, s0, m), m, ran, s.clock, s.table, remaining, skipIds);
  }

  lemma NoEdits(table: Table)
    ensures Edited(table, map[]) == table
  {
  }

  lemma RemovedAppends<T>(a: seq<T>, b: seq<T>, i: nat)
    requires i < |a|
    ensures Removed(a + b, i) == Removed(a, i) + b
  {
  }

  // An attempt on the edited table is an attempt of the last commit that finds the edits landed.
  lemma AttemptIs(world: World, committed: Table, landed: Edits, remaining: int, skipIds: seq<int>)
    ensures var call := CallOf(Inspect(), Landed(world, landed), committed, remaining, skipIds);
      && call.result == Chunk(world, Edited(committed, landed), remaining, skipIds)
      && call.after == ChunkTable(world, Edited(committed, landed), remaining, skipIds)
    ensures AtCommit(world, Edited(committed, landed)) == Edited(committed, Merged(landed, EditsOf(world)))
  {
    hide Chunk, ChunkTable, AtCommit, Edited, Merged, Landed, EditsOf;
    LandedEditsMove(world, landed, committed, remaining, skipIds);
    AtCommitIs(world, Edited(committed, landed));
    EditsCompose(committed, landed, EditsOf(world));
  }

  class Worker {
    const worlds: nat -> World
    const queueBound: bool
    var table: Table
    var queue: seq<InspectPayload>
    var clock: nat
    var spent: nat
    // The table as of the last commit, and the edits that landed in failed attempts since.
    ghost var committed: Table
    ghost var landed: Edits
    ghost var calls: seq<Call>
    // How often the database, the queue or an acknowledgement failed.
    ghost var faults: nat

    constructor (worlds: nat -> World, queueBound: bool, table: Table)
      ensures this.worlds == worlds && this.queueBound == queueBound
      ensures Valid() && faults == 0 && Snapshot() == State(table, map[], [], 0, [], 0)
    {
      this.worlds, this.queueBound, this.table := worlds, queueBound, table;
      queue, clock, spent := [], 0, 0;
      committed, landed, calls, faults := table, map[], [], 0;
      new;
      assert Edited(table, map[]) == table;
    }

    ghost predicate Valid()
      reads this
    {
      table == Edited(committed, landed)
    }

    ghost function Snapshot(): State
      reads this
    {
      State(committed, landed, queue, clock, calls, spent)
    }

    // The chunk that an attempt would run now.
    ghost function Next(remaining: int, skipIds: seq<int>): Call
      reads this
    {
      CallOf(Inspect(), Landed(worlds(clock), landed), committed, remaining, skipIds)
    }

    ghost method Fail()
      modifies this`faults
      ensures faults == old(faults) + 1
    {
      faults := faults + 1;
    }

    // `runGscInspectChunk`: a database failure throws, before the batch or with its answer lost.
    method RunChunk(remaining: int, skipIds: seq<int>) returns (r: Option<Result>, ghost done: bool)
      requires Valid()
      modifies this`table, this`clock, this`spent, this`committed, this`landed, this`calls, this`faults
      ensures Valid()
      ensures faults == old(faults) + if r == None then 1 else 0
      ensures r.Some? ==> done && r.value == old(Next(remaining, skipIds)).result
      ensures done ==> Snapshot() == Commit(old(Snapshot()), old(Next(remaining, skipIds)))
      ensures !done ==>
        && old(spent) <= spent <= old(spent) + old(Next(remaining, skipIds)).result.inspected
        && Snapshot() == old(Snapshot()).(landed := Merged(old(landed), EditsOf(worlds(old(clock)))),
                                          clock := old(clock) + 1, spent := spent)
    {
      hide Chunk, ChunkTable, AtCommit, Edited, Merged, Landed, EditsOf, CallOf, Inspect;
      var world := worlds(clock);
      var result := Chunk(world, table, remaining, skipIds);
      ghost var call := Next(remaining, skipIds);
      AttemptIs(world, committed, landed, remaining, skipIds);
      clock := clock + 1;
      if * {
        table := AtCommit(world, table);
        landed := Merged(landed, EditsOf(world));
        if * { spent := spent + result.inspected; }
        faults := faults + 1;
        return None, false;
      }
      spent := spent + result.inspected;
      table := ChunkTable(world, table, remaining, skipIds);
      committed, landed, calls := table, map[], calls + [call];
      NoEdits(table);
      if * {
        faults := faults + 1;
        return None, true;
      }
      return Some(result), true;
    }

    // The next chunk's message, where one is due; a failed send is caught and reported.
    method SendNext(m: InspectPayload, result: Result, skipIds: seq<int>) returns (failed: bool)
      requires skipIds == m.skipIds + result.failedIds
      modifies this`queue, this`faults
      ensures faults == old(faults) + if failed then 1 else 0
      ensures queue == old(queue) + if failed then [] else Continuation(m, result)
      ensures failed ==> result.next.Some?
    {
      if result.next.None? { return false; }
      if * {
        Fail();
        return true;
      }
      queue := queue + [InspectPayload(m.runId, result.next.value, skipIds)];
      return false;
    }

    method RunGscInspect(m: InspectPayload) returns (report: Option<Report>, ghost sent: bool, ghost done: bool)
      requires Valid()
      modifies this
      ensures Valid()
      // In a loop: exactly the inline chunks, their sums, and the table they leave.
      ensures !queueBound && report.Some? ==>
        var inline := Inline(Inspection(worlds), old(Snapshot()), m);
        && calls == old(calls) + inline
        && table == Last(inline).after
        && report.value == Report(MetricOutcome(Last(inline).result, false), Summed(inline), None)
      ensures !queueBound && report.None? ==>
        old(calls) <= calls <= old(calls) + Inline(Inspection(worlds), old(Snapshot()), m)
      // Through the queue: one chunk, and the next message where one is due.
      ensures queueBound && report.Some? ==>
        var call := CallNow(Inspection(worlds), old(Snapshot()), m);
        && Snapshot() == Commit(old(Snapshot()), call).(
                           queue := old(queue) + if sent then Continuation(m, call.result) else [])
        && report.value == Report(MetricOutcome(call.result, !sent && call.result.next.Some?),
                                  Summed([call]), if sent then call.result.next else None)
      ensures queueBound && report.None? ==>
        var call := CallNow(Inspection(worlds), old(Snapshot()), m);
        if done then Snapshot() == Commit(old(Snapshot()), call)
        else
          && old(spent) <= spent <= old(spent) + call.result.inspected
          && Snapshot() == old(Snapshot()).(landed := Merged(old(landed), EditsOf(worlds(old(clock)))),
                                            clock := old(clock) + 1, spent := spent)
      ensures !queueBound || report.None? ==> queue == old(queue)
      ensures faults == old(faults) + if report.None? || !sent then 1 else 0
    {
      hide Chunk, ChunkTable, AtCommit, Edited, Merged, Landed, EditsOf, MetricOutcome, InLoop, Inline, Summed, Plus,
           Continuation, Commit;
      var totals := Totals(0, 0, 0, 0);
      var remaining, skipIds := m.remaining, m.skipIds;
      var result: Result;
      ghost var start := Snapshot();
      ghost var ran: seq<Call> := [];
      LoopStarts(Inspection(worlds), start, m);
      sent, done := true, true;
      while true
        invariant Valid() && sent && faults == old(faults)
        invariant InLoop(Inspection(worlds), start, m, Snapshot(), ran, remaining, skipIds, totals)
        invariant queueBound ==> ran == [] && Snapshot() == start && remaining == m.remaining && skipIds == m.skipIds
        invariant start.calls <= calls <= start.calls + Inline(Inspection(worlds), start, m) && queue == start.queue
        decreases Positive(remaining)
      {
        ghost var call := Next(remaining, skipIds);
        LoopGoesOn(Inspection(worlds), start, m, Snapshot(), ran, remaining, skipIds, totals);
        var chunk;
        chunk, done := RunChunk(remaining, skipIds);
        if chunk.None? {
          return None, sent, done;
        }
        result := chunk.value;
        ran := ran + [call];
        totals := Plus(totals, result);
        skipIds := skipIds + result.failedIds;
        if result.next.None? || queueBound {
          break;
        }
        remaining := result.next.value;
      }
      NoEdits(committed);
      var enqueueFailed := false;
      if queueBound {
        assert skipIds == m.skipIds + result.failedIds;
        enqueueFailed := SendNext(m, result, skipIds);
        sent := !enqueueFailed;
      }
      report := Some(Report(MetricOutcome(result, enqueueFailed), totals,
                            if enqueueFailed then None else result.next));
    }

    /** One delivery of a queued message is a step of the chain; only a failure throws, loses the
        next message or leaves this one unacknowledged. */
    method Consume(i: nat) returns (ghost e: Event)
      requires Valid() && queueBound && i < |queue|
      modifies this
      ensures Valid() && Step(Inspection(worlds), old(Snapshot()), e, Snapshot())
      ensures e == Deliver(i, true, true) || faults > old(faults)
      ensures (e.Deliver? || e.Throw?) && e.i == i
    {
      hide Chunk, ChunkTable, AtCommit, Edited, Merged, Landed, EditsOf;
      var m := queue[i];
      ghost var before := Snapshot();
      var report, sent, done := RunGscInspect(m);
      if report.None? {
        return Throw(i, done, spent - before.spent);
      }
      e := Deliver(i, sent, false);
      if * {
        Fail();
      } else {
        e := Deliver(i, sent, true);
        ghost var call := CallNow(Inspection(worlds), before, m);
        RemovedAppends(before.queue, if sent then Continuation(m, call.result) else [], i);
        queue := Removed(queue, i);
      }
    }
  }
}
