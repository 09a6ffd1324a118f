/** The inspection run as a loop (no queue bound) and as a chain of queue messages that carry
    the budget left and the rows to skip. The chain follows the loop exactly while no message
    is executed twice, and what a repetition costs is bounded. */
module InspectChain {
  import opened Common
  import opened JobQueue
  import opened InspectChunk

  // What a chunk reports, and the table it leaves.
  datatype Chunked = Chunked(result: Result, after: Table)

  function Positive(n: int): nat { if n < 0 then 0 else n }

  predicate SpendsWithin(r: Result, remaining: int) {
    && r.inspected <= Positive(remaining)
    && (r.next.Some? ==> 0 < r.next.value < remaining && r.next.value + r.inspected == remaining)
  }

  // A chunk is a function of its world, the table, the budget and the rows to skip. All the
  // chain needs of it is that it spends within its budget and says what is left.
  ghost predicate Spends(run: (World, Table, int, seq<int>) -> Chunked) {
    forall world, table, remaining, skipIds :: SpendsWithin(run(world, table, remaining, skipIds).result, remaining)
  }

  type Runner = run: (World, Table, int, seq<int>) -> Chunked | Spends(run)
    witness (_: World, table, _: int, _: seq<int>) => Chunked(EmptyResult(Ran), table)

  // Where a run takes place: the worlds its attempts meet, and the chunk it runs.
  datatype Site = Site(worlds: nat -> World, run: Runner)

  // One executed chunk: what it was given, what it reported, and the table it left.
  datatype Call = Call(world: World, table: Table, remaining: int, skipIds: seq<int>, result: Result, after: Table)

  function CallOf(run: Runner, world: World, table: Table, remaining: int, skipIds: seq<int>): Call {
    var ran := run(world, table, remaining, skipIds);
    Call(world, table, remaining, skipIds, ran.result, ran.after)
  }

  // The chunks the loop runs, chunk `k` in `site.worlds(k)`.
  function InlineCalls(site: Site, k: nat, table: Table, remaining: int,
                       skipIds: seq<int>): (calls: seq<Call>)
    ensures calls != []
    decreases Positive(remaining)
  {
    var call := CallOf(site.run, site.worlds(k), table, remaining, skipIds);
    [call] +
    if call.result.next.Some? then
      InlineCalls(site, k + 1, call.after, call.result.next.value, skipIds + call.result.failedIds)
    else []
  }

  datatype Totals = Totals(inspected: nat, closed: nat, tagged: nat, errors: nat)

  function Plus(t: Totals, r: Result): Totals {
    Totals(t.inspected + r.inspected, t.closed + r.closed, t.tagged + r.tagged, t.errors + r.errors)
  }

  function Summed(calls: seq<Call>): Totals {
    if calls == [] then Totals(0, 0, 0, 0) else Plus(Summed(calls[..|calls| - 1]), calls[|calls| - 1].result)
  }

  /** Totals add up, count by count: those of one chunk are what it reports, and those of a run are
      the sums over any two parts of it. */
  lemma {:induction false} SummedAdds(a: seq<Call>, b: seq<Call>)
    ensures Summed([]) == Totals(0, 0, 0, 0)
    ensures forall c: Call ::
      Summed([c]) == Totals(c.result.inspected, c.result.closed, c.result.tagged, c.result.errors)
    ensures Summed(a + b).inspected == Summed(a).inspected + Summed(b).inspected
    ensures Summed(a + b).closed == Summed(a).closed + Summed(b).closed
    ensures Summed(a + b).tagged == Summed(a).tagged + Summed(b).tagged
    ensures Summed(a + b).errors == Summed(a).errors + Summed(b).errors
    decreases |b|
  {
    assert forall c: Call :: [c][..0] == [];
    if b == [] {
      assert a + b == a;
    } else {
      assert (a + b)[..|a + b| - 1] == a + b[..|b| - 1];
      SummedAdds(a, b[..|b| - 1]);
    }
  }

  // The ids a run has learned to skip.
  function Skipped(skipIds: seq<int>, calls: seq<Call>): seq<int> {
    if calls == [] then skipIds
    else Skipped(skipIds, calls[..|calls| - 1]) + calls[|calls| - 1].result.failedIds
  }

  lemma {:induction false} SkippedAdds(skipIds: seq<int>, call: Call, rest: seq<Call>)
    ensures Skipped(skipIds, [call] + rest) == Skipped(skipIds + call.result.failedIds, rest)
    decreases |rest|
  {
    if rest == [] {
      assert [call] + rest == [call] && [call][..0] == [];
    } else {
      assert ([call] + rest)[..|[call] + rest| - 1] == [call] + rest[..|rest| - 1];
      SkippedAdds(skipIds, call, rest[..|rest| - 1]);
    }
  }

  function Last(calls: seq<Call>): Call
    requires calls != []
  {
    calls[|calls| - 1]
  }

  // The cron's message and an operator's carry no payload: the full budget, nothing skipped.
  function Opening(message: Message, freshId: int): InspectPayload {
    if message.gscInspect.Some? then message.gscInspect.value
    else InspectPayload(freshId, GSC_INSPECT_RUN_BUDGET, [])
  }

  /** A message without a payload opens a run with 1,500 inspections and nothing to skip; one with
      a payload goes on with exactly that. */
  lemma OpensOrGoesOn(message: Message, freshId: int)
    ensures message.gscInspect == None ==> Opening(message, freshId) == InspectPayload(freshId, 1_500, [])
    ensures forall m :: message.gscInspect == Some(m) ==> Opening(message, freshId) == m
  {
  }

  // ----- the chain as a state machine

  // `table` is as of the last commit, `landed` the edits that landed in attempts that failed
  // since. `calls` and `spent` are history: the chunks committed and the inspections made.
  datatype State = State(
    table: Table, landed: Edits, queue: seq<InspectPayload>, clock: nat, calls: seq<Call>, spent: nat)

  // A throw is a database failure: the batch did not commit or, when only the answer was lost,
  // it did; the inspections of a failed attempt may have been made.
  datatype Event =
    | Push(message: Message, freshId: int)
    | Drop(i: nat)
    | Deliver(i: nat, sent: bool, acked: bool)
    | Throw(i: nat, committed: bool, spent: nat)

  function Removed<T>(s: seq<T>, i: nat): seq<T>
    requires i < |s|
  {
    s[..i] + s[i + 1..]
  }

  function Continuation(m: InspectPayload, r: Result): seq<InspectPayload> {
    if r.next.Some? then [InspectPayload(m.runId, r.next.value, m.skipIds + r.failedIds)] else []
  }

  // The chunk a delivery of `m` would run now.
  function CallNow(site: Site, s: State, m: InspectPayload): Call {
    CallOf(site.run, Landed(site.worlds(s.clock), s.landed), s.table, m.remaining, m.skipIds)
  }

  // The state once the chunk's batch has committed.
  function Commit(s: State, call: Call): State {
    State(call.after, map[], s.queue, s.clock + 1, s.calls + [call], s.spent + call.result.inspected)
  }

  predicate Addressed(s: State, e: Event) {
    !e.Push? ==> e.i < |s.queue|
  }

  ghost predicate Step(site: Site, s: State, e: Event, s': State) {
    && Addressed(s, e)
    && match e
       case Push(message, freshId) => s' == s.(queue := s.queue + [Opening(message, freshId)])
       case Drop(i) => s' == s.(queue := Removed(s.queue, i))
       case Deliver(i, sent, acked) =>
         var m := s.queue[i];
         var call := CallNow(site, s, m);
         s' == Commit(s, call).(queue := (if acked then Removed(s.queue, i) else s.queue) +
                                         (if sent then Continuation(m, call.result) else []))
       case Throw(i, committed, spent) =>
         var call := CallNow(site, s, s.queue[i]);
         if committed then s' == Commit(s, call)
         else
           && spent <= call.result.inspected
           && s' == s.(landed := Merged(s.landed, EditsOf(site.worlds(s.clock))),
                        clock := s.clock + 1, spent := s.spent + spent)
  }

  ghost predicate Run(site: Site, states: seq<State>, events: seq<Event>) {
    && |states| == |events| + 1
    && forall k :: 0 <= k < |events| ==> Step(site, states[k], events[k], states[k + 1])
  }

  ghost predicate Starts(s: State, table: Table, m: InspectPayload, clock: nat) {
    s == State(table, map[], [m], clock, [], 0)
  }

  // ----- chunks that follow the loop

  predicate Follows(run: Runner, before: Call, call: Call) {
    && before.result.next.Some?
    && call == CallOf(run, call.world, before.after, before.result.next.value, before.skipIds + before.result.failedIds)
  }

  // Each chunk takes up the table, the budget and the skip list where the one before left them.
  predicate Linked(run: Runner, calls: seq<Call>, table: Table, remaining: int, skipIds: seq<int>) {
    && (calls != [] ==> calls[0] == CallOf(run, calls[0].world, table, remaining, skipIds))
    && forall k :: 0 < k < |calls| ==> Follows(run, calls[k - 1], calls[k])
  }

  // The budget strictly falls from chunk to chunk.
  predicate Falling(calls: seq<Call>) {
    forall k :: 0 < k < |calls| ==> calls[k].remaining < calls[k - 1].remaining
  }

  // Chunk `k` ran in `site.worlds(clock + k)`.
  ghost predicate InWorlds(calls: seq<Call>, site: Site, clock: nat) {
    forall k: nat {:trigger calls[k]} :: k < |calls| ==> calls[k].world == site.worlds(clock + k)
  }

  lemma LinkedFalls(run: Runner, calls: seq<Call>, table: Table, remaining: int, skipIds: seq<int>)
    requires Linked(run, calls, table, remaining, skipIds)
    ensures Falling(calls)
  {
    forall k | 0 < k < |calls| ensures calls[k].remaining < calls[k - 1].remaining {
      assert Follows(run, calls[k - 1], calls[k]);
      if k > 1 { assert Follows(run, calls[k - 2], calls[k - 1]); }
      var before := calls[k - 1];
    }
  }

  // Linked chunks are a first chunk and linked chunks that follow it.
  lemma LinkedRest(run: Runner, calls: seq<Call>, table: Table, remaining: int, skipIds: seq<int>)
    requires calls != [] && calls[0] == CallOf(run, calls[0].world, table, remaining, skipIds)
    ensures var next := calls[0].result.next;
            Linked(run, calls, table, remaining, skipIds) <==>
              if next.None? then |calls| == 1
              else Linked(run, calls[1..], calls[0].after, next.value, skipIds + calls[0].result.failedIds)
  {
    var rest, next := calls[1..], calls[0].result.next;
    if Linked(run, calls, table, remaining, skipIds) {
      if |calls| > 1 { assert Follows(run, calls[0], calls[1]); }
      forall k | 0 < k < |rest| ensures Follows(run, rest[k - 1], rest[k]) {
        assert Follows(run, calls[k], calls[k + 1]);
      }
    }
    if next.Some? && Linked(run, rest, calls[0].after, next.value, skipIds + calls[0].result.failedIds) {
      forall k | 0 < k < |calls| ensures Follows(run, calls[k - 1], calls[k]) {
        if k > 1 { assert Follows(run, rest[k - 2], rest[k - 1]); }
      }
    }
  }

  lemma InlineSplits(site: Site, k: nat, table: Table, remaining: int, skipIds: seq<int>)
    ensures var call := CallOf(site.run, site.worlds(k), table, remaining, skipIds);
            InlineCalls(site, k, table, remaining, skipIds) == [call] +
              if call.result.next.Some? then
                InlineCalls(site, k + 1, call.after, call.result.next.value, skipIds + call.result.failedIds)
              else []
  {
  }

  lemma PrefixSplits(a: seq<Call>, x: Call, rest: seq<Call>)
    requires a != []
    ensures a <= [x] + rest <==> a[0] == x && a[1..] <= rest
    ensures a == [x] + rest <==> a[0] == x && a[1..] == rest
  {
    assert a == [a[0]] + a[1..] && ([x] + rest)[1..] == rest;
  }

  lemma InWorldsRest(calls: seq<Call>, site: Site, clock: nat)
    requires InWorlds(calls, site, clock) && calls != []
    ensures calls[0].world == site.worlds(clock) && InWorlds(calls[1..], site, clock + 1)
  {
    assert forall k: nat :: k < |calls[1..]| ==> calls[1..][k] == calls[k + 1];
  }

  /** In given worlds, chunks are linked exactly when the loop runs them: they are a prefix of
      its chunks, and all of them exactly when the last asks for no more. */
  lemma {:induction false} LinkedIsPrefix(site: Site, clock: nat, table: Table, remaining: int,
                                          skipIds: seq<int>, calls: seq<Call>)
    requires InWorlds(calls, site, clock)
    ensures var inline := InlineCalls(site, clock, table, remaining, skipIds);
            && (Linked(site.run, calls, table, remaining, skipIds) <==> calls <= inline)
            && (calls <= inline ==> (calls == inline <==> calls != [] && Last(calls).result.next.None?))
    decreases |calls|
  {
    hide InWorlds, InlineCalls;
    InlineSplits(site, clock, table, remaining, skipIds);
    if calls != [] {
      InWorldsRest(calls, site, clock);
      var call := CallOf(site.run, site.worlds(clock), table, remaining, skipIds);
      PrefixSplits(calls, call, InlineCalls(site, clock, table, remaining, skipIds)[1..]);
      if calls[0] == call {
        LinkedRest(site.run, calls, table, remaining, skipIds);
        if call.result.next.Some? {
          LinkedIsPrefix(site, clock + 1, call.after, call.result.next.value, skipIds + call.result.failedIds,
                         calls[1..]);
        }
      }
    }
  }

  // ----- where a run stands

  // The message continues the run where the committed chunks left it.
  predicate AtHead(s: State, q: InspectPayload, m: InspectPayload) {
    if s.calls == [] then q == m
    else
      var last := Last(s.calls);
      && last.result.next == Some(q.remaining)
      && q.skipIds == last.skipIds + last.result.failedIds
  }

  // The message asks for a chunk with at least the budget the last one had.
  predicate Stale(s: State, q: InspectPayload) {
    s.calls != [] && q.remaining >= Last(s.calls).remaining
  }

  // The chunks committed so far follow the loop, and the table is as the last one left it.
  predicate Stands(run: Runner, s: State, table: Table, m: InspectPayload) {
    && Linked(run, s.calls, table, m.remaining, m.skipIds)
    && s.table == (if s.calls == [] then table else Last(s.calls).after)
  }

  predicate Tracks(run: Runner, s: State, table: Table, m: InspectPayload) {
    && Stands(run, s, table, m)
    && forall q :: q in s.queue ==> AtHead(s, q, m) || Stale(s, q)
  }

  // A chunk run by the message at the head goes on where the run stands.
  lemma HeadLinks(site: Site, s: State, q: InspectPayload, table: Table, m: InspectPayload)
    requires Stands(site.run, s, table, m) && AtHead(s, q, m)
    ensures Linked(site.run, s.calls + [CallNow(site, s, q)], table, m.remaining, m.skipIds)
  {
    hide Landed;
    var calls := s.calls + [CallNow(site, s, q)];
    forall k | 0 < k < |calls| ensures Follows(site.run, calls[k - 1], calls[k]) {
      if k < |s.calls| { assert Follows(site.run, s.calls[k - 1], s.calls[k]); }
    }
  }

  lemma FallingSplit(calls: seq<Call>, call: Call)
    requires Falling(calls + [call])
    ensures Falling(calls) && (calls != [] ==> call.remaining < Last(calls).remaining)
  {
    var more := calls + [call];
    forall k | 0 < k < |calls| ensures calls[k].remaining < calls[k - 1].remaining {
      assert more[k] == calls[k] && more[k - 1] == calls[k - 1];
    }
    if calls != [] { assert more[|calls|].remaining < more[|calls| - 1].remaining; }
  }

  // After a chunk whose budget fell, every message left over is stale.
  lemma LeftOverIsStale(site: Site, s: State, ran: InspectPayload, q: InspectPayload,
                        table: Table, m: InspectPayload)
    requires Tracks(site.run, s, table, m) && AtHead(s, ran, m) && (AtHead(s, q, m) || Stale(s, q))
    requires s.calls != [] ==> ran.remaining < Last(s.calls).remaining
    ensures Stale(Commit(s, CallNow(site, s, ran)), q)
  {
    hide Landed;
  }

  lemma StaleReads(a: State, b: State, q: InspectPayload)
    requires a.calls == b.calls
    ensures Stale(a, q) <==> Stale(b, q)
  {
  }

  lemma SameStanding(s: State, s': State, m: InspectPayload)
    requires s.calls == s'.calls
    ensures forall q :: (AtHead(s, q, m) <==> AtHead(s', q, m)) && (Stale(s, q) <==> Stale(s', q))
  {
  }

  // A message whose chunk has less budget than the last one is not stale.
  lemma RanAtHead(site: Site, s: State, q: InspectPayload, m: InspectPayload)
    requires AtHead(s, q, m) || Stale(s, q)
    requires s.calls != [] ==> CallNow(site, s, q).remaining < Last(s.calls).remaining
    ensures AtHead(s, q, m) && (s.calls != [] ==> q.remaining < Last(s.calls).remaining)
  {
    hide Landed;
  }

  lemma ContinuationIsHead(s: State, ran: InspectPayload, call: Call, s': State, q: InspectPayload, m: InspectPayload)
    requires s'.calls == s.calls + [call] && call.skipIds == ran.skipIds
    requires q in Continuation(ran, call.result)
    ensures AtHead(s', q, m)
  {
  }

  lemma StepTracks(site: Site, s: State, e: Event, s': State, table: Table, m: InspectPayload)
    requires Tracks(site.run, s, table, m) && Step(site, s, e, s') && !e.Push? && Falling(s'.calls)
    ensures Tracks(site.run, s', table, m)
  {
    hide Landed, Linked, Falling, AtHead, Stale, EditsOf;
    var ran := s.queue[e.i];
    var call := CallNow(site, s, ran);
    if e.Drop? || (e.Throw? && !e.committed) {
      SameStanding(s, s', m);
    } else {
      assert s'.calls == s.calls + [call];
      FallingSplit(s.calls, call);
      RanAtHead(site, s, ran, m);
      HeadLinks(site, s, ran, table, m);
      forall q | q in s'.queue ensures AtHead(s', q, m) || Stale(s', q) {
        if q in s.queue {
          LeftOverIsStale(site, s, ran, q, table, m);
          StaleReads(Commit(s, call), s', q);
        } else {
          assert q in Continuation(ran, call.result);
          ContinuationIsHead(s, ran, call, s', q, m);
        }
      }
    }
  }

  // ----- which runs follow the loop

  predicate NoPush(events: seq<Event>) {
    forall k :: 0 <= k < |events| ==> !events[k].Push?
  }

  predicate NoThrow(events: seq<Event>) {
    forall k :: 0 <= k < |events| ==> !events[k].Throw?
  }

  lemma StepCalls(site: Site, s: State, e: Event, s': State)
    requires Step(site, s, e, s')
    ensures s.calls <= s'.calls
  {
  }

  lemma {:induction false} CallsGrow(site: Site, states: seq<State>, events: seq<Event>, j: nat, k: nat)
    requires Run(site, states, events) && j <= k <= |events|
    ensures states[j].calls <= states[k].calls
    decreases k - j
  {
    hide Step;
    if j < k {
      CallsGrow(site, states, events, j, k - 1);
      StepCalls(site, states[k - 1], events[k - 1], states[k]);
    }
  }

  lemma FallingPrefix(a: seq<Call>, b: seq<Call>)
    requires a <= b && Falling(b)
    ensures Falling(a)
  {
    assert forall k :: 0 <= k < |a| ==> a[k] == b[k];
  }

  lemma StartTracks(run: Runner, s: State, table: Table, m: InspectPayload, clock: nat)
    requires Starts(s, table, m, clock)
    ensures Tracks(run, s, table, m)
  {
  }

  lemma {:induction false} RunTracks(site: Site, states: seq<State>, events: seq<Event>,
                                     table: Table, m: InspectPayload, clock: nat, k: nat)
    requires Run(site, states, events) && Starts(states[0], table, m, clock) && NoPush(events)
    requires k <= |events| && Falling(states[k].calls)
    ensures Tracks(site.run, states[k], table, m)
    decreases k
  {
    hide Step, Falling, Linked;
    if k == 0 {
      StartTracks(site.run, states[0], table, m, clock);
    } else {
      StepCalls(site, states[k - 1], events[k - 1], states[k]);
      FallingPrefix(states[k - 1].calls, states[k].calls);
      RunTracks(site, states, events, table, m, clock, k - 1);
      StepTracks(site, states[k - 1], events[k - 1], states[k], table, m);
    }
  }

  /** Over every run of one opening message, with any redeliveries, failed sends, drops and
      throws of both kinds, the committed chunks follow the loop exactly when the budget
      strictly falls from each chunk to the next. */
  lemma FollowsIffFalling(site: Site, states: seq<State>, events: seq<Event>,
                          table: Table, m: InspectPayload, clock: nat, k: nat)
    requires Run(site, states, events) && Starts(states[0], table, m, clock) && NoPush(events) && k <= |events|
    ensures Linked(site.run, states[k].calls, table, m.remaining, m.skipIds) <==> Falling(states[k].calls)
  {
    hide Step, Linked, Falling;
    if Linked(site.run, states[k].calls, table, m.remaining, m.skipIds) {
      LinkedFalls(site.run, states[k].calls, table, m.remaining, m.skipIds);
    }
    if Falling(states[k].calls) {
      RunTracks(site, states, events, table, m, clock, k);
    }
  }

  // Without a throw the clock counts the chunks, and no edit is left over.
  lemma {:induction false} RunInWorlds(site: Site, states: seq<State>, events: seq<Event>,
                                       table: Table, m: InspectPayload, clock: nat, k: nat)
    requires Run(site, states, events) && Starts(states[0], table, m, clock) && NoThrow(events) && k <= |events|
    ensures states[k].clock == clock + |states[k].calls| && states[k].landed == map[]
    ensures InWorlds(states[k].calls, site, clock)
    decreases k
  {
    hide Landed;
    if k > 0 {
      RunInWorlds(site, states, events, table, m, clock, k - 1);
      assert Step(site, states[k - 1], events[k - 1], states[k]);
      NothingLanded(site.worlds(states[k - 1].clock));
    }
  }

  /** Without throws: the chunks run through messages are a prefix of the loop's chunks exactly
      when the budget strictly falls from each chunk to the next. */
  lemma PrefixIffFalling(site: Site, states: seq<State>, events: seq<Event>,
                         table: Table, m: InspectPayload, clock: nat, k: nat)
    requires Run(site, states, events) && Starts(states[0], table, m, clock)
    requires NoPush(events) && NoThrow(events) && k <= |events|
    ensures states[k].calls <= InlineCalls(site, clock, table, m.remaining, m.skipIds) <==> Falling(states[k].calls)
  {
    hide Step, Linked, Falling, InWorlds;
    RunInWorlds(site, states, events, table, m, clock, k);
    LinkedIsPrefix(site, clock, table, m.remaining, m.skipIds, states[k].calls);
    FollowsIffFalling(site, states, events, table, m, clock, k);
  }

  // ----- a repeated message forks the run

  // The event commits a chunk for the message.
  predicate Executes(s: State, e: Event, q: InspectPayload) {
    && (e.Deliver? || (e.Throw? && e.committed))
    && e.i < |s.queue| && s.queue[e.i] == q
  }

  lemma {:induction false} FallingFar(calls: seq<Call>, a: nat, b: nat)
    requires Falling(calls) && a < b < |calls|
    ensures calls[b].remaining < calls[a].remaining
    decreases b - a
  {
    if a + 1 < b { FallingFar(calls, a, b - 1); }
    assert calls[b].remaining < calls[b - 1].remaining;
  }

  lemma ExecutedCall(site: Site, states: seq<State>, events: seq<Event>, j: nat, q: InspectPayload, n: nat)
    requires Run(site, states, events) && j < n <= |events| && Executes(states[j], events[j], q)
    ensures |states[j].calls| < |states[j + 1].calls| <= |states[n].calls|
    ensures states[n].calls[|states[j].calls|].remaining == q.remaining
  {
    hide Landed;
    assert Step(site, states[j], events[j], states[j + 1]);
    CallsGrow(site, states, events, j + 1, n);
    assert states[j + 1].calls[|states[j].calls|].remaining == q.remaining;
  }

  /** Executing one message twice, for a lost acknowledgement, a lost answer or a duplicate,
      always leaves the loop: the chunks no longer follow it, whatever else happens. */
  lemma RedeliveryForks(site: Site, states: seq<State>, events: seq<Event>, table: Table, m: InspectPayload,
                        clock: nat, j: nat, k: nat, q: InspectPayload, n: nat)
    requires Run(site, states, events) && Starts(states[0], table, m, clock) && NoPush(events)
    requires j < k < n <= |events| && Executes(states[j], events[j], q) && Executes(states[k], events[k], q)
    ensures !Linked(site.run, states[n].calls, table, m.remaining, m.skipIds)
  {
    hide Step, Linked, Falling, Executes;
    var calls := states[n].calls;
    ExecutedCall(site, states, events, j, q, n);
    ExecutedCall(site, states, events, k, q, n);
    CallsGrow(site, states, events, j + 1, k);
    if Falling(calls) {
      FallingFar(calls, |states[j].calls|, |states[k].calls|);
    }
    FollowsIffFalling(site, states, events, table, m, clock, n);
  }

  // One of the first `n` events commits a chunk for the message.
  ghost predicate Executed(states: seq<State>, events: seq<Event>, q: InspectPayload, n: nat)
    requires |states| == |events| + 1 && n <= |events|
  {
    exists j :: 0 <= j < n && Executes(states[j], events[j], q)
  }

  // No two of the first `n` events commit a chunk for the same message.
  ghost predicate NoneTwice(states: seq<State>, events: seq<Event>, n: nat)
    requires |states| == |events| + 1 && n <= |events|
  {
    forall j, k, q {:trigger Executes(states[j], events[j], q), Executes(states[k], events[k], q)} ::
      0 <= j < k < n ==> !(Executes(states[j], events[j], q) && Executes(states[k], events[k], q))
  }

  // Every message on the queue is of this run, and continues it or was executed already.
  ghost predicate Accounted(site: Site, states: seq<State>, events: seq<Event>, n: nat, table: Table,
                            m: InspectPayload)
    requires |states| == |events| + 1 && n <= |events|
  {
    && Stands(site.run, states[n], table, m)
    && forall q :: q in states[n].queue ==>
         q.runId == m.runId && (AtHead(states[n], q, m) || Executed(states, events, q, n))
  }

  // Only one message can continue the run.
  lemma OneHead(s: State, p: InspectPayload, q: InspectPayload, m: InspectPayload)
    requires AtHead(s, p, m) && AtHead(s, q, m) && p.runId == q.runId
    ensures p == q
  {
  }

  lemma ExecutedStays(states: seq<State>, events: seq<Event>, q: InspectPayload, n: nat)
    requires |states| == |events| + 1 && n < |events|
    requires Executed(states, events, q, n) || Executes(states[n], events[n], q)
    ensures Executed(states, events, q, n + 1)
  {
    hide Executes;
  }

  lemma CommitStands(site: Site, s: State, ran: InspectPayload, s': State, table: Table, m: InspectPayload)
    requires Stands(site.run, s, table, m) && AtHead(s, ran, m)
    requires s'.calls == s.calls + [CallNow(site, s, ran)] && s'.table == CallNow(site, s, ran).after
    ensures Stands(site.run, s', table, m)
  {
    hide Landed, Linked;
    HeadLinks(site, s, ran, table, m);
  }

  lemma ExecutesHere(states: seq<State>, events: seq<Event>, n: nat)
    requires |states| == |events| + 1 && n < |events| && Addressed(states[n], events[n])
    requires events[n].Deliver? || (events[n].Throw? && events[n].committed)
    ensures Executes(states[n], events[n], states[n].queue[events[n].i])
  {
  }

  lemma OnceMeansNew(states: seq<State>, events: seq<Event>, q: InspectPayload, n: nat)
    requires |states| == |events| + 1 && n < |events| && NoneTwice(states, events, n + 1)
    requires Executes(states[n], events[n], q)
    ensures !Executed(states, events, q, n)
  {
    hide Executes;
  }

  lemma StepAccounts(site: Site, states: seq<State>, events: seq<Event>, n: nat, table: Table, m: InspectPayload)
    requires Run(site, states, events) && n < |events| && !events[n].Push?
    requires Accounted(site, states, events, n, table, m) && NoneTwice(states, events, n + 1)
    ensures Accounted(site, states, events, n + 1, table, m)
  {
    hide Landed, Linked, AtHead, Stale, EditsOf, Executed, Executes;
    var s, e, s' := states[n], events[n], states[n + 1];
    assert Step(site, s, e, s');
    var ran := s.queue[e.i];
    if e.Drop? || (e.Throw? && !e.committed) {
      SameStanding(s, s', m);
      forall q | q in s'.queue && Executed(states, events, q, n) ensures Executed(states, events, q, n + 1) {
        ExecutedStays(states, events, q, n);
      }
    } else {
      ExecutesHere(states, events, n);
      assert !Executed(states, events, ran, n) by { OnceMeansNew(states, events, ran, n); }
      CommitStands(site, s, ran, s', table, m);
      forall q | q in s'.queue
        ensures q.runId == m.runId && (AtHead(s', q, m) || Executed(states, events, q, n + 1))
      {
        if q in s.queue {
          if AtHead(s, q, m) { OneHead(s, ran, q, m); }
          ExecutedStays(states, events, q, n);
        } else {
          ContinuationIsHead(s, ran, CallNow(site, s, ran), s', q, m);
        }
      }
    }
  }

  lemma {:induction false} RunAccounts(site: Site, states: seq<State>, events: seq<Event>,
                                       table: Table, m: InspectPayload, clock: nat, n: nat)
    requires Run(site, states, events) && Starts(states[0], table, m, clock) && NoPush(events)
    requires n <= |events| && NoneTwice(states, events, n)
    ensures Accounted(site, states, events, n, table, m)
    decreases n
  {
    hide Step, Linked, Executes;
    if n > 0 {
      RunAccounts(site, states, events, table, m, clock, n - 1);
      StepAccounts(site, states, events, n - 1, table, m);
    } else {
      StartTracks(site.run, states[0], table, m, clock);
    }
  }

  /** Over every run of one opening message, with any redeliveries, failed sends, drops and
      throws of both kinds: the committed chunks follow the loop exactly when no message was
      executed twice. */
  lemma FollowsIffOnce(site: Site, states: seq<State>, events: seq<Event>,
                       table: Table, m: InspectPayload, clock: nat, n: nat)
    requires Run(site, states, events) && Starts(states[0], table, m, clock) && NoPush(events) && n <= |events|
    ensures Linked(site.run, states[n].calls, table, m.remaining, m.skipIds) <==> NoneTwice(states, events, n)
  {
    hide Step, Linked, Executes;
    if NoneTwice(states, events, n) {
      RunAccounts(site, states, events, table, m, clock, n);
    } else {
      var j, k, q :| 0 <= j < k < n && Executes(states[j], events[j], q) && Executes(states[k], events[k], q);
      RedeliveryForks(site, states, events, table, m, clock, j, k, q, n);
    }
  }

  /** Without throws: the chunks run through messages are a prefix of the loop's chunks exactly
      when no message was executed twice. */
  lemma PrefixIffOnce(site: Site, states: seq<State>, events: seq<Event>,
                      table: Table, m: InspectPayload, clock: nat, n: nat)
    requires Run(site, states, events) && Starts(states[0], table, m, clock)
    requires NoPush(events) && NoThrow(events) && n <= |events|
    ensures states[n].calls <= InlineCalls(site, clock, table, m.remaining, m.skipIds) <==>
            NoneTwice(states, events, n)
  {
    hide Step, Linked, NoneTwice, InWorlds;
    RunInWorlds(site, states, events, table, m, clock, n);
    LinkedIsPrefix(site, clock, table, m.remaining, m.skipIds, states[n].calls);
    FollowsIffOnce(site, states, events, table, m, clock, n);
  }

  /** And it can happen to every message: one lost acknowledgement is enough. */
  lemma EveryMessageCanFork(site: Site, table: Table, m: InspectPayload, clock: nat)
      returns (states: seq<State>, events: seq<Event>)
    ensures Run(site, states, events) && Starts(states[0], table, m, clock) && NoPush(events) && NoThrow(events)
    ensures !(states[|events|].calls <= InlineCalls(site, clock, table, m.remaining, m.skipIds))
  {
    hide Landed, Linked, InlineCalls, Falling;
    var s0 := State(table, map[], [m], clock, [], 0);
    var s1 := Commit(s0, CallNow(site, s0, m)).(queue := s0.queue + []);
    var s2 := Commit(s1, CallNow(site, s1, m)).(queue := s1.queue + []);
    states, events := [s0, s1, s2], [Deliver(0, false, false), Deliver(0, false, false)];
    assert Step(site, s0, events[0], s1) && Step(site, s1, events[1], s2);
    assert Executes(states[0], events[0], m) && Executes(states[1], events[1], m);
    assert !NoneTwice(states, events, 2);
    PrefixIffOnce(site, states, events, table, m, clock, 2);
  }

  // ----- runs that repeat nothing

  // Acknowledged deliveries, attempts that did not commit, and drops; a send may still fail.
  ghost predicate NothingTwice(events: seq<Event>) {
    forall k :: 0 <= k < |events| ==>
      match events[k]
      case Push(_, _) => false
      case Drop(_) => true
      case Deliver(_, _, acked) => acked
      case Throw(_, committed, _) => !committed
  }

  predicate Sent(events: seq<Event>) {
    forall k :: 0 <= k < |events| ==> events[k].Deliver? && events[k].acked && events[k].sent
  }

  // One message at most, and it goes on where the run stands.
  predicate OnlyHead(run: Runner, s: State, table: Table, m: InspectPayload) {
    && Tracks(run, s, table, m)
    && |s.queue| <= 1
    && forall q :: q in s.queue ==> AtHead(s, q, m)
  }

  lemma StepKeepsHead(site: Site, s: State, e: Event, s': State, table: Table, m: InspectPayload)
    requires OnlyHead(site.run, s, table, m) && Step(site, s, e, s') && NothingTwice([e])
    ensures OnlyHead(site.run, s', table, m)
    ensures e.Deliver? && e.sent ==> (s'.queue == [] <==> Last(s'.calls).result.next.None?)
  {
    hide Landed, Linked, AtHead, Stale, EditsOf;
    assert NothingTwice([e]) ==> [e][0] == e;
    var ran := s.queue[e.i];
    var call := CallNow(site, s, ran);
    if !e.Deliver? {
      SameStanding(s, s', m);
    } else {
      HeadLinks(site, s, ran, table, m);
      assert s'.queue == if e.sent then Continuation(ran, call.result) else [];
      forall q | q in s'.queue ensures AtHead(s', q, m) {
        ContinuationIsHead(s, ran, call, s', q, m);
      }
    }
  }

  lemma {:induction false} RunKeepsHead(site: Site, states: seq<State>, events: seq<Event>,
                                        table: Table, m: InspectPayload, clock: nat, k: nat)
    requires Run(site, states, events) && Starts(states[0], table, m, clock) && NothingTwice(events) && k <= |events|
    ensures OnlyHead(site.run, states[k], table, m)
    decreases k
  {
    hide Step, Tracks;
    if k == 0 {
      StartTracks(site.run, states[0], table, m, clock);
    } else {
      RunKeepsHead(site, states, events, table, m, clock, k - 1);
      StepKeepsHead(site, states[k - 1], events[k - 1], states[k], table, m);
    }
  }

  // The worlds of the committed chunks; what comes after them does not matter.
  function WorldsOf(calls: seq<Call>, worlds: nat -> World): nat -> World {
    (k: nat) => if k < |calls| then calls[k].world else worlds(k)
  }

  ghost predicate FromWorld(world: World, worlds: nat -> World) {
    exists n: nat, edits {:trigger Landed(worlds(n), edits)} :: world == Landed(worlds(n), edits)
  }

  // Each committed chunk ran in one of the worlds, with what had landed before it.
  ghost predicate FromWorlds(calls: seq<Call>, worlds: nat -> World) {
    forall c :: c in calls ==> FromWorld(c.world, worlds)
  }

  lemma {:induction false} RunFromWorlds(site: Site, states: seq<State>, events: seq<Event>, k: nat)
    requires Run(site, states, events) && states[0].calls == [] && k <= |events|
    ensures FromWorlds(states[k].calls, site.worlds)
    decreases k
  {
    hide Landed;
    if k > 0 {
      RunFromWorlds(site, states, events, k - 1);
      assert Step(site, states[k - 1], events[k - 1], states[k]);
      assert FromWorld(Landed(site.worlds(states[k - 1].clock), states[k - 1].landed), site.worlds);
    }
  }

  /** Failed attempts and their retries change nothing: the committed chunks are a prefix of the
      chunks the loop would run in the worlds they committed in, each with the edits that had
      landed by then. One message at most is in flight. */
  lemma RetriesFollowLoop(site: Site, states: seq<State>, events: seq<Event>,
                          table: Table, m: InspectPayload, clock: nat, k: nat)
    requires Run(site, states, events) && Starts(states[0], table, m, clock) && NothingTwice(events) && k <= |events|
    ensures var calls := states[k].calls;
            && calls <= InlineCalls(site.(worlds := WorldsOf(calls, site.worlds)), 0, table, m.remaining, m.skipIds)
            && FromWorlds(calls, site.worlds)
    ensures |states[k].queue| <= 1
  {
    hide Step, Linked;
    RunKeepsHead(site, states, events, table, m, clock, k);
    RunFromWorlds(site, states, events, k);
    var there := site.(worlds := WorldsOf(states[k].calls, site.worlds));
    LinkedIsPrefix(there, 0, table, m.remaining, m.skipIds, states[k].calls);
  }

  /** Without throws the chunks are a prefix of the chunks the loop runs in the same worlds: a
      failed send or a drop ends the chain early and changes nothing before it. */
  lemma ChainedIsPrefix(site: Site, states: seq<State>, events: seq<Event>,
                        table: Table, m: InspectPayload, clock: nat, k: nat)
    requires Run(site, states, events) && Starts(states[0], table, m, clock)
    requires NothingTwice(events) && NoThrow(events) && k <= |events|
    ensures states[k].calls <= InlineCalls(site, clock, table, m.remaining, m.skipIds)
    ensures |states[k].queue| <= 1
  {
    hide Step, Linked, InWorlds;
    RunKeepsHead(site, states, events, table, m, clock, k);
    RunInWorlds(site, states, events, table, m, clock, k);
    LinkedIsPrefix(site, clock, table, m.remaining, m.skipIds, states[k].calls);
  }

  lemma {:induction false} SentStands(site: Site, states: seq<State>, events: seq<Event>,
                                      table: Table, m: InspectPayload, clock: nat, k: nat)
    requires Run(site, states, events) && Starts(states[0], table, m, clock) && Sent(events) && k <= |events|
    ensures OnlyHead(site.run, states[k], table, m) && |states[k].calls| == k
    ensures states[k].queue == [] <==> k > 0 && Last(states[k].calls).result.next.None?
    decreases k
  {
    hide Landed, OnlyHead;
    assert NothingTwice(events);
    RunKeepsHead(site, states, events, table, m, clock, k);
    if k > 0 {
      SentStands(site, states, events, table, m, clock, k - 1);
      assert Step(site, states[k - 1], events[k - 1], states[k]);
      assert NothingTwice([events[k - 1]]);
      StepKeepsHead(site, states[k - 1], events[k - 1], states[k], table, m);
    }
  }

  /** With every send delivered the chain terminates: it takes one delivery per chunk of the
      loop, drains exactly then, and has then run exactly the loop's chunks, with the same
      table, the same summed totals and the same rows skipped. */
  lemma ChainedIsInline(site: Site, states: seq<State>, events: seq<Event>,
                        table: Table, m: InspectPayload, clock: nat)
    requires Run(site, states, events) && Starts(states[0], table, m, clock) && Sent(events)
    ensures var inline := InlineCalls(site, clock, table, m.remaining, m.skipIds);
            var end := states[|events|];
            && |events| <= |inline|
            && (end.queue == [] <==> |events| == |inline|)
            && (end.queue == [] ==>
                && end.calls == inline
                && end.table == Last(inline).after
                && Summed(end.calls) == Summed(inline)
                && Skipped(m.skipIds, end.calls) == Skipped(m.skipIds, inline))
  {
    hide Step, Linked, InWorlds, InlineCalls, AtHead;
    SentStands(site, states, events, table, m, clock, |events|);
    assert NothingTwice(events) && NoThrow(events);
    RunInWorlds(site, states, events, table, m, clock, |events|);
    LinkedIsPrefix(site, clock, table, m.remaining, m.skipIds, states[|events|].calls);
  }

  // ----- the run's budget

  function Budget(queue: seq<InspectPayload>): nat {
    if queue == [] then 0 else Budget(queue[..|queue| - 1]) + Positive(queue[|queue| - 1].remaining)
  }

  lemma {:induction false} BudgetAppends(a: seq<InspectPayload>, b: seq<InspectPayload>)
    ensures Budget(a + b) == Budget(a) + Budget(b)
    decreases |b|
  {
    if b == [] {
      assert a + b == a;
    } else {
      assert (a + b)[..|a + b| - 1] == a + b[..|b| - 1];
      BudgetAppends(a, b[..|b| - 1]);
    }
  }

  lemma BudgetOfOne(m: InspectPayload)
    ensures Budget([m]) == Positive(m.remaining) && Budget([]) == 0
  {
    assert [m][..0] == [];
  }

  lemma BudgetRemoves(queue: seq<InspectPayload>, i: nat)
    requires i < |queue|
    ensures Budget(Removed(queue, i)) + Positive(queue[i].remaining) == Budget(queue)
  {
    hide Budget;
    BudgetAppends(queue[..i], queue[i + 1..]);
    BudgetAppends(queue[..i] + [queue[i]], queue[i + 1..]);
    BudgetAppends(queue[..i], [queue[i]]);
    BudgetOfOne(queue[i]);
    assert queue == queue[..i] + [queue[i]] + queue[i + 1..];
  }

  // The budget an event repeats: that of a message executed, or tried, and left on the queue.
  function Repeated(s: State, e: Event): nat {
    if e.Push? || e.Drop? || (e.Deliver? && e.acked) || e.i >= |s.queue| then 0
    else Positive(s.queue[e.i].remaining)
  }

  // The budget of a message pushed from outside.
  function Opened(e: Event): nat {
    if e.Push? then Positive(Opening(e.message, e.freshId).remaining) else 0
  }

  lemma StepSpends(site: Site, s: State, e: Event, s': State)
    requires Step(site, s, e, s')
    ensures s'.spent + Budget(s'.queue) <= s.spent + Budget(s.queue) + Repeated(s, e) + Opened(e)
  {
    hide Budget, Landed, EditsOf;
    if e.Push? {
      BudgetAppends(s.queue, [Opening(e.message, e.freshId)]);
      BudgetOfOne(Opening(e.message, e.freshId));
    } else {
      var m := s.queue[e.i];
      var call := CallNow(site, s, m);
      BudgetRemoves(s.queue, e.i);
      if e.Deliver? {
        var left := if e.acked then Removed(s.queue, e.i) else s.queue;
        var next := if e.sent then Continuation(m, call.result) else [];
        BudgetAppends(left, next);
        if next != [] { BudgetOfOne(next[0]); } else { BudgetOfOne(m); }
      }
    }
  }

  // Over the first `k` events.
  function TotalRepeated(states: seq<State>, events: seq<Event>, k: nat): nat
    requires |states| == |events| + 1 && k <= |events|
  {
    if k == 0 then 0 else TotalRepeated(states, events, k - 1) + Repeated(states[k - 1], events[k - 1])
  }

  function TotalOpened(events: seq<Event>, k: nat): nat
    requires k <= |events|
  {
    if k == 0 then 0 else TotalOpened(events, k - 1) + Opened(events[k - 1])
  }

  /** Inspections are conserved: over any run, with any pushes, drops, crashes and redeliveries,
      what was spent and what the queue may still spend is at most the budget the run began
      with, plus the budgets pushed, plus those of the attempts that were repeated. */
  lemma {:induction false} SpendingIsBounded(site: Site, states: seq<State>, events: seq<Event>, k: nat)
    requires Run(site, states, events) && k <= |events|
    ensures states[k].spent + Budget(states[k].queue)
         <= states[0].spent + Budget(states[0].queue) + TotalRepeated(states, events, k) + TotalOpened(events, k)
    decreases k
  {
    hide Step, Budget, Repeated, Opened;
    if k > 0 {
      SpendingIsBounded(site, states, events, k - 1);
      StepSpends(site, states[k - 1], events[k - 1], states[k]);
    }
  }

  // Every delivery acknowledged, and no attempt thrown.
  predicate Undisturbed(events: seq<Event>) {
    forall k :: 0 <= k < |events| ==> !events[k].Throw? && (events[k].Deliver? ==> events[k].acked)
  }

  function Pushes(events: seq<Event>, k: nat): nat
    requires k <= |events|
  {
    if k == 0 then 0 else Pushes(events, k - 1) + if events[k - 1].Push? then 1 else 0
  }

  lemma {:induction false} PushesOpen(events: seq<Event>, k: nat)
    requires k <= |events|
    requires forall j :: 0 <= j < |events| && events[j].Push? ==> events[j].message.gscInspect == None
    ensures TotalOpened(events, k) == GSC_INSPECT_RUN_BUDGET * Pushes(events, k)
    decreases k
  {
    if k > 0 { PushesOpen(events, k - 1); }
  }

  lemma {:induction false} NothingRepeated(states: seq<State>, events: seq<Event>, k: nat)
    requires |states| == |events| + 1 && k <= |events| && Undisturbed(events)
    ensures TotalRepeated(states, events, k) == 0
    decreases k
  {
    if k > 0 { NothingRepeated(states, events, k - 1); }
  }

  /** Undisturbed, every run the cron or an operator opens keeps to the daily budget: `n` pushes
      without a payload inspect at most `n` budgets, however their messages interleave. */
  lemma UndisturbedRunsKeepBudget(site: Site, states: seq<State>, events: seq<Event>, k: nat)
    requires Run(site, states, events) && states[0].queue == [] && states[0].spent == 0
    requires Undisturbed(events) && k <= |events|
    requires forall j :: 0 <= j < |events| && events[j].Push? ==> events[j].message.gscInspect == None
    ensures states[k].spent <= 1_500 * Pushes(events, k)
  {
    SpendingIsBounded(site, states, events, k);
    NothingRepeated(states, events, k);
    PushesOpen(events, k);
  }
}
