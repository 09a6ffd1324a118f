/** The consumer of the traffic-classification queue: `classifyDay` chunk by chunk,
    `runTrafficClassifyJob`, and the acknowledgement. Whatever fails, a delivery is a step of
    the chain's state machine. */
module BackfillWorker {
  import opened Common
  import opened JobQueue
  import opened BackfillChain

  const CLASSIFICATION_ROWS_PER_STATEMENT := 500

  datatype DayResult = DayResult(rowsSeen: nat, rowsWritten: int)

  // Whole statements of 500 rows, or all rows.
  predicate WholeChunks(offered: nat, total: nat) { offered % 500 == 0 || offered == total }

  lemma NoChunk(total: nat)
    ensures WholeChunks(0, total)
  {
  }

  lemma NextChunk(offered: nat, end: int, total: nat)
    requires WholeChunks(offered, total) && offered < total
    requires end == if offered + CLASSIFICATION_ROWS_PER_STATEMENT < total
                    then offered + CLASSIFICATION_ROWS_PER_STATEMENT else total
    ensures offered < end <= total && WholeChunks(end, total)
  {
  }

  // A run from `s` to `ran`, and what becomes of its message, make up a step.
  lemma DeliveryIsStep(config: Config, s: State, e: Event, ran: State, s': State)
    requires e.Deliver? && e.body in s.queue
    requires var m := NormalizeJobMessage(e.body, e.receivedAt);
      var left := if e.acked then ran.queue - multiset{e.body} else ran.queue;
      match e.outcome
      case Skipped(why) =>
        && RunRefusal(config, m, e.now) == Some(why) && ran == s
        && s' == ran.(queue := left, lost := s.lost + Stranded(config, s, e.body, left))
      case Crashed(written) =>
        && RunRefusal(config, m, e.now) == None && !e.acked
        && IsPayload(config, RunDay(m, e.now), e.now, e.rows) && written <= |e.rows|
        && s' == ran == s.(stored := InsertAll(s.stored, e.rows[..written]),
                           nightly := s.nightly + NightlyDays(m, e.now))
      case Finished =>
        && RunRefusal(config, m, e.now) == None && IsPayload(config, RunDay(m, e.now), e.now, e.rows)
        && ran == s.(stored := InsertAll(s.stored, e.rows),
                     queue := s.queue + multiset(NextMessages(m, e.sentAt)),
                     nightly := s.nightly + NightlyDays(m, e.now))
        && s' == ran.(queue := left)
    ensures Step(config, s, e, s')
  {
    hide InsertAll, IsPayload, NightlyDays, Stranded, NextMessages, NormalizeJobMessage;
  }

  class Worker {
    const config: Config
    var stored: seq<Row>
    var queue: multiset<Body>
    ghost var chains: set<Chain>
    ghost var nightly: set<int>
    ghost var lost: set<Chain>
    // How often the database, the queue or an acknowledgement failed.
    ghost var faults: nat

    constructor (config: Config, stored: seq<Row>)
      ensures this.config == config && faults == 0 && Snapshot() == State(stored, multiset{}, {}, {}, {})
    {
      this.config, this.stored, queue := config, stored, multiset{};
      chains, nightly, lost, faults := {}, {}, {}, 0;
    }

    ghost function Snapshot(): State
      reads this
    {
      State(stored, queue, chains, nightly, lost)
    }

    ghost method Fail()
      modifies this`faults
      ensures faults == old(faults) + 1
    {
      faults := faults + 1;
    }

    // Each insert statement is atomic; any of them may fail, before or after it applied, and
    // nothing else stops the run.
    method ClassifyDay(day: int, now: int, verdict: int -> int)
      returns (result: Option<DayResult>, rows: seq<Row>, offered: nat)
      modifies this`stored, this`faults
      ensures faults == old(faults) + if result == None then 1 else 0
      ensures old(stored) <= stored && Judged(stored[|old(stored)|..], verdict)
      ensures IsPayload(config, day, now, rows) && offered <= |rows| && Judged(rows, verdict)
      ensures WholeChunks(offered, |rows|)
      ensures stored == InsertAll(old(stored), rows[..offered])
      ensures result.Some? ==> offered == |rows|
      ensures result.Some? ==> result.value.rowsSeen == |DayViews(config.views, day)|
      ensures result.Some? ==> result.value.rowsWritten == |stored| - |old(stored)|
    {
      hide *;
      rows := Payload(config, day, now, verdict);
      offered := 0;
      PrefixIsJudged(old(stored), rows, 0, verdict);
      NoChunk(|rows|);
      if * { Fail(); return None, rows, 0; }
      var before := StoredCount(stored, day, config.version);
      while offered < |rows|
        invariant offered <= |rows| && WholeChunks(offered, |rows|)
        invariant stored == InsertAll(old(stored), rows[..offered]) && faults == old(faults)
        invariant old(stored) <= stored && Judged(stored[|old(stored)|..], verdict)
      {
        if * { Fail(); return None, rows, offered; }
        var end := if offered + CLASSIFICATION_ROWS_PER_STATEMENT < |rows|
                   then offered + CLASSIFICATION_ROWS_PER_STATEMENT else |rows|;
        NextChunk(offered, end, |rows|);
        assert rows[..end] == rows[..offered] + rows[offered..end];
        InsertAllConcat(old(stored), rows[..offered], rows[offered..end]);
        stored := InsertAll(stored, rows[offered..end]);
        offered := end;
        PrefixIsJudged(old(stored), rows, offered, verdict);
        if * { Fail(); return None, rows, offered; }
      }
      assert rows[..offered] == rows;
      PayloadCounts(config, old(stored), day, now, rows);
      result := Some(DayResult(|rows|, StoredCount(stored, day, config.version) - before));
    }

    method RunTrafficClassify(message: Message, now: int, sentAt: int, verdict: int -> int)
      returns (outcome: Outcome, rows: seq<Row>)
      modifies this`stored, this`queue, this`nightly, this`faults
      ensures faults == old(faults) + if outcome.Crashed? then 1 else 0
      ensures old(stored) <= stored && Judged(stored[|old(stored)|..], verdict)
      ensures match outcome
              case Skipped(why) =>
                && RunRefusal(config, message, now) == Some(why)
                && Snapshot() == old(Snapshot())
              case Crashed(written) =>
                && Judged(rows, verdict)
                && RunRefusal(config, message, now) == None
                && IsPayload(config, RunDay(message, now), now, rows) && written <= |rows|
                && WholeChunks(written, |rows|)
                && Snapshot() == old(Snapshot()).(stored := InsertAll(old(stored), rows[..written]),
                                            nightly := old(nightly) + NightlyDays(message, now))
              case Finished =>
                && Judged(rows, verdict)
                && RunRefusal(config, message, now) == None
                && IsPayload(config, RunDay(message, now), now, rows)
                && Snapshot() == old(Snapshot()).(stored := InsertAll(old(stored), rows),
                                            queue := old(queue) + multiset(NextMessages(message, sentAt)),
                                            nightly := old(nightly) + NightlyDays(message, now))
    {
      hide InsertAll;
      if message.trafficClassify.Some? {
        var range := message.trafficClassify.value;
        var refusal := BackfillRefusal(range, now);
        if refusal.None? && range.day.n < range.through.n && !config.queueBound {
          refusal := Some(NoQueue);
        }
        if refusal.Some? {
          return Skipped(refusal.value), [];
        }
      }
      var day := RunDay(message, now);
      nightly := nightly + NightlyDays(message, now);
      var result, offered;
      result, rows, offered := ClassifyDay(day, now, verdict);
      if result.None? {
        return Crashed(offered), rows;
      }
      assert rows[..offered] == rows;
      if message.trafficClassify.Some? && day < message.trafficClassify.value.through.n && config.queueBound {
        if * {
          Fail();
          return Crashed(offered), rows;
        }
        var next := Message("traffic_classify", Manual, At(sentAt), None,
                            Some(DayRange(Day(day + 1), message.trafficClassify.value.through)));
        queue := queue + multiset{AsBody(next)};
      }
      return Finished, rows;
    }

    /** One delivery is a step: a run that throws is retried, everything else is acknowledged,
        and an acknowledgement the platform loses delivers the message again. Only a failure
        leaves the message unacknowledged. Rows stored before
        keep their verdict; those stored now carry the classifier's. */
    method Consume(body: Body, receivedAt: int, now: int, sentAt: int, verdict: int -> int) returns (e: Event)
      requires body in queue
      modifies this
      ensures e.Deliver? && e.body == body && e.receivedAt == receivedAt && e.now == now && e.sentAt == sentAt
      ensures Step(config, old(Snapshot()), e, Snapshot())
      ensures faults == old(faults) + if e.acked then 0 else 1
      ensures !e.outcome.Skipped? ==> Judged(e.rows, verdict)
      ensures old(stored) <= stored && Judged(stored[|old(stored)|..], verdict)
    {
      hide InsertAll, IsPayload, RunRefusal, NightlyDays, Stranded, NextMessages, RunDay, Judged, NormalizeJobMessage,
           WellFormed, Step;
      var message := NormalizeJobMessage(body, receivedAt);
      var outcome, rows := RunTrafficClassify(message, now, sentAt, verdict);
      ghost var ran := Snapshot();
      var acked := !outcome.Crashed?;
      if acked {
        if * {
          faults := faults + 1;
          acked := false;
        }
      }
      if acked {
        queue := queue - multiset{body};
      }
      if outcome.Skipped? {
        lost := lost + Stranded(config, old(Snapshot()), body, queue);
      }
      e := Deliver(body, receivedAt, now, sentAt, rows, outcome, acked);
      DeliveryIsStep(config, old(Snapshot()), e, ran, Snapshot());
    }
  }
}
