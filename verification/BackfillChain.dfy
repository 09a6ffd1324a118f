/** The traffic-classification backfill: one queue message classifies one day and sends the
    next. Queue, consumer, crashes, lost acknowledgements and dropped messages are steps of
    one state machine; `Worker` is the consumer whose deliveries are those steps. */
module BackfillChain {
  import opened Common
  import opened JobQueue

  // ----- which ranges a run accepts

  const PAGE_VIEWS_RETENTION_DAYS := 400
  const SWARM_PRIOR_LOOKBACK_DAYS := 14
  const CRAWL_SHAPE_LOOKBACK_DAYS := 14
  const OPERATOR_PAIR_LOOKBACK_DAYS := 30
  const BACKFILL_MAX_AGE_DAYS :=
    PAGE_VIEWS_RETENTION_DAYS -
    Max(Max(SWARM_PRIOR_LOOKBACK_DAYS, CRAWL_SHAPE_LOOKBACK_DAYS), OPERATOR_PAIR_LOOKBACK_DAYS)
  const SPA_FOLLOWUP_WINDOW_MS := 30 * 60_000

  datatype Refusal = MalformedDay | DayAfterThrough | TooOld | EvidenceOpen | NoQueue

  function BackfillRefusal(range: DayRange, now: int): Option<Refusal> {
    if range.day.Malformed? || range.through.Malformed? then Some(MalformedDay)
    else if range.day.n > range.through.n then Some(DayAfterThrough)
    else if range.day.n < DayAt(now) - BACKFILL_MAX_AGE_DAYS then Some(TooOld)
    else if (range.through.n + 1) * MS_PER_DAY + SPA_FOLLOWUP_WINDOW_MS > now then Some(EvidenceOpen)
    else None
  }

  predicate WellFormed(range: DayRange) {
    range.day.Day? && range.through.Day? && range.day.n <= range.through.n
  }

  // The retention prune keeps the rows from the UTC midnight of its cutoff day on.
  predicate Retained(day: int, now: int) {
    day >= DayAt(now) - PAGE_VIEWS_RETENTION_DAYS
  }

  // The first day whose rows classifying `day` reads: the longer of the two row windows.
  function RowsFrom(day: int): int {
    day - Max(SWARM_PRIOR_LOOKBACK_DAYS, CRAWL_SHAPE_LOOKBACK_DAYS)
  }

  /** Which ranges are accepted, and why any other is refused: two days in order, the first at most
      370 days old and the last over for half an hour. */
  lemma AcceptedExactly(from: int, through: int, now: int)
    ensures var refusal := BackfillRefusal(DayRange(Day(from), Day(through)), now);
      && (refusal == None <==>
            && from <= through
            && now / 86_400_000 - 370 <= from
            && through * 86_400_000 + 86_400_000 + 1_800_000 <= now)
      && (refusal == Some(DayAfterThrough) <==> from > through)
      && (refusal == Some(TooOld) <==> from <= through && from < now / 86_400_000 - 370)
      && refusal != Some(MalformedDay) && refusal != Some(NoQueue)
    ensures forall range: DayRange :: range.day.Malformed? || range.through.Malformed? ==>
      BackfillRefusal(range, now) == Some(MalformedDay)
  {
  }

  /** What an accepted range guarantees: every day of it has been over for the follow-up
      margin, and the rows each of its days is classified from are all retained. */
  lemma AcceptedEvidence(from: int, day: int, through: int, now: int)
    requires BackfillRefusal(DayRange(Day(from), Day(through)), now) == None && from <= day <= through
    ensures now - (day + 1) * MS_PER_DAY >= SPA_FOLLOWUP_WINDOW_MS
    ensures forall d :: RowsFrom(day) <= d <= day ==> Retained(d, now)
  {
  }

  // The reads are nested: each of those rows is in turn matched against the operator rows
  // around it, so the first anchor day is one lookback before the first row day.
  function AnchorsFrom(day: int): int {
    RowsFrom(day) - OPERATOR_PAIR_LOOKBACK_DAYS
  }

  ghost predicate AnchorsRetained(day: int, now: int) {
    forall d :: AnchorsFrom(day) <= d <= day ==> Retained(d, now)
  }

  /** Acceptance does not cover the nested read. Whatever the time, the oldest day that is
      young enough is accepted, once closed, and reads anchors that may be gone. */
  lemma OldestDayReadsTooFar(now: int)
    ensures var day := DayAt(now) - BACKFILL_MAX_AGE_DAYS;
            BackfillRefusal(DayRange(Day(day), Day(day)), now) == None && !AnchorsRetained(day, now)
  {
    var day := DayAt(now) - BACKFILL_MAX_AGE_DAYS;
    assert !Retained(AnchorsFrom(day), now);
  }

  /** Every read of every day of a range stays within retention exactly when its first day is
      no older than retention less both lookbacks, 14 and 30 days. */
  lemma WhollyRetained(from: int, through: int, now: int)
    requires from <= through
    ensures (forall day :: from <= day <= through ==> AnchorsRetained(day, now))
       <==> from >= DayAt(now) - (PAGE_VIEWS_RETENTION_DAYS - 44)
  {
    if forall day :: from <= day <= through ==> AnchorsRetained(day, now) {
      assert AnchorsRetained(from, now);
      assert Retained(AnchorsFrom(from), now);
    }
  }

  /** What an accepted range comes to later in its chain: its remaining days are refused only
      as too old, and exactly the days that have by then passed the age limit. */
  lemma AcceptedSuffix(from: int, day: int, through: int, start: int, now: int)
    requires BackfillRefusal(DayRange(Day(from), Day(through)), start) == None
    requires from <= day <= through && start <= now
    ensures BackfillRefusal(DayRange(Day(day), Day(through)), now)
         == if day < DayAt(now) - BACKFILL_MAX_AGE_DAYS then Some(TooOld) else None
  {
  }

  // ----- the classification table

  datatype View = View(id: int, day: int)

  datatype Row = Row(view: int, version: int, verdict: int, evaluatedAt: int, day: int)

  datatype Config = Config(views: seq<View>, version: int, queueBound: bool)

  function DayViews(views: seq<View>, day: int): (ids: seq<int>)
    ensures forall id :: id in ids <==> View(id, day) in views
  {
    if views == [] then []
    else (if views[0].day == day then [views[0].id] else []) + DayViews(views[1..], day)
  }

  predicate HasKey(stored: seq<Row>, view: int, version: int) {
    exists i :: 0 <= i < |stored| && stored[i].view == view && stored[i].version == version
  }

  ghost predicate UniqueKeys(stored: seq<Row>) {
    forall i, j :: 0 <= i < j < |stored| ==>
      stored[i].view != stored[j].view || stored[i].version != stored[j].version
  }

  // `INSERT … ON CONFLICT (page_view_id, classifier_version) DO NOTHING`
  function InsertIgnore(stored: seq<Row>, row: Row): seq<Row> {
    if HasKey(stored, row.view, row.version) then stored else stored + [row]
  }

  function InsertAll(stored: seq<Row>, rows: seq<Row>): seq<Row>
    decreases |rows|
  {
    if rows == [] then stored
    else InsertIgnore(InsertAll(stored, rows[..|rows| - 1]), rows[|rows| - 1])
  }

  // Only whole new rows, appended; every row offered ends up stored under its key.
  ghost predicate Extends(stored: seq<Row>, rows: seq<Row>, r: seq<Row>) {
    && stored <= r
    && (UniqueKeys(stored) ==> UniqueKeys(r))
    && (forall i :: |stored| <= i < |r| ==> r[i] in rows)
    && (forall i :: 0 <= i < |rows| ==> HasKey(r, rows[i].view, rows[i].version))
  }

  lemma KeysSurvive(stored: seq<Row>, r: seq<Row>)
    requires stored <= r
    ensures forall view, version :: HasKey(stored, view, version) ==> HasKey(r, view, version)
  {
  }

  /** Inserting rows appends some of them, repeats no key, changes no stored row, and leaves
      a row under every key offered. */
  lemma {:induction false} InsertAllExtends(stored: seq<Row>, rows: seq<Row>)
    ensures Extends(stored, rows, InsertAll(stored, rows))
    decreases |rows|
  {
    if rows != [] {
      var init, last := rows[..|rows| - 1], rows[|rows| - 1];
      InsertAllExtends(stored, init);
      var mid := InsertAll(stored, init);
      var r := InsertIgnore(mid, last);
      KeysSurvive(mid, r);
      if r != mid { assert r[|mid|] == last; }
      forall i | 0 <= i < |rows| ensures HasKey(r, rows[i].view, rows[i].version) {
        if i < |init| { assert rows[i] == init[i]; }
      }
      forall i | |stored| <= i < |r| ensures r[i] in rows {
        if i < |mid| {
          var k :| 0 <= k < |init| && init[k] == mid[i];
          assert rows[k] == r[i];
        }
      }
    }
  }

  lemma {:induction false} InsertAllConcat(stored: seq<Row>, a: seq<Row>, b: seq<Row>)
    ensures InsertAll(stored, a + b) == InsertAll(InsertAll(stored, a), b)
    decreases |b|
  {
    if b == [] {
      assert a + b == a;
    } else {
      var rows := a + b;
      assert rows[..|rows| - 1] == a + b[..|b| - 1];
      InsertAllConcat(stored, a, b[..|b| - 1]);
    }
  }

  function StoredCount(stored: seq<Row>, day: int, version: int): nat {
    if stored == [] then 0
    else StoredCount(stored[..|stored| - 1], day, version) +
         if stored[|stored| - 1].day == day && stored[|stored| - 1].version == version then 1 else 0
  }

  /** The count is of the rows of that day and that version. */
  lemma {:induction false} StoredCountIs(stored: seq<Row>, day: int, version: int)
    ensures StoredCount(stored, day, version)
         == |set i | 0 <= i < |stored| && stored[i].day == day && stored[i].version == version|
    decreases |stored|
  {
    var at := set i | 0 <= i < |stored| && stored[i].day == day && stored[i].version == version;
    if stored != [] {
      var last := |stored| - 1;
      var before := set i | 0 <= i < last && stored[..last][i].day == day && stored[..last][i].version == version;
      StoredCountIs(stored[..last], day, version);
      assert forall i :: 0 <= i < last ==> stored[..last][i] == stored[i];
      assert at == before + if stored[last].day == day && stored[last].version == version then {last} else {};
    }
  }

  // The rows one run offers: one per view of the day, in the order read.
  predicate IsPayload(config: Config, day: int, now: int, rows: seq<Row>) {
    var ids := DayViews(config.views, day);
    && |rows| == |ids|
    && forall i :: 0 <= i < |rows| ==>
        rows[i].view == ids[i] && rows[i].version == config.version && rows[i].day == day &&
        rows[i].evaluatedAt == now
  }

  // `after - before` counts exactly the rows the run appended.
  lemma {:induction false} CountsNewRows(stored: seq<Row>, rows: seq<Row>, day: int, version: int)
    requires forall i :: 0 <= i < |rows| ==> rows[i].day == day && rows[i].version == version
    ensures StoredCount(InsertAll(stored, rows), day, version) - StoredCount(stored, day, version)
         == |InsertAll(stored, rows)| - |stored|
    decreases |rows|
  {
    if rows != [] {
      var init, last := rows[..|rows| - 1], rows[|rows| - 1];
      CountsNewRows(stored, init, day, version);
      var mid := InsertAll(stored, init);
      if !HasKey(mid, last.view, last.version) {
        assert (mid + [last])[..|mid|] == mid;
      }
    }
  }

  // Every view of the day has a row of the current version.
  predicate Classified(config: Config, stored: seq<Row>, day: int) {
    forall id :: id in DayViews(config.views, day) ==> HasKey(stored, id, config.version)
  }

  predicate AllClassified(config: Config, stored: seq<Row>, from: int, before: int) {
    forall d :: from <= d < before ==> Classified(config, stored, d)
  }

  lemma PayloadClassifies(config: Config, stored: seq<Row>, day: int, now: int, rows: seq<Row>)
    requires IsPayload(config, day, now, rows)
    ensures Classified(config, InsertAll(stored, rows), day)
  {
    InsertAllExtends(stored, rows);
    var r := InsertAll(stored, rows);
    forall id | id in DayViews(config.views, day) ensures HasKey(r, id, config.version) {
      var i :| 0 <= i < |rows| && DayViews(config.views, day)[i] == id;
      assert HasKey(r, rows[i].view, rows[i].version);
    }
  }

  /** A run over a day that is already classified writes nothing, whatever verdicts it
      reached: the first stored verdict stays. */
  lemma {:induction false} RerunWritesNothing(config: Config, stored: seq<Row>, rows: seq<Row>)
    requires forall i :: 0 <= i < |rows| ==> HasKey(stored, rows[i].view, rows[i].version)
    ensures InsertAll(stored, rows) == stored
    decreases |rows|
  {
    if rows != [] {
      var init := rows[..|rows| - 1];
      assert forall i :: 0 <= i < |init| ==> init[i] == rows[i];
      RerunWritesNothing(config, stored, init);
    }
  }

  // Every row carries what the classifier said of its view.
  ghost predicate Judged(rows: seq<Row>, verdict: int -> int) {
    forall i :: 0 <= i < |rows| ==> rows[i].verdict == verdict(rows[i].view)
  }

  // `built.rows.map(…)`: one row per view of the day, with the classifier's verdict.
  function Payload(config: Config, day: int, now: int, verdict: int -> int): (rows: seq<Row>)
    ensures IsPayload(config, day, now, rows) && Judged(rows, verdict)
    ensures |rows| == |DayViews(config.views, day)|
  {
    var ids := DayViews(config.views, day);
    seq(|ids|, i requires 0 <= i < |ids| => Row(ids[i], config.version, verdict(ids[i]), now, day))
  }

  // What a run that offered its whole payload counts.
  lemma PayloadCounts(config: Config, stored: seq<Row>, day: int, now: int, rows: seq<Row>)
    requires IsPayload(config, day, now, rows)
    ensures StoredCount(InsertAll(stored, rows), day, config.version) - StoredCount(stored, day, config.version)
         == |InsertAll(stored, rows)| - |stored|
  {
    CountsNewRows(stored, rows, day, config.version);
  }

  /** What a run stores of its payload: behind the rows already there, each unchanged, only rows of
      this run, with the verdict the classifier reached on their view. */
  lemma NewRowsAreJudged(stored: seq<Row>, rows: seq<Row>, verdict: int -> int)
    requires Judged(rows, verdict)
    ensures stored <= InsertAll(stored, rows)
    ensures Judged(InsertAll(stored, rows)[|stored|..], verdict)
  {
    InsertAllExtends(stored, rows);
    var r := InsertAll(stored, rows);
    forall i | 0 <= i < |r[|stored|..]| ensures r[|stored|..][i].verdict == verdict(r[|stored|..][i].view) {
      assert r[|stored| + i] in rows;
    }
  }

  // The same of a run that offered the first `k` rows.
  lemma PrefixIsJudged(stored: seq<Row>, rows: seq<Row>, k: nat, verdict: int -> int)
    requires Judged(rows, verdict) && k <= |rows|
    ensures stored <= InsertAll(stored, rows[..k])
    ensures Judged(InsertAll(stored, rows[..k])[|stored|..], verdict)
    ensures k == 0 ==> InsertAll(stored, rows[..k]) == stored
  {
    assert forall i :: 0 <= i < k ==> rows[..k][i] == rows[i];
    NewRowsAreJudged(stored, rows[..k], verdict);
  }

  // ----- the state machine

  datatype Chain = Chain(from: int, through: int)

  // `chains`, `nightly` and `lost` are history: the ranges pushed, the days classified by
  // messages that name none, and the ranges whose last message was dropped or refused, until a
  // message that goes on with them is pushed.
  datatype State = State(
    stored: seq<Row>,
    queue: multiset<Body>,
    chains: set<Chain>,
    nightly: set<int>,
    lost: set<Chain>)

  datatype Outcome =
    | Skipped(why: Refusal)
    | Crashed(written: nat)   // rows offered before the failure
    | Finished                // every row offered, and the next message sent

  datatype Event =
    | Push(body: Body)
    | Drop(body: Body)
    | Deliver(body: Body, receivedAt: int, now: int, sentAt: int, rows: seq<Row>,
              outcome: Outcome, acked: bool)

  function RunRefusal(config: Config, m: Message, now: int): Option<Refusal> {
    if m.trafficClassify.None? then None
    else
      var range := m.trafficClassify.value;
      if BackfillRefusal(range, now).Some? then BackfillRefusal(range, now)
      else if range.day.n < range.through.n && !config.queueBound then Some(NoQueue)
      else None
  }

  function RunDay(m: Message, now: int): int
    requires m.trafficClassify.Some? ==> WellFormed(m.trafficClassify.value)
  {
    if m.trafficClassify.Some? then m.trafficClassify.value.day.n
    else DayAt(match m.enqueuedAt case At(ms) => ms case Unreadable => now) - 1
  }

  /** A message that names a day means that day. Any other means the last day that was over when
      it was enqueued, however late it is delivered; or, where that cannot be read, when it runs. */
  lemma NightlyDayIsFixed(m: Message, now: int)
    ensures match m.trafficClassify
            case Some(DayRange(Day(day), Day(through))) => day <= through ==> RunDay(m, now) == day
            case Some(_) => true
            case None =>
              var since := match m.enqueuedAt case At(ms) => ms case Unreadable => now;
              (RunDay(m, now) + 1) * 86_400_000 <= since < (RunDay(m, now) + 2) * 86_400_000
  {
    if m.trafficClassify == None {
      var since := match m.enqueuedAt case At(ms) => ms case Unreadable => now;
      assert since == DayAt(since) * MS_PER_DAY + since % MS_PER_DAY;
    }
  }

  function NextMessages(m: Message, sentAt: int): seq<Body>
    requires m.trafficClassify.Some? ==> WellFormed(m.trafficClassify.value)
  {
    if m.trafficClassify.Some? && m.trafficClassify.value.day.n < m.trafficClassify.value.through.n then
      var range := m.trafficClassify.value;
      [AsBody(Message("traffic_classify", Manual, At(sentAt), None,
                      Some(DayRange(Day(range.day.n + 1), range.through))))]
    else []
  }

  /** A range that goes on sends exactly one message, by hand, for the next day of the same job and
      the same range; its last day, and a run that names no day, send none. */
  lemma GoesOnByOneDay(m: Message, sentAt: int)
    requires m.trafficClassify.Some? ==> WellFormed(m.trafficClassify.value)
    ensures match m.trafficClassify
            case Some(DayRange(Day(day), Day(through))) =>
              if day == through then NextMessages(m, sentAt) == []
              else NextMessages(m, sentAt) == [Body("traffic_classify", Some(Manual), Some(At(sentAt)), None,
                                                    Some(DayRange(Day(day + 1), Day(through))))]
            case _ => NextMessages(m, sentAt) == []
  {
  }

  function Chains(range: Option<DayRange>): set<Chain> {
    if range.Some? && WellFormed(range.value) then {Chain(range.value.day.n, range.value.through.n)} else {}
  }

  function NightlyDays(m: Message, now: int): set<int> {
    if m.trafficClassify.Some? then {} else {RunDay(m, now)}
  }

  // The message is part of the chain, and every day before it is classified.
  predicate Serves(config: Config, stored: seq<Row>, body: Body, c: Chain) {
    && body.trafficClassify.Some?
    && WellFormed(body.trafficClassify.value)
    && body.trafficClassify.value.through.n == c.through
    && c.from <= body.trafficClassify.value.day.n
    && AllClassified(config, stored, c.from, body.trafficClassify.value.day.n)
  }

  predicate Done(config: Config, stored: seq<Row>, c: Chain) {
    AllClassified(config, stored, c.from, c.through + 1)
  }

  ghost predicate Served(config: Config, stored: seq<Row>, queue: multiset<Body>, c: Chain) {
    exists body {:trigger Serves(config, stored, body, c)} :: body in queue && Serves(config, stored, body, c)
  }

  // The unfinished chains that lose their last message when `body` goes and `left` stays.
  ghost function Stranded(config: Config, s: State, body: Body, left: multiset<Body>): set<Chain> {
    set c | c in s.chains && Serves(config, s.stored, body, c) && !Done(config, s.stored, c)
            && !Served(config, s.stored, left, c)
  }

  // The lost chains that `body` takes up where they were lost, or from their start.
  ghost function Rescued(config: Config, s: State, body: Body): set<Chain> {
    set c | c in s.lost && Serves(config, s.stored, body, c)
  }

  ghost predicate Delivered(config: Config, s: State, e: Event, s': State)
    requires e.Deliver?
  {
    var m := NormalizeJobMessage(e.body, e.receivedAt);
    var left := if e.acked then s.queue - multiset{e.body} else s.queue;
    && e.body in s.queue
    && match e.outcome
       case Skipped(why) =>
         && RunRefusal(config, m, e.now) == Some(why)
         && s' == s.(queue := left, lost := s.lost + Stranded(config, s, e.body, left))
       case Crashed(written) =>
         && RunRefusal(config, m, e.now) == None
         && !e.acked
         && IsPayload(config, RunDay(m, e.now), e.now, e.rows)
         && written <= |e.rows|
         && s' == s.(stored := InsertAll(s.stored, e.rows[..written]),
                     nightly := s.nightly + NightlyDays(m, e.now))
       case Finished =>
         && RunRefusal(config, m, e.now) == None
         && IsPayload(config, RunDay(m, e.now), e.now, e.rows)
         && s' == s.(stored := InsertAll(s.stored, e.rows),
                     queue := left + multiset(NextMessages(m, e.sentAt)),
                     nightly := s.nightly + NightlyDays(m, e.now))
  }

  ghost predicate Step(config: Config, s: State, e: Event, s': State) {
    match e
    case Push(body) =>
      s' == s.(queue := s.queue + multiset{body}, chains := s.chains + Chains(body.trafficClassify),
               lost := s.lost - Rescued(config, s, body))
    case Drop(body) =>
      && body in s.queue
      && var left := s.queue - multiset{body};
         s' == s.(queue := left, lost := s.lost + Stranded(config, s, body, left))
    case Deliver(_, _, _, _, _, _, _) => Delivered(config, s, e, s')
  }

  // ----- what every run keeps

  ghost predicate Claimed(config: Config, s: State, body: Body) {
    exists c {:trigger Serves(config, s.stored, body, c)} :: c in s.chains && Serves(config, s.stored, body, c)
  }

  ghost predicate Alive(config: Config, s: State, c: Chain) {
    Served(config, s.stored, s.queue, c)
  }

  // No chain skips a day: a queued message has only classified days behind it.
  ghost predicate NothingSkipped(config: Config, s: State) {
    forall body {:trigger Claimed(config, s, body)} ::
      body in s.queue && body.trafficClassify.Some? && WellFormed(body.trafficClassify.value) ==>
        Claimed(config, s, body)
  }

  ghost predicate NothingForgotten(config: Config, s: State) {
    forall c {:trigger Alive(config, s, c)} :: c in s.chains ==>
      c in s.lost || Done(config, s.stored, c) || Alive(config, s, c)
  }

  ghost predicate InScope(s: State, day: int) {
    day in s.nightly || exists c {:trigger c.from} :: c in s.chains && c.from <= day <= c.through
  }

  ghost predicate NothingElseWritten(base: seq<Row>, s: State) {
    && base <= s.stored
    && forall i :: |base| <= i < |s.stored| ==> InScope(s, s.stored[i].day)
  }

  ghost predicate Sound(config: Config, base: seq<Row>, s: State) {
    && UniqueKeys(s.stored)
    && NothingElseWritten(base, s)
    && NothingSkipped(config, s)
    && NothingForgotten(config, s)
  }

  lemma ServesSurvives(config: Config, stored: seq<Row>, more: seq<Row>, body: Body, c: Chain)
    requires stored <= more
    ensures Serves(config, stored, body, c) ==> Serves(config, more, body, c)
    ensures Done(config, stored, c) ==> Done(config, more, c)
  {
    KeysSurvive(stored, more);
    assert forall d :: Classified(config, stored, d) ==> Classified(config, more, d);
  }

  lemma ScopeGrows(s: State, s': State, day: int)
    requires InScope(s, day) && s.chains <= s'.chains && s.nightly <= s'.nightly
    ensures InScope(s', day)
  {
  }

  // A message that stays queued keeps its claim while rows and chains only grow.
  lemma ClaimSurvives(config: Config, s: State, s': State, body: Body)
    requires Claimed(config, s, body) && s.stored <= s'.stored && s.chains <= s'.chains
    ensures Claimed(config, s', body)
  {
    var c :| c in s.chains && Serves(config, s.stored, body, c);
    ServesSurvives(config, s.stored, s'.stored, body, c);
  }

  lemma AliveSurvives(config: Config, s: State, s': State, c: Chain)
    requires Alive(config, s, c) && s.stored <= s'.stored
    requires forall b :: b in s.queue && Serves(config, s.stored, b, c) ==> b in s'.queue
    ensures Alive(config, s', c)
  {
    var b :| b in s.queue && Serves(config, s.stored, b, c);
    ServesSurvives(config, s.stored, s'.stored, b, c);
  }

  // ----- each kind of step

  // A pushed range is its own chain, with no day behind it.
  lemma PushServes(config: Config, s: State, body: Body)
    requires body in s.queue && body.trafficClassify.Some? && WellFormed(body.trafficClassify.value)
    requires Chains(body.trafficClassify) <= s.chains
    ensures Claimed(config, s, body)
    ensures forall c :: c in Chains(body.trafficClassify) ==> Alive(config, s, c)
  {
    var range := body.trafficClassify.value;
    var c := Chain(range.day.n, range.through.n);
    assert c in Chains(body.trafficClassify);
    assert Serves(config, s.stored, body, c);
  }

  lemma PushKeepsSound(config: Config, base: seq<Row>, s: State, body: Body, s': State)
    requires Sound(config, base, s) && Step(config, s, Push(body), s')
    ensures Sound(config, base, s')
  {
    hide Serves, Done;
    forall i | |base| <= i < |s'.stored| ensures InScope(s', s'.stored[i].day) {
      ScopeGrows(s, s', s.stored[i].day);
    }
    if body.trafficClassify.Some? && WellFormed(body.trafficClassify.value) {
      PushServes(config, s', body);
    }
    forall b | b in s'.queue && b.trafficClassify.Some? && WellFormed(b.trafficClassify.value)
      ensures Claimed(config, s', b)
    {
      if b in s.queue { ClaimSurvives(config, s, s', b); }
    }
    forall c | c in s'.chains && c !in s'.lost && !Done(config, s'.stored, c)
      ensures Alive(config, s', c)
    {
      if c in s.lost {
        assert body in s'.queue && Serves(config, s'.stored, body, c);
      } else if c in s.chains {
        AliveSurvives(config, s, s', c);
      }
    }
  }

  // Removing a message that is recorded as lost.
  lemma LossKeepsSound(config: Config, base: seq<Row>, s: State, body: Body, s': State)
    requires Sound(config, base, s)
    requires s'.stored == s.stored && s'.chains == s.chains && s'.nightly == s.nightly
    requires s'.queue == s.queue - multiset{body} || s'.queue == s.queue
    requires s'.lost == s.lost + Stranded(config, s, body, s'.queue)
    ensures Sound(config, base, s')
  {
    forall i | |base| <= i < |s'.stored| ensures InScope(s', s'.stored[i].day) {
      ScopeGrows(s, s', s.stored[i].day);
    }
    forall b | b in s'.queue && b.trafficClassify.Some? && WellFormed(b.trafficClassify.value)
      ensures Claimed(config, s', b)
    {
      ClaimSurvives(config, s, s', b);
    }
    forall c | c in s'.chains && c !in s'.lost && !Done(config, s'.stored, c)
      ensures Alive(config, s', c)
    {
      if !Serves(config, s.stored, body, c) {
        AliveSurvives(config, s, s', c);
      } else {
        assert c !in Stranded(config, s, body, s'.queue);
      }
    }
  }

  // Rows of one run stay in scope.
  lemma RunWritesInScope(config: Config, base: seq<Row>, s: State, m: Message, now: int, rows: seq<Row>, s': State)
    requires UniqueKeys(s.stored) && NothingElseWritten(base, s)
    requires m.trafficClassify.Some? ==> WellFormed(m.trafficClassify.value)
    requires forall i :: 0 <= i < |rows| ==> rows[i].day == RunDay(m, now)
    requires s'.stored == InsertAll(s.stored, rows)
    requires s'.chains == s.chains && s'.nightly == s.nightly + NightlyDays(m, now)
    requires m.trafficClassify.Some? ==> InScope(s, RunDay(m, now))
    ensures s.stored <= s'.stored
    ensures UniqueKeys(s'.stored) && NothingElseWritten(base, s')
  {
    InsertAllExtends(s.stored, rows);
    if m.trafficClassify.Some? { ScopeGrows(s, s', RunDay(m, now)); }
    forall i | |base| <= i < |s'.stored| ensures InScope(s', s'.stored[i].day) {
      if i < |s.stored| {
        ScopeGrows(s, s', s.stored[i].day);
      } else {
        assert s'.stored[i] in rows;
      }
    }
  }

  // The day a claimed backfill message names is within a pushed range.
  lemma ClaimedInScope(config: Config, s: State, body: Body)
    requires Claimed(config, s, body)
    ensures InScope(s, body.trafficClassify.value.day.n)
  {
  }

  lemma CrashKeepsSound(config: Config, base: seq<Row>, s: State, e: Event, s': State)
    requires Sound(config, base, s) && e.Deliver? && e.outcome.Crashed? && Delivered(config, s, e, s')
    ensures Sound(config, base, s')
  {
    hide Serves, Done, InScope, InsertAll, UniqueKeys;
    var m := NormalizeJobMessage(e.body, e.receivedAt);
    if m.trafficClassify.Some? { ClaimedInScope(config, s, e.body); }
    RunWritesInScope(config, base, s, m, e.now, e.rows[..e.outcome.written], s');
    forall b | b in s'.queue && b.trafficClassify.Some? && WellFormed(b.trafficClassify.value)
      ensures Claimed(config, s', b)
    {
      ClaimSurvives(config, s, s', b);
    }
    forall c | c in s'.chains && c !in s'.lost && !Done(config, s'.stored, c)
      ensures Alive(config, s', c)
    {
      ServesSurvives(config, s.stored, s'.stored, e.body, c);
      AliveSurvives(config, s, s', c);
    }
  }

  // After a finished run the chain goes on in the next message, or is done.
  lemma FinishPassesOn(config: Config, stored: seq<Row>, e: Event, stored': seq<Row>, c: Chain)
    requires e.Deliver? && Serves(config, stored, e.body, c)
    requires stored' == InsertAll(stored, e.rows)
    requires IsPayload(config, e.body.trafficClassify.value.day.n, e.now, e.rows)
    ensures
      var next := NextMessages(NormalizeJobMessage(e.body, e.receivedAt), e.sentAt);
      if next == [] then Done(config, stored', c) else |next| == 1 && Serves(config, stored', next[0], c)
  {
    hide InsertAll, Classified, IsPayload;
    var d := e.body.trafficClassify.value.day.n;
    InsertAllExtends(stored, e.rows);
    PayloadClassifies(config, stored, d, e.now, e.rows);
    ServesSurvives(config, stored, stored', e.body, c);
    assert AllClassified(config, stored', c.from, d + 1);
  }

  lemma FinishKeepsClaims(config: Config, base: seq<Row>, s: State, e: Event, s': State)
    requires NothingSkipped(config, s) && e.Deliver? && e.outcome.Finished? && Delivered(config, s, e, s')
    requires s.stored <= s'.stored
    ensures NothingSkipped(config, s')
  {
    hide Serves, InsertAll, IsPayload;
    var m := NormalizeJobMessage(e.body, e.receivedAt);
    var next := NextMessages(m, e.sentAt);
    forall b | b in s'.queue && b.trafficClassify.Some? && WellFormed(b.trafficClassify.value)
      ensures Claimed(config, s', b)
    {
      if b in s.queue {
        ClaimSurvives(config, s, s', b);
      } else {
        assert b in next;
        assert Claimed(config, s, e.body);
        var c :| c in s.chains && Serves(config, s.stored, e.body, c);
        FinishPassesOn(config, s.stored, e, s'.stored, c);
        assert b == next[0];
      }
    }
  }

  lemma FinishForgetsNothing(config: Config, base: seq<Row>, s: State, e: Event, s': State)
    requires NothingForgotten(config, s) && e.Deliver? && e.outcome.Finished? && Delivered(config, s, e, s')
    requires s.stored <= s'.stored
    ensures NothingForgotten(config, s')
  {
    hide InsertAll, IsPayload, Classified;
    var m := NormalizeJobMessage(e.body, e.receivedAt);
    var next := NextMessages(m, e.sentAt);
    forall c | c in s'.chains && c !in s'.lost && !Done(config, s'.stored, c)
      ensures Alive(config, s', c)
    {
      ServesSurvives(config, s.stored, s'.stored, e.body, c);
      if Serves(config, s.stored, e.body, c) {
        FinishPassesOn(config, s.stored, e, s'.stored, c);
        assert next[0] in s'.queue;
      } else {
        AliveSurvives(config, s, s', c);
      }
    }
  }

  lemma FinishKeepsSound(config: Config, base: seq<Row>, s: State, e: Event, s': State)
    requires Sound(config, base, s) && e.Deliver? && e.outcome.Finished? && Delivered(config, s, e, s')
    ensures Sound(config, base, s')
  {
    hide Serves, Done, InScope, InsertAll, UniqueKeys;
    var m := NormalizeJobMessage(e.body, e.receivedAt);
    if m.trafficClassify.Some? {
      assert Claimed(config, s, e.body);
      ClaimedInScope(config, s, e.body);
    }
    RunWritesInScope(config, base, s, m, e.now, e.rows, s');
    FinishKeepsClaims(config, base, s, e, s');
    FinishForgetsNothing(config, base, s, e, s');
  }

  lemma StepKeepsSound(config: Config, base: seq<Row>, s: State, e: Event, s': State)
    requires Sound(config, base, s) && Step(config, s, e, s')
    ensures Sound(config, base, s')
  {
    hide Sound;
    match e
    case Push(body) => PushKeepsSound(config, base, s, body, s');
    case Drop(body) => LossKeepsSound(config, base, s, body, s');
    case Deliver(body, receivedAt, _, _, _, outcome, _) =>
      match outcome
      case Skipped(_) => LossKeepsSound(config, base, s, body, s');
      case Crashed(_) => CrashKeepsSound(config, base, s, e, s');
      case Finished => FinishKeepsSound(config, base, s, e, s');
  }

  // ----- whole runs

  // The states a run passes through, one event between each two.
  ghost predicate Run(config: Config, states: seq<State>, events: seq<Event>) {
    && |states| == |events| + 1
    && forall k :: 0 <= k < |events| ==> Step(config, states[k], events[k], states[k + 1])
  }

  ghost predicate Idle(base: seq<Row>, s: State) {
    UniqueKeys(base) && s == State(base, multiset{}, {}, {}, {})
  }

  /** Every state any run reaches is sound, however messages are pushed, delivered, crashed,
      redelivered, refused or dropped: no chain skips a day, no chain is forgotten, nothing
      else is written, no row is duplicated and none is changed. */
  lemma {:induction false} RunsAreSound(config: Config, base: seq<Row>, states: seq<State>, events: seq<Event>, k: nat)
    requires Run(config, states, events) && Idle(base, states[0]) && k <= |events|
    ensures Sound(config, base, states[k])
    decreases k
  {
    if k > 0 {
      RunsAreSound(config, base, states, events, k - 1);
      StepKeepsSound(config, base, states[k - 1], events[k - 1], states[k]);
    }
  }

  /** Once the queue has drained, every range pushed is classified in full, unless it was
      unfinished when its last message was dropped or refused and nothing that goes on with it
      has been pushed since. */
  lemma DrainedMeansClassified(config: Config, base: seq<Row>, states: seq<State>, events: seq<Event>, k: nat,
                               c: Chain, day: int)
    requires Run(config, states, events) && Idle(base, states[0]) && k <= |events|
    requires states[k].queue == multiset{}
    requires c in states[k].chains && c !in states[k].lost && c.from <= day <= c.through
    ensures Classified(config, states[k].stored, day)
  {
    RunsAreSound(config, base, states, events, k);
    assert !Alive(config, states[k], c);
  }

  // ----- a run nothing disturbs

  function PayloadOf(config: Config, day: int, now: int): (rows: seq<Row>)
    ensures IsPayload(config, day, now, rows)
  {
    var ids := DayViews(config.views, day);
    seq(|ids|, i requires 0 <= i < |ids| => Row(ids[i], config.version, 0, now, day))
  }

  // Every delivery of the chain from `day` on is accepted at the time it happens.
  predicate AcceptedThrough(config: Config, day: int, through: int, clock: int -> int) {
    && (day < through ==> config.queueBound)
    && forall d :: day <= d <= through ==> BackfillRefusal(DayRange(Day(d), Day(through)), clock(d)) == None
  }

  ghost predicate Smooth(events: seq<Event>) {
    forall k :: 0 <= k < |events| ==> events[k].Deliver? && events[k].outcome.Finished? && events[k].acked
  }

  lemma RunPrepends(config: Config, s: State, e: Event, states: seq<State>, events: seq<Event>)
    requires Run(config, states, events) && Step(config, s, e, states[0])
    ensures Run(config, [s] + states, [e] + events)
  {
  }

  /** Delivered without failures, a chain takes one delivery a day, uses up its message, and
      leaves its whole range classified. */
  lemma {:induction false} ChainFinishes(config: Config, s: State, body: Body, c: Chain, clock: int -> int)
      returns (states: seq<State>, events: seq<Event>)
    requires body in s.queue && Serves(config, s.stored, body, c)
    requires AcceptedThrough(config, body.trafficClassify.value.day.n, c.through, clock)
    ensures Run(config, states, events) && Smooth(events) && states[0] == s
    ensures |events| == c.through - body.trafficClassify.value.day.n + 1
    ensures states[|events|].queue == s.queue - multiset{body}
    ensures Done(config, states[|events|].stored, c)
    decreases c.through - body.trafficClassify.value.day.n
  {
    hide InsertAll, IsPayload, AllClassified, BackfillRefusal;
    var day := body.trafficClassify.value.day.n;
    var now := clock(day);
    var m := NormalizeJobMessage(body, now);
    var rows := PayloadOf(config, day, now);
    var e := Deliver(body, now, now, now, rows, Finished, true);
    var next := NextMessages(m, now);
    var s' := s.(stored := InsertAll(s.stored, rows), queue := s.queue - multiset{body} + multiset(next));
    assert s'.nightly == s.nightly + NightlyDays(m, now);
    assert Delivered(config, s, e, s');
    FinishPassesOn(config, s.stored, e, s'.stored, c);
    if next == [] {
      states, events := [s, s'], [e];
    } else {
      assert multiset(next) == multiset{next[0]};
      var laterStates, laterEvents := ChainFinishes(config, s', next[0], c, clock);
      states, events := [s] + laterStates, [e] + laterEvents;
      RunPrepends(config, s, e, laterStates, laterEvents);
    }
  }
}
