/** One chunk of the Google inspection run: read the worklist, ask Google about each row,
    then close or tag the rows whose page did not change meanwhile. Google's answers, the
    clock and the edits that race with the chunk are the `World` it runs in. */
module InspectChunk {
  import opened Common

  const GSC_INSPECT_CHUNK_SIZE := 100
  const GSC_INSPECT_RUN_BUDGET := 1_500
  const GSC_INSPECT_RECHECK_MS := 3 * 86_400_000

  datatype Row = Row(priority: int, queuedAt: int, lastChangedAt: Option<int>, inspectedAt: Option<int>,
                     tag: Option<int>)

  type Table = map<int, Row>

  datatype Entry = Entry(id: int, row: Row)

  function ChangedAt(row: Row): int {
    if row.lastChangedAt.Some? then row.lastChangedAt.value else row.queuedAt
  }

  datatype FailureKind = Quota | Auth | Transient

  datatype Answer = Status(pass: bool, lastCrawl: Option<int>, tag: int) | Failure(kind: FailureKind)

  // An edit of a listed page: its time, and the tier of its reason.
  datatype Edit = Edit(at: int, priority: int)

  type Edits = map<int, Edit>

  // Edits land before the chunk reads, while Google is asked, and between the re-read and
  // the commit.
  datatype World = World(
    configured: bool,
    startedAt: int,
    tokenOk: bool,
    answers: map<int, Answer>,
    before: Edits,
    during: Edits,
    late: Edits,
    inspectedAt: int)

  // An enqueue of a page already on the list moves its change time, clears its tags, and may
  // raise its tier, never lower it.
  function Edited(table: Table, edits: Edits): Table {
    map id | id in table ::
      if id in edits then
        table[id].(priority := Min(table[id].priority, edits[id].priority),
                   lastChangedAt := Some(edits[id].at), inspectedAt := None, tag := None)
      else table[id]
  }

  function Merged(first: Edits, later: Edits): Edits {
    map id | id in first.Keys + later.Keys ::
      if id !in later then first[id]
      else if id !in first then later[id]
      else Edit(later[id].at, Min(first[id].priority, later[id].priority))
  }

  /** An edited row is back on the list whatever was recorded of it: changed now, untagged, never
      inspected, and of no lower tier; every other row is as it was. */
  lemma EditReopens(table: Table, edits: Edits, id: int)
    requires id in table
    ensures id in Edited(table, edits)
    ensures var row, before := Edited(table, edits)[id], table[id];
      if id in edits then
        && row.lastChangedAt == Some(edits[id].at) && row.inspectedAt == None && row.tag == None
        && row.queuedAt == before.queuedAt
        && row.priority <= before.priority && row.priority <= edits[id].priority
        && (row.priority == before.priority || row.priority == edits[id].priority)
      else row == before
    ensures Edited(table, edits).Keys == table.Keys
  {
  }

  lemma EditsCompose(table: Table, first: Edits, later: Edits)
    ensures Edited(Edited(table, first), later) == Edited(table, Merged(first, later))
  {
    var twice, once := Edited(Edited(table, first), later), Edited(table, Merged(first, later));
    forall id | id in table ensures twice[id] == once[id] {
      assert id in Merged(first, later) <==> id in first || id in later;
    }
    assert twice == once;
  }

  // The row counts as changed at `t`: its last recorded change, or else when it was queued.
  ghost predicate TimeIs(row: Row, t: int) {
    row.lastChangedAt == Some(t) || (row.lastChangedAt == None && row.queuedAt == t)
  }

  // Two readings of a row agree on when it changed.
  ghost predicate SameTime(a: Row, b: Row) {
    forall t :: TimeIs(a, t) <==> TimeIs(b, t)
  }

  lemma ChangedAtIs(row: Row)
    ensures forall t :: TimeIs(row, t) <==> t == ChangedAt(row)
  {
  }

  lemma SameTimeIs(a: Row, b: Row)
    ensures SameTime(a, b) <==> ChangedAt(a) == ChangedAt(b)
  {
    ChangedAtIs(a);
    ChangedAtIs(b);
    assert TimeIs(a, ChangedAt(a));
  }

  // ----- the worklist

  predicate Eligible(row: Row, recheckBefore: int) {
    row.inspectedAt.None? || row.inspectedAt.value < recheckBefore
  }

  function EligibleEntries(table: Table, recheckBefore: int, skipIds: seq<int>): set<Entry> {
    set id | id in table && Eligible(table[id], recheckBefore) && id !in skipIds :: Entry(id, table[id])
  }

  // Never inspected first, then the oldest inspection, then the tier, then the id.
  predicate Earlier(a: Entry, b: Entry) {
    if a.row.inspectedAt.None? != b.row.inspectedAt.None? then a.row.inspectedAt.None?
    else if a.row.inspectedAt.Some? && a.row.inspectedAt.value != b.row.inspectedAt.value then
      a.row.inspectedAt.value < b.row.inspectedAt.value
    else if a.row.priority != b.row.priority then a.row.priority < b.row.priority
    else a.id < b.id
  }

  // Read off the columns: which row the run asks about first.
  ghost predicate Precedes(a: Entry, b: Entry) {
    && (b.row.inspectedAt == None ==> a.row.inspectedAt == None)
    && (a.row.inspectedAt.Some? && b.row.inspectedAt.Some? ==>
         a.row.inspectedAt.value <= b.row.inspectedAt.value)
    && (a.row.inspectedAt == b.row.inspectedAt ==>
         && a.row.priority <= b.row.priority
         && (a.row.priority == b.row.priority ==> a.id < b.id))
  }

  lemma EarlierPrecedes(a: Entry, b: Entry)
    ensures Earlier(a, b) <==> Precedes(a, b)
  {
  }

  ghost predicate OneRowPerId(s: set<Entry>) {
    forall a, b :: a in s && b in s && a.id == b.id ==> a == b
  }

  lemma {:induction false} FirstExists(s: set<Entry>)
    requires s != {} && OneRowPerId(s)
    ensures exists a :: a in s && forall b :: b in s ==> b == a || Earlier(a, b)
    decreases |s|
  {
    var x :| x in s;
    var rest := s - {x};
    if rest == {} {
      assert forall b :: b in s ==> b == x || b in rest;
    } else {
      FirstExists(rest);
      var a :| a in rest && forall b :: b in rest ==> b == a || Earlier(a, b);
      if Earlier(a, x) {
        assert forall b :: b in s ==> b == x || b in rest;
      } else {
        assert x.id != a.id;
        assert Earlier(x, a);
        forall b | b in s ensures b == x || Earlier(x, b) {
          if b != x { assert b in rest; }
        }
      }
    }
  }

  // `ORDER BY`
  function Ordered(s: set<Entry>): seq<Entry>
    requires OneRowPerId(s)
    decreases |s|
  {
    if s == {} then []
    else
      FirstExists(s);
      var a :| a in s && forall b :: b in s ==> b == a || Earlier(a, b);
      [a] + Ordered(s - {a})
  }

  ghost predicate Sorted(rows: seq<Entry>) {
    forall i, j :: 0 <= i < j < |rows| ==> Earlier(rows[i], rows[j])
  }

  ghost predicate First(s: set<Entry>, a: Entry) {
    a in s && forall b :: b in s ==> b == a || Earlier(a, b)
  }

  // The head of the order is the first entry, and the rest is the order of the others.
  lemma OrderedStep(s: set<Entry>)
    requires OneRowPerId(s) && s != {}
    ensures Ordered(s) != [] && First(s, Ordered(s)[0])
    ensures Ordered(s) == [Ordered(s)[0]] + Ordered(s - {Ordered(s)[0]})
  {
  }

  lemma {:induction false} OrderedIsSorted(s: set<Entry>)
    requires OneRowPerId(s)
    ensures Sorted(Ordered(s))
    ensures forall e :: e in Ordered(s) <==> e in s
    decreases |s|
  {
    if s == {} {
      assert Ordered(s) == [];
    } else {
      OrderedFrom(s);
    }
  }

  lemma {:induction false} OrderedFrom(s: set<Entry>)
    requires OneRowPerId(s) && s != {}
    ensures Sorted(Ordered(s))
    ensures forall e :: e in Ordered(s) <==> e in s
    decreases |s|, 0
  {
    hide Ordered, Earlier;
    OrderedStep(s);
    var a := Ordered(s)[0];
    var rest := Ordered(s - {a});
    OrderedIsSorted(s - {a});
    forall e ensures e in [a] + rest <==> e in s {
      assert e in s <==> e == a || e in s - {a};
    }
  }

  function Worklist(table: Table, recheckBefore: int, skipIds: seq<int>): seq<Entry> {
    Ordered(EligibleEntries(table, recheckBefore, skipIds))
  }

  // The rows that are due, read off the columns: never inspected or not for three days, and not
  // to be skipped.
  ghost function Due(table: Table, at: int, skipIds: seq<int>): set<int> {
    set id | id in table && id !in skipIds &&
      (table[id].inspectedAt == None || table[id].inspectedAt.value < at - 259_200_000)
  }

  lemma {:induction false} OrderedCount(s: set<Entry>)
    requires OneRowPerId(s)
    ensures |Ordered(s)| == |s|
    decreases |s|
  {
    if s != {} {
      OrderedStep(s);
      OrderedCount(s - {Ordered(s)[0]});
    }
  }

  lemma EntriesCount(table: Table, ids: set<int>)
    requires ids <= table.Keys
    ensures |set id | id in ids :: Entry(id, table[id])| == |ids|
  {
    var entries, f := set id | id in ids :: Entry(id, table[id]), (e: Entry) => e.id;
    forall id | id in ids ensures exists e :: e in entries && f(e) == id {
      assert f(Entry(id, table[id])) == id;
    }
    ImageSize(entries, f, ids);
  }

  lemma WorklistIsDue(table: Table, at: int, skipIds: seq<int>)
    ensures var list := Worklist(table, at - GSC_INSPECT_RECHECK_MS, skipIds);
      && |list| == |Due(table, at, skipIds)|
      && (forall e :: e in list <==> e.id in Due(table, at, skipIds) && e.row == table[e.id])
      && forall i, j :: 0 <= i < j < |list| ==> Precedes(list[i], list[j])
  {
    hide Ordered, Earlier, Precedes;
    var entries := EligibleEntries(table, at - GSC_INSPECT_RECHECK_MS, skipIds);
    var due := Due(table, at, skipIds);
    assert entries == set id | id in due :: Entry(id, table[id]);
    EntriesCount(table, due);
    OrderedCount(entries);
    OrderedIsSorted(entries);
    var list := Ordered(entries);
    forall i, j | 0 <= i < j < |list| ensures Precedes(list[i], list[j]) { EarlierPrecedes(list[i], list[j]); }
  }

  function Limit(remaining: int): int {
    if GSC_INSPECT_CHUNK_SIZE < remaining then GSC_INSPECT_CHUNK_SIZE else remaining
  }

  function Selected(world: World, table: Table, remaining: int, skipIds: seq<int>): seq<Entry>
    requires remaining > 0
  {
    var all := Worklist(Edited(table, world.before), world.startedAt - GSC_INSPECT_RECHECK_MS, skipIds);
    if |all| <= Limit(remaining) then all else all[..Limit(remaining)]
  }

  lemma DueAreRows(table: Table, at: int, skipIds: seq<int>)
    ensures Due(table, at, skipIds) <= table.Keys
  {
  }

  lemma PrecedesIsStrict(a: Entry, b: Entry)
    requires Precedes(a, b)
    ensures a != b
  {
  }

  /** The chunk takes the head of the worklist: distinct rows that are due, as many as there are
      up to 100 and the budget, and a due row it leaves comes after every row it took. */
  lemma SelectedIsHead(world: World, table: Table, remaining: int, skipIds: seq<int>)
    requires remaining > 0
    ensures var rows, now := Selected(world, table, remaining, skipIds), Edited(table, world.before);
            var due := Due(now, world.startedAt, skipIds);
            && |rows| == Min(|due|, Min(100, remaining))
            && (forall e :: e in rows ==> e.id in due && e.row == now[e.id])
            && (forall i, j :: 0 <= i < j < |rows| ==> rows[i].id != rows[j].id && Precedes(rows[i], rows[j]))
            && (forall e, id :: e in rows && id in due && Entry(id, now[id]) !in rows ==>
                 Precedes(e, Entry(id, now[id])))
  {
    hide Worklist, Edited, Due, Precedes;
    var now := Edited(table, world.before);
    var due := Due(now, world.startedAt, skipIds);
    var all := Worklist(now, world.startedAt - GSC_INSPECT_RECHECK_MS, skipIds);
    var rows := Selected(world, table, remaining, skipIds);
    WorklistIsDue(now, world.startedAt, skipIds);
    DueAreRows(now, world.startedAt, skipIds);
    assert forall k :: 0 <= k < |rows| ==> rows[k] == all[k];
    forall e, id | e in rows && id in due && Entry(id, now[id]) !in rows ensures Precedes(e, Entry(id, now[id])) {
      var k :| 0 <= k < |all| && all[k] == Entry(id, now[id]);
      var i :| 0 <= i < |rows| && rows[i] == e;
    }
    forall i, j | 0 <= i < j < |rows| ensures rows[i].id != rows[j].id {
      assert rows[i] in all && rows[j] in all;
      PrecedesIsStrict(rows[i], rows[j]);
    }
  }

  // A worklist within the limit is taken whole.
  lemma SelectedWhole(world: World, table: Table, remaining: int, skipIds: seq<int>, id: int)
    requires remaining > 0
    requires var due := Due(Edited(table, world.before), world.startedAt, skipIds);
      id in due && |due| <= Min(100, remaining)
    ensures exists e :: e in Selected(world, table, remaining, skipIds) && e.id == id
  {
    hide Worklist, Edited, Due, Precedes;
    var now := Edited(table, world.before);
    WorklistIsDue(now, world.startedAt, skipIds);
    DueAreRows(now, world.startedAt, skipIds);
    assert Entry(id, now[id]) in Selected(world, table, remaining, skipIds);
  }

  // ----- one chunk

  datatype Decision = Close | Retag(tag: int) | Leave(kind: FailureKind)

  function Decide(world: World, e: Entry): Decision {
    if e.id !in world.answers then Leave(Transient)
    else match world.answers[e.id]
      case Failure(kind) => Leave(kind)
      case Status(pass, lastCrawl, tag) =>
        if pass && lastCrawl.Some? && lastCrawl.value > ChangedAt(e.row) then Close else Retag(tag)
  }

  function Filter(keep: Entry -> bool, rows: seq<Entry>): (r: seq<Entry>)
    ensures |r| <= |rows|
    ensures forall e :: e in r <==> e in rows && keep(e)
  {
    if rows == [] then [] else (if keep(rows[0]) then [rows[0]] else []) + Filter(keep, rows[1..])
  }

  function Ids(rows: seq<Entry>): (ids: seq<int>)
    ensures |ids| == |rows|
    ensures forall k :: 0 <= k < |rows| ==> ids[k] == rows[k].id
  {
    seq(|rows|, k requires 0 <= k < |rows| => rows[k].id)
  }

  datatype Outcome = Ran | NotConfigured | HaltedQuota | HaltedAuth

  datatype Result = Result(
    outcome: Outcome, inspected: nat, closed: nat, tagged: nat, errors: nat,
    next: Option<int>, failedIds: seq<int>)

  function EmptyResult(outcome: Outcome): Result {
    Result(outcome, 0, 0, 0, 0, None, [])
  }

  function Halt(world: World, rows: seq<Entry>): Outcome {
    if exists e :: e in rows && Decide(world, e) == Leave(Quota) then HaltedQuota
    else if exists e :: e in rows && Decide(world, e) == Leave(Auth) then HaltedAuth
    else Ran
  }

  predicate Unmoved(table: Table, e: Entry) {
    e.id in table && ChangedAt(table[e.id]) == ChangedAt(e.row)
  }

  function Closing(world: World, table: Table, rows: seq<Entry>): seq<Entry> {
    var reread := Edited(Edited(table, world.before), world.during);
    Filter(e => Decide(world, e) == Close && Unmoved(reread, e), rows)
  }

  function Tagging(world: World, table: Table, rows: seq<Entry>): seq<Entry> {
    var reread := Edited(Edited(table, world.before), world.during);
    Filter((e: Entry) => Decide(world, e).Retag? && Unmoved(reread, e), rows)
  }

  // The rows the chunk asks Google about: none where it stops before asking.
  function Asked(world: World, table: Table, remaining: int, skipIds: seq<int>): seq<Entry> {
    if !world.configured || remaining <= 0 || !world.tokenOk then []
    else Selected(world, table, remaining, skipIds)
  }

  function Chunk(world: World, table: Table, remaining: int, skipIds: seq<int>): Result {
    if !world.configured then EmptyResult(NotConfigured)
    else if remaining <= 0 then EmptyResult(Ran)
    else
      var rows := Selected(world, table, remaining, skipIds);
      if rows == [] then EmptyResult(Ran)
      else if !world.tokenOk then EmptyResult(HaltedAuth)
      else
        var halt := Halt(world, rows);
        var left := remaining - |rows|;
        var failed := Ids(Filter((e: Entry) => Decide(world, e).Leave?, rows));
        Result(halt, |rows|, |Closing(world, table, rows)|, |Tagging(world, table, rows)|, |failed|,
               if halt == Ran && |rows| == Limit(remaining) && left > 0 then Some(left) else None,
               failed)
  }

  // The table when the batch commits, before its statements.
  function AtCommit(world: World, table: Table): Table {
    Edited(Edited(Edited(table, world.before), world.during), world.late)
  }

  function Stamped(world: World, id: int, row: Row): Row {
    row.(inspectedAt := Some(world.inspectedAt),
         tag := if id in world.answers && world.answers[id].Status? then Some(world.answers[id].tag) else row.tag)
  }

  // Deletes and updates guarded on the change time they were decided against.
  function Committed(world: World, current: Table, closing: seq<Entry>, tagging: seq<Entry>): Table {
    map id | id in current && !(exists e :: e in closing && e.id == id && Unmoved(current, e)) ::
      if exists e :: e in tagging && e.id == id && Unmoved(current, e) then Stamped(world, id, current[id])
      else current[id]
  }

  function ChunkTable(world: World, table: Table, remaining: int, skipIds: seq<int>): Table {
    var rows := Asked(world, table, remaining, skipIds);
    Committed(world, AtCommit(world, table), Closing(world, table, rows), Tagging(world, table, rows))
  }

  lemma {:induction false} FilterDisjoint(p: Entry -> bool, q: Entry -> bool, r: Entry -> bool, rows: seq<Entry>)
    requires forall e :: !(p(e) && q(e)) && !(p(e) && r(e)) && !(q(e) && r(e))
    ensures |Filter(p, rows)| + |Filter(q, rows)| + |Filter(r, rows)| <= |rows|
  {
    if rows != [] { FilterDisjoint(p, q, r, rows[1..]); }
  }

  /** A chunk spends at most its budget, says how much is left, and continues only after a
      full, unhalted chunk. */
  lemma ChunkSpends(world: World, table: Table, remaining: int, skipIds: seq<int>)
    ensures var r := Chunk(world, table, remaining, skipIds);
            && r.inspected == |Asked(world, table, remaining, skipIds)|
            && r.inspected <= GSC_INSPECT_CHUNK_SIZE
            && (remaining >= 0 ==> r.inspected <= remaining)
            && r.closed + r.tagged + r.errors <= r.inspected
            && (r.next.Some? ==> r.outcome == Ran && r.inspected > 0 && r.next.value > 0
                                 && r.next.value + r.inspected == remaining)
  {
    if world.configured && remaining > 0 {
      SelectedIsHead(world, table, remaining, skipIds);
      var rows := Selected(world, table, remaining, skipIds);
      var reread := Edited(Edited(table, world.before), world.during);
      FilterDisjoint(e => Decide(world, e) == Close && Unmoved(reread, e),
                     (e: Entry) => Decide(world, e).Retag? && Unmoved(reread, e),
                     (e: Entry) => Decide(world, e).Leave?, rows);
    }
  }

  // Google failed on the row, or never answered.
  ghost predicate Unanswered(world: World, id: int) {
    id !in world.answers || world.answers[id].Failure?
  }

  // Google reports the page indexed, and crawled after the change time of the row.
  ghost predicate Clears(world: World, id: int, row: Row) {
    && id in world.answers && world.answers[id].Status? && world.answers[id].pass
    && exists crawl, t :: world.answers[id].lastCrawl == Some(crawl) && TimeIs(row, t) && crawl > t
  }

  lemma ClosesIfClears(world: World, e: Entry)
    ensures Decide(world, e).Leave? <==> Unanswered(world, e.id)
    ensures Decide(world, e) == Close <==> Clears(world, e.id, e.row)
    ensures Decide(world, e).Retag? ==> Decide(world, e).tag == world.answers[e.id].tag
  {
    ChangedAtIs(e.row);
    if Decide(world, e) == Close {
      assert world.answers[e.id].lastCrawl == Some(world.answers[e.id].lastCrawl.value);
      assert TimeIs(e.row, ChangedAt(e.row));
    }
  }

  lemma ClearsByTime(world: World, id: int, a: Row, b: Row)
    requires SameTime(a, b)
    ensures Clears(world, id, a) <==> Clears(world, id, b)
  {
  }

  /** A row leaves the list only when Google reports its page indexed and crawled after the
      change time the row carries as the batch commits. */
  lemma DeletedMeansCrawled(world: World, table: Table, remaining: int, skipIds: seq<int>, id: int)
    requires id in AtCommit(world, table) && id !in ChunkTable(world, table, remaining, skipIds)
    ensures Clears(world, id, AtCommit(world, table)[id])
  {
    hide Decide, Clears, Selected;
    var rows := Asked(world, table, remaining, skipIds);
    var e :| e in Closing(world, table, rows) && e.id == id && Unmoved(AtCommit(world, table), e);
    ClosesIfClears(world, e);
    SameTimeIs(e.row, AtCommit(world, table)[id]);
    ClearsByTime(world, id, e.row, AtCommit(world, table)[id]);
  }

  lemma AskedWasRead(world: World, table: Table, remaining: int, skipIds: seq<int>, e: Entry)
    requires e in Asked(world, table, remaining, skipIds)
    ensures e.id in table && e.row == Edited(table, world.before)[e.id]
    ensures e.id !in skipIds && Eligible(e.row, world.startedAt - GSC_INSPECT_RECHECK_MS)
  {
    SelectedIsHead(world, table, remaining, skipIds);
  }

  // The row's change time is the one the chunk read, at the re-read and at the commit.
  ghost predicate StillCurrent(world: World, table: Table, e: Entry) {
    var reread, current := Edited(Edited(table, world.before), world.during), AtCommit(world, table);
    && e.id in reread && e.id in current
    && SameTime(reread[e.id], e.row) && SameTime(current[e.id], e.row)
  }

  lemma StillCurrentIsUnmoved(world: World, table: Table, e: Entry)
    ensures StillCurrent(world, table, e) <==>
      Unmoved(Edited(Edited(table, world.before), world.during), e) && Unmoved(AtCommit(world, table), e)
  {
    hide SameTime, ChangedAt;
    var reread, current := Edited(Edited(table, world.before), world.during), AtCommit(world, table);
    if e.id in reread && e.id in current {
      SameTimeIs(reread[e.id], e.row);
      SameTimeIs(current[e.id], e.row);
    }
  }

  lemma FailedIdsAre(world: World, table: Table, remaining: int, skipIds: seq<int>)
    ensures Chunk(world, table, remaining, skipIds).failedIds
         == Ids(Filter((e: Entry) => Decide(world, e).Leave?, Asked(world, table, remaining, skipIds)))
  {
  }

  /** The rows reported for the skip list are exactly the rows asked about that got no answer. */
  lemma FailedAreUnanswered(world: World, table: Table, remaining: int, skipIds: seq<int>, id: int)
    ensures id in Chunk(world, table, remaining, skipIds).failedIds <==>
      exists e :: e in Asked(world, table, remaining, skipIds) && e.id == id && Unanswered(world, id)
  {
    hide Selected, Decide, Unanswered, Halt, Closing, Tagging;
    var rows, r := Asked(world, table, remaining, skipIds), Chunk(world, table, remaining, skipIds);
    forall e ensures Decide(world, e).Leave? <==> Unanswered(world, e.id) { ClosesIfClears(world, e); }
    var failed := Filter((e: Entry) => Decide(world, e).Leave?, rows);
    FailedIdsAre(world, table, remaining, skipIds);
    if id in r.failedIds {
      var k :| 0 <= k < |failed| && Ids(failed)[k] == id;
      assert failed[k] in rows;
    }
    if e :| e in rows && e.id == id && Unanswered(world, id) {
      assert e in failed;
      var k :| 0 <= k < |failed| && failed[k] == e;
      assert Ids(failed)[k] == id;
    }
  }

  lemma AskedOncePerId(world: World, table: Table, remaining: int, skipIds: seq<int>)
    ensures var rows := Asked(world, table, remaining, skipIds);
            forall a, b :: a in rows && b in rows && a.id == b.id ==> a == b
  {
    var rows := Asked(world, table, remaining, skipIds);
    forall a, b | a in rows && b in rows && a.id == b.id ensures a == b {
      AskedWasRead(world, table, remaining, skipIds, a);
      AskedWasRead(world, table, remaining, skipIds, b);
    }
  }

  /** What becomes of a row the chunk asked about, exactly. A row Google failed on is reported and
      left as the edits left it, and no other is reported. A row that clears is closed, any other
      is stamped with Google's reason, if and only if its change time has not moved; if it has,
      the row is as the edits left it. */
  lemma AskedExactly(world: World, table: Table, remaining: int, skipIds: seq<int>, e: Entry)
    requires e in Asked(world, table, remaining, skipIds)
    ensures
      var current, after := AtCommit(world, table), ChunkTable(world, table, remaining, skipIds);
      && e.id in current
      && (e.id in Chunk(world, table, remaining, skipIds).failedIds <==> Unanswered(world, e.id))
      && if Unanswered(world, e.id) || !StillCurrent(world, table, e) then
           e.id in after && after[e.id] == current[e.id]
         else if Clears(world, e.id, e.row) then e.id !in after
         else
           && e.id in after
           && after[e.id] == current[e.id].(inspectedAt := Some(world.inspectedAt),
                                            tag := Some(world.answers[e.id].tag))
  {
    hide Selected, Decide, Clears, StillCurrent, Unmoved;
    AskedWasRead(world, table, remaining, skipIds, e);
    AskedOncePerId(world, table, remaining, skipIds);
    ClosesIfClears(world, e);
    StillCurrentIsUnmoved(world, table, e);
    FailedAreUnanswered(world, table, remaining, skipIds, e.id);
    var rows := Asked(world, table, remaining, skipIds);
    match Decide(world, e)
    case Close => assert StillCurrent(world, table, e) ==> e in Closing(world, table, rows);
    case Retag(_) => assert StillCurrent(world, table, e) ==> e in Tagging(world, table, rows);
    case Leave(_) =>
  }

  /** An edit that moves the change time of a row while it is inspected is never lost: the row
      keeps its place, its tags and its stamps. */
  lemma EditsAreKept(world: World, table: Table, remaining: int, skipIds: seq<int>, id: int)
    requires id in table
    requires !SameTime(AtCommit(world, table)[id], Edited(table, world.before)[id])
    ensures id in ChunkTable(world, table, remaining, skipIds)
    ensures ChunkTable(world, table, remaining, skipIds)[id] == AtCommit(world, table)[id]
  {
    var rows := Asked(world, table, remaining, skipIds);
    SameTimeIs(AtCommit(world, table)[id], Edited(table, world.before)[id]);
    forall e | e in rows && e.id == id ensures !Unmoved(AtCommit(world, table), e) {
      AskedWasRead(world, table, remaining, skipIds, e);
    }
  }

  // Nobody edited the row from the chunk's read to its commit.
  predicate Quiet(world: World, id: int) {
    id !in world.during && id !in world.late
  }

  /** Every unedited row asked about leaves the worklist: closed, stamped, or reported. */
  lemma AskedLeaves(world: World, table: Table, remaining: int, skipIds: seq<int>, e: Entry)
    requires e in Asked(world, table, remaining, skipIds) && Quiet(world, e.id)
    ensures
      var after := ChunkTable(world, table, remaining, skipIds);
      || e.id in Chunk(world, table, remaining, skipIds).failedIds
      || e.id !in after
      || after[e.id].inspectedAt == Some(world.inspectedAt)
  {
    hide Selected, Chunk, ChunkTable, Asked;
    AskedWasRead(world, table, remaining, skipIds, e);
    AskedExactly(world, table, remaining, skipIds, e);
    assert AtCommit(world, table)[e.id] == e.row;
  }

  /** A row the chunk did not ask about is as the edits left it. */
  lemma OthersUntouched(world: World, table: Table, remaining: int, skipIds: seq<int>, id: int)
    requires id in table && forall e :: e in Asked(world, table, remaining, skipIds) ==> e.id != id
    ensures id in ChunkTable(world, table, remaining, skipIds)
    ensures ChunkTable(world, table, remaining, skipIds)[id] == AtCommit(world, table)[id]
  {
    hide Selected, Decide;
  }

  // ----- what the audit row counts

  lemma {:induction false} FilterKeepsDistinct(keep: Entry -> bool, rows: seq<Entry>)
    requires Distinct(rows)
    ensures Distinct(Filter(keep, rows))
  {
    if rows != [] {
      FilterKeepsDistinct(keep, rows[1..]);
      assert rows[0] !in rows[1..];
    }
  }

  lemma AskedDistinct(world: World, table: Table, remaining: int, skipIds: seq<int>)
    ensures Distinct(Asked(world, table, remaining, skipIds))
  {
    if world.configured && remaining > 0 { SelectedIsHead(world, table, remaining, skipIds); }
  }

  lemma ClosingIdsDistinct(world: World, table: Table, remaining: int, skipIds: seq<int>)
    ensures Distinct(Ids(Closing(world, table, Asked(world, table, remaining, skipIds))))
  {
    hide Selected, Decide, Unmoved;
    var rows := Asked(world, table, remaining, skipIds);
    AskedDistinct(world, table, remaining, skipIds);
    var reread := Edited(Edited(table, world.before), world.during);
    FilterKeepsDistinct(e => Decide(world, e) == Close && Unmoved(reread, e), rows);
    AskedOncePerId(world, table, remaining, skipIds);
    var closing := Closing(world, table, rows);
    forall i, j | 0 <= i < j < |closing| ensures Ids(closing)[i] != Ids(closing)[j] {
      assert closing[i] in rows && closing[j] in rows && closing[i] != closing[j];
    }
  }

  lemma GoneWasClosing(world: World, current: Table, closing: seq<Entry>, tagging: seq<Entry>, id: int)
    requires id in current && id !in Committed(world, current, closing, tagging)
    ensures id in Elems(Ids(closing))
  {
    hide Unmoved, Stamped;
    var e :| e in closing && e.id == id;
    var k :| 0 <= k < |closing| && closing[k] == e;
    assert Ids(closing)[k] == id;
  }

  lemma ClosingIsGone(world: World, current: Table, closing: seq<Entry>, tagging: seq<Entry>, e: Entry)
    requires e in closing && Distinct(Ids(closing))
    ensures Unmoved(current, e) ==> e.id in current && e.id !in Committed(world, current, closing, tagging)
    ensures e.id in Elems(Ids(closing))
    ensures e.id in current && e.id !in Committed(world, current, closing, tagging) ==> Unmoved(current, e)
  {
    hide Stamped;
    var k :| 0 <= k < |closing| && closing[k] == e;
    assert Ids(closing)[k] == e.id;
    forall x | x in closing && x.id == e.id ensures x == e {
      var j :| 0 <= j < |closing| && closing[j] == x;
      assert Ids(closing)[j] == Ids(closing)[k];
    }
  }

  lemma GoneIsAll(world: World, current: Table, closing: seq<Entry>, tagging: seq<Entry>)
    requires Distinct(Ids(closing))
    ensures Elems(Ids(closing)) <= current.Keys - Committed(world, current, closing, tagging).Keys
      <==> forall e :: e in closing ==> Unmoved(current, e)
  {
    hide Unmoved, Committed;
    var gone := current.Keys - Committed(world, current, closing, tagging).Keys;
    forall e | e in closing ensures Unmoved(current, e) <==> e.id in gone && e.id in Elems(Ids(closing)) {
      ClosingIsGone(world, current, closing, tagging, e);
    }
    forall id | id in Elems(Ids(closing)) ensures exists e :: e in closing && e.id == id {
      var k :| 0 <= k < |closing| && Ids(closing)[k] == id;
      assert closing[k] in closing;
    }
  }

  lemma CommittedKeys(world: World, current: Table, closing: seq<Entry>, tagging: seq<Entry>)
    ensures Committed(world, current, closing, tagging).Keys <= current.Keys
  {
  }

  // The batch deletes closing rows only, and all of them exactly if none has moved.
  lemma GoneAreClosing(world: World, current: Table, closing: seq<Entry>, tagging: seq<Entry>)
    requires Distinct(Ids(closing))
    ensures |current| - |Committed(world, current, closing, tagging)| <= |closing|
    ensures |current| - |Committed(world, current, closing, tagging)| == |closing|
      <==> forall e :: e in closing ==> Unmoved(current, e)
  {
    hide Unmoved, Committed, Elems;
    var after := Committed(world, current, closing, tagging);
    var gone := current.Keys - after.Keys;
    CommittedKeys(world, current, closing, tagging);
    DistinctCount(Ids(closing));
    assert current.Keys == after.Keys + gone;
    forall id | id in gone ensures id in Elems(Ids(closing)) {
      GoneWasClosing(world, current, closing, tagging, id);
    }
    SubsetSize(gone, Elems(Ids(closing)));
    GoneIsAll(world, current, closing, tagging);
  }

  // The chunk that stops before asking reports, and closes, nothing.
  lemma ClosedIsClosing(world: World, table: Table, remaining: int, skipIds: seq<int>)
    ensures Chunk(world, table, remaining, skipIds).closed
         == |Closing(world, table, Asked(world, table, remaining, skipIds))|
  {
  }

  /** The audited `closed` count never understates the rows deleted, and is exact if and only
      if no closing row moved between the re-read and the commit. */
  lemma ClosedCounts(world: World, table: Table, remaining: int, skipIds: seq<int>)
    ensures var current, after := AtCommit(world, table), ChunkTable(world, table, remaining, skipIds);
            var closing := Closing(world, table, Asked(world, table, remaining, skipIds));
            && |current| - |after| <= Chunk(world, table, remaining, skipIds).closed
            && (|current| - |after| == Chunk(world, table, remaining, skipIds).closed
                <==> forall e :: e in closing ==> Unmoved(current, e))
  {
    hide Selected, Decide, Unmoved, Committed, Chunk, Asked, Filter, Closing, Tagging, AtCommit;
    var rows := Asked(world, table, remaining, skipIds);
    ClosingIdsDistinct(world, table, remaining, skipIds);
    ClosedIsClosing(world, table, remaining, skipIds);
    GoneAreClosing(world, AtCommit(world, table), Closing(world, table, rows), Tagging(world, table, rows));
  }

  // ----- what a chunk reports

  lemma FilterCount(keep: Entry -> bool, rows: seq<Entry>, kept: set<Entry>)
    requires Distinct(rows) && forall e :: e in kept <==> e in rows && keep(e)
    ensures |Filter(keep, rows)| == |kept|
  {
    FilterKeepsDistinct(keep, rows);
    DistinctCount(Filter(keep, rows));
    assert Elems(Filter(keep, rows)) == kept;
  }

  // The rows asked about whose change time the re-read still finds.
  ghost function Steady(world: World, table: Table, asked: seq<Entry>): set<Entry> {
    var reread := Edited(Edited(table, world.before), world.during);
    set e | e in asked && !Unanswered(world, e.id) && e.id in reread && SameTime(reread[e.id], e.row)
  }

  // Google answered one of the rows with a refusal of this kind.
  ghost predicate Refused(world: World, asked: seq<Entry>, kind: FailureKind) {
    exists e :: e in asked && e.id in world.answers && world.answers[e.id] == Failure(kind)
  }

  lemma CountsAreSteady(world: World, table: Table, asked: seq<Entry>)
    requires Distinct(asked)
    ensures |Closing(world, table, asked)| == |set e | e in Steady(world, table, asked) && Clears(world, e.id, e.row)|
    ensures |Tagging(world, table, asked)| == |set e | e in Steady(world, table, asked) && !Clears(world, e.id, e.row)|
  {
    hide Decide, Clears, SameTime, ChangedAt, Edited, Filter, Unanswered;
    var reread := Edited(Edited(table, world.before), world.during);
    forall e ensures Decide(world, e).Leave? <==> Unanswered(world, e.id)
      ensures Decide(world, e) == Close <==> Clears(world, e.id, e.row)
      ensures e.id in reread ==> (SameTime(reread[e.id], e.row) <==> Unmoved(reread, e))
    {
      ClosesIfClears(world, e);
      if e.id in reread { SameTimeIs(reread[e.id], e.row); }
    }
    FilterCount(e => Decide(world, e) == Close && Unmoved(reread, e), asked,
                set e | e in Steady(world, table, asked) && Clears(world, e.id, e.row));
    FilterCount((e: Entry) => Decide(world, e).Retag? && Unmoved(reread, e), asked,
                set e | e in Steady(world, table, asked) && !Clears(world, e.id, e.row));
  }

  lemma HaltIs(world: World, rows: seq<Entry>)
    ensures Halt(world, rows) ==
      if Refused(world, rows, Quota) then HaltedQuota else if Refused(world, rows, Auth) then HaltedAuth else Ran
  {
    if e :| e in rows && e.id in world.answers && world.answers[e.id] == Failure(Quota) {
      assert Decide(world, e) == Leave(Quota);
    }
    if e :| e in rows && e.id in world.answers && world.answers[e.id] == Failure(Auth) {
      assert Decide(world, e) == Leave(Auth);
    }
  }

  // How many rows a chunk asks about.
  lemma AskedCount(world: World, table: Table, remaining: int, skipIds: seq<int>)
    ensures var due := Due(Edited(table, world.before), world.startedAt, skipIds);
      |Asked(world, table, remaining, skipIds)| ==
        if world.configured && world.tokenOk && remaining > 0 then Min(|due|, Min(100, remaining)) else 0
  {
    hide Selected, Due;
    if remaining > 0 { SelectedIsHead(world, table, remaining, skipIds); }
  }

  lemma NothingRefused(world: World)
    ensures forall kind :: !Refused(world, [], kind)
  {
  }

  lemma TaggedIsTagging(world: World, table: Table, remaining: int, skipIds: seq<int>)
    ensures Chunk(world, table, remaining, skipIds).tagged
         == |Tagging(world, table, Asked(world, table, remaining, skipIds))|
  {
  }

  /** What a chunk reports, read off the worklist and the answers: how many rows it asked about,
      how many of them it closes, tags and failed on, why it stopped, and the budget it leaves.
      It goes on exactly after a full chunk that nothing refused, while budget is left. */
  lemma ChunkReports(world: World, table: Table, remaining: int, skipIds: seq<int>)
    ensures var r, asked := Chunk(world, table, remaining, skipIds), Asked(world, table, remaining, skipIds);
      var due := Due(Edited(table, world.before), world.startedAt, skipIds);
      var refused := Refused(world, asked, Quota) || Refused(world, asked, Auth);
      && r.inspected == |asked|
      && r.closed == |set e | e in Steady(world, table, asked) && Clears(world, e.id, e.row)|
      && r.tagged == |set e | e in Steady(world, table, asked) && !Clears(world, e.id, e.row)|
      && r.errors == |r.failedIds|
      && r.outcome == (
           if !world.configured then NotConfigured
           else if remaining > 0 && due != {} && !world.tokenOk then HaltedAuth
           else if Refused(world, asked, Quota) then HaltedQuota
           else if Refused(world, asked, Auth) then HaltedAuth
           else Ran)
      && r.next == (
           if world.configured && world.tokenOk && remaining > 100 && |due| >= 100 && !refused
           then Some(remaining - 100) else None)
  {
    hide Selected, Due, Halt, Closing, Tagging, Filter, Ids, Refused, Edited, Steady, Clears;
    var asked := Asked(world, table, remaining, skipIds);
    AskedCount(world, table, remaining, skipIds);
    AskedDistinct(world, table, remaining, skipIds);
    CountsAreSteady(world, table, asked);
    HaltIs(world, asked);
    NothingRefused(world);
    if remaining > 0 { SelectedIsHead(world, table, remaining, skipIds); }
    ClosedIsClosing(world, table, remaining, skipIds);
    TaggedIsTagging(world, table, remaining, skipIds);
  }

  // ----- edits that landed before the chunk began

  // The world seen by a chunk that starts from an earlier table.
  function Landed(world: World, edits: Edits): World {
    world.(before := Merged(edits, world.before))
  }

  function EditsOf(world: World): Edits {
    Merged(Merged(world.before, world.during), world.late)
  }

  lemma AtCommitIs(world: World, table: Table)
    ensures AtCommit(world, table) == Edited(table, EditsOf(world))
  {
    hide Edited, Merged;
    EditsCompose(table, world.before, world.during);
    EditsCompose(table, Merged(world.before, world.during), world.late);
  }

  lemma NothingLanded(world: World)
    ensures Landed(world, map[]) == world
  {
    assert Merged(map[], world.before) == world.before;
  }

  lemma {:induction false} FilterSame(p: Entry -> bool, q: Entry -> bool, rows: seq<Entry>)
    requires forall e :: p(e) == q(e)
    ensures Filter(p, rows) == Filter(q, rows)
  {
    if rows != [] { FilterSame(p, q, rows[1..]); }
  }

  lemma LandedSelection(world: World, edits: Edits, table: Table, rows: seq<Entry>)
    ensures Closing(world, Edited(table, edits), rows) == Closing(Landed(world, edits), table, rows)
    ensures Tagging(world, Edited(table, edits), rows) == Tagging(Landed(world, edits), table, rows)
  {
    hide Edited, Merged, Filter, Unmoved;
    var landed := Landed(world, edits);
    EditsCompose(table, edits, world.before);
    var reread := Edited(Edited(Edited(table, edits), world.before), world.during);
    FilterSame(e => Decide(world, e) == Close && Unmoved(reread, e),
               e => Decide(landed, e) == Close && Unmoved(reread, e), rows);
    FilterSame((e: Entry) => Decide(world, e).Retag? && Unmoved(reread, e),
               (e: Entry) => Decide(landed, e).Retag? && Unmoved(reread, e), rows);
  }

  lemma LandedFailures(world: World, edits: Edits, rows: seq<Entry>)
    ensures Filter((e: Entry) => Decide(world, e).Leave?, rows)
         == Filter((e: Entry) => Decide(Landed(world, edits), e).Leave?, rows)
    ensures Halt(world, rows) == Halt(Landed(world, edits), rows)
  {
    hide Filter, Merged;
    var landed := Landed(world, edits);
    assert forall e :: Decide(world, e) == Decide(landed, e);
    FilterSame((e: Entry) => Decide(world, e).Leave?, (e: Entry) => Decide(landed, e).Leave?, rows);
  }

  lemma LandedCommit(world: World, edits: Edits, current: Table, closing: seq<Entry>, tagging: seq<Entry>)
    ensures Committed(world, current, closing, tagging) == Committed(Landed(world, edits), current, closing, tagging)
  {
    hide Merged, Unmoved;
    var landed := Landed(world, edits);
    assert forall id, row :: Stamped(world, id, row) == Stamped(landed, id, row);
  }

  /** Edits that landed before a chunk are as good as edits it found on reading. */
  lemma LandedEditsMove(world: World, edits: Edits, table: Table, remaining: int, skipIds: seq<int>)
    ensures Chunk(world, Edited(table, edits), remaining, skipIds)
         == Chunk(Landed(world, edits), table, remaining, skipIds)
    ensures ChunkTable(world, Edited(table, edits), remaining, skipIds)
         == ChunkTable(Landed(world, edits), table, remaining, skipIds)
  {
    hide Edited, Merged, Worklist, Halt, Ids, Filter, Closing, Tagging, Unmoved, Decide;
    var start, landed := Edited(table, edits), Landed(world, edits);
    EditsCompose(table, edits, world.before);
    var rows := Asked(world, start, remaining, skipIds);
    assert rows == Asked(landed, table, remaining, skipIds);
    LandedSelection(world, edits, table, rows);
    LandedFailures(world, edits, rows);
    LandedCommit(world, edits, AtCommit(world, start), Closing(world, start, rows), Tagging(world, start, rows));
  }
}
