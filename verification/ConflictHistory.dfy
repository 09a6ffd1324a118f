/** When a claim's agreement last became `conflict` (`conflictSince`): a replay of the
    append-only attestation history, against agreement at every integer time. */
module ConflictHistory {
  import opened Common
  import opened Agreement

  // The rows the replay looks at.
  predicate Replayed(a: Attestation) {
    a.source != "aeci" && a.createdAt.Instant?
  }

  predicate RowLive(a: Attestation, t: int) {
    Replayed(a) && a.createdAt.ms <= t
    && (a.retractedAt == None || a.retractedAt.value == Unreadable || a.retractedAt.value.ms > t)
  }

  // The live set at `t`, every row re-entered as live.
  function LiveAt(rows: seq<Attestation>, t: int): seq<Attestation> {
    if rows == [] then []
    else
      var last := rows[|rows| - 1];
      LiveAt(rows[..|rows| - 1], t) + if RowLive(last, t) then [last.(retractedAt := None)] else []
  }

  ghost function AgreedAt(rows: seq<Attestation>, t: int): State {
    Agreed(LiveAt(rows, t))
  }

  ghost predicate LiveVote(rows: seq<Attestation>, t: int, v: Voter, stance: bool) {
    exists i :: 0 <= i < |rows| && RowLive(rows[i], t) && rows[i].vendor == v && rows[i].asserted == stance
  }

  lemma {:induction false} LiveVotes(rows: seq<Attestation>, t: int, v: Voter, stance: bool)
    ensures Votes(LiveAt(rows, t), v, stance) <==> LiveVote(rows, t, v, stance)
  {
    if rows != [] {
      var front, last := rows[..|rows| - 1], rows[|rows| - 1];
      LiveVotes(front, t, v, stance);
      if RowLive(last, t) {
        VotesGrow(LiveAt(front, t), last.(retractedAt := None), v, stance);
      } else {
        assert LiveAt(front, t) + [] == LiveAt(front, t);
      }
      if LiveVote(front, t, v, stance) {
        var i :| 0 <= i < |front| && RowLive(front[i], t) && front[i].vendor == v && front[i].asserted == stance;
        assert RowLive(rows[i], t);
      }
    }
  }

  // Two histories with the same live votes at two times agree there.
  lemma SameLiveVotesAgree(a: seq<Attestation>, t: int, b: seq<Attestation>, u: int)
    requires forall v, stance :: LiveVote(a, t, v, stance) <==> LiveVote(b, u, v, stance)
    ensures AgreedAt(a, t) == AgreedAt(b, u)
  {
    forall v, stance ensures Votes(LiveAt(a, t), v, stance) <==> Votes(LiveAt(b, u), v, stance) {
      LiveVotes(a, t, v, stance);
      LiveVotes(b, u, v, stance);
    }
    SameVotesAgree(LiveAt(a, t), LiveAt(b, u));
  }

  // ----- instants

  function InstantsOf(a: Attestation): set<int> {
    if !Replayed(a) then {}
    else {a.createdAt.ms} + if a.retractedAt.Some? && a.retractedAt.value.Instant? then {a.retractedAt.value.ms} else {}
  }

  ghost function Instants(rows: seq<Attestation>): set<int> {
    set i, t | 0 <= i < |rows| && t in InstantsOf(rows[i]) :: t
  }

  ghost predicate Rising(s: seq<int>) {
    forall i, j :: 0 <= i < j < |s| ==> s[i] < s[j]
  }

  function InsertInt(s: seq<int>, n: int): (r: seq<int>)
    requires Rising(s) && n !in s
    ensures Rising(r) && forall t :: t in r <==> t in s || t == n
  {
    if s == [] then [n]
    else
      assert s == [s[0]] + s[1..];
      assert forall i :: 0 < i < |s| ==> s[0] < s[i];
      if n < s[0] then [n] + s
      else
        var rest := InsertInt(s[1..], n);
        assert forall i :: 0 <= i < |rest| ==> rest[i] in rest;
        [s[0]] + rest
  }

  /** A duplicate-free list of instants, sorted. */
  function SortedInts(s: seq<int>): (r: seq<int>)
    requires Distinct(s)
    ensures Rising(r) && forall t :: t in r <==> t in s
  {
    if s == [] then []
    else
      assert s == [s[0]] + s[1..];
      InsertInt(SortedInts(s[1..]), s[0])
  }

  /** Between two instants nothing changes. */
  lemma QuietInterval(rows: seq<Attestation>, from: int, to: int)
    requires from <= to && forall t :: t in Instants(rows) ==> !(from < t <= to)
    ensures AgreedAt(rows, from) == AgreedAt(rows, to)
  {
    forall i | 0 <= i < |rows| ensures RowLive(rows[i], from) <==> RowLive(rows[i], to) {
      assert forall t :: t in InstantsOf(rows[i]) ==> t in Instants(rows);
    }
    forall v, stance ensures LiveVote(rows, from, v, stance) <==> LiveVote(rows, to, v, stance) { }
    SameLiveVotesAgree(rows, from, rows, to);
  }

  /** Before the first instant nobody votes. */
  lemma BeforeHistory(rows: seq<Attestation>, t: int)
    requires forall u :: u in Instants(rows) ==> t < u
    ensures AgreedAt(rows, t) == Unverified
  {
    forall i | 0 <= i < |rows| ensures !RowLive(rows[i], t) {
      if Replayed(rows[i]) {
        assert rows[i].createdAt.ms in InstantsOf(rows[i]);
        assert rows[i].createdAt.ms in Instants(rows);
      }
    }
    forall v, stance ensures !Votes(LiveAt(rows, t), v, stance) {
      LiveVotes(rows, t, v, stance);
    }
  }

  // ----- conflictSince

  lemma InstantsGrow(rows: seq<Attestation>, a: Attestation)
    ensures Instants(rows + [a]) == Instants(rows) + InstantsOf(a)
  {
    var all := rows + [a];
    assert all[|rows|] == a;
    forall t | t in Instants(rows) ensures t in Instants(all) {
      var i :| 0 <= i < |rows| && t in InstantsOf(rows[i]);
      assert all[i] == rows[i];
    }
  }

  method VendorRows(rows: seq<Attestation>) returns (r: seq<Attestation>)
    ensures forall t :: LiveAt(r, t) == LiveAt(rows, t)
    ensures Instants(r) == Instants(rows)
    ensures forall i :: 0 <= i < |r| ==> Replayed(r[i])
  {
    r := [];
    for i := 0 to |rows|
      invariant forall t :: LiveAt(r, t) == LiveAt(rows[..i], t)
      invariant Instants(r) == Instants(rows[..i])
      invariant forall j :: 0 <= j < |r| ==> Replayed(r[j])
    {
      assert rows[..i + 1] == rows[..i] + [rows[i]];
      InstantsGrow(rows[..i], rows[i]);
      InstantsGrow(r, rows[i]);
      forall t ensures LiveAt(rows[..i + 1], t)
        == LiveAt(r, t) + if RowLive(rows[i], t) then [rows[i].(retractedAt := None)] else [] {
        assert rows[..i + 1][..i] == rows[..i];
      }
      if rows[i].source != "aeci" && rows[i].createdAt.Instant? {
        forall t ensures LiveAt(r + [rows[i]], t) == LiveAt(rows[..i + 1], t) {
          assert (r + [rows[i]])[..|r|] == r;
        }
        r := r + [rows[i]];
      }
    }
    assert rows[..|rows|] == rows;
  }

  // `instants.add(t)` on a JavaScript `Set`, which keeps insertion order.
  function Add(instants: seq<int>, t: int): (r: seq<int>)
    requires Distinct(instants)
    ensures Distinct(r) && forall u :: u in r <==> u in instants || u == t
  {
    if t in instants then instants else instants + [t]
  }

  method CollectInstants(rows: seq<Attestation>) returns (instants: seq<int>)
    requires forall i :: 0 <= i < |rows| ==> Replayed(rows[i])
    ensures Distinct(instants) && forall t :: t in instants <==> t in Instants(rows)
  {
    instants := [];
    for i := 0 to |rows|
      invariant Distinct(instants) && forall t :: t in instants <==> t in Instants(rows[..i])
    {
      assert rows[..i + 1] == rows[..i] + [rows[i]];
      InstantsGrow(rows[..i], rows[i]);
      instants := Add(instants, rows[i].createdAt.ms);
      if rows[i].retractedAt.Some? && rows[i].retractedAt.value.Instant? {
        instants := Add(instants, rows[i].retractedAt.value.ms);
      }
    }
    assert rows[..|rows|] == rows;
  }

  method LiveRows(rows: seq<Attestation>, t: int) returns (live: seq<Attestation>)
    ensures live == LiveAt(rows, t)
  {
    live := [];
    for i := 0 to |rows|
      invariant live == LiveAt(rows[..i], t)
    {
      assert rows[..i + 1][..i] == rows[..i];
      if RowLive(rows[i], t) {
        live := live + [rows[i].(retractedAt := None)];
      }
    }
    assert rows[..|rows|] == rows;
  }

  // Agreement is `conflict` at `s` and ever after.
  ghost predicate ConflictFrom(rows: seq<Attestation>, s: int) {
    forall t :: t >= s ==> AgreedAt(rows, t) == Conflict
  }

  // The replay after the instants `ordered[..k]`: the run it is in, up to the next instant.
  ghost predicate RunSoFar(rows: seq<Attestation>, ordered: seq<int>, k: nat, since: Option<int>)
    requires k <= |ordered|
  {
    match since
    case Some(s) =>
      && (exists j :: 0 <= j < k && ordered[j] == s)
      && AgreedAt(rows, s - 1) != Conflict
      && forall t :: s <= t && (k < |ordered| ==> t < ordered[k]) ==> AgreedAt(rows, t) == Conflict
    case None =>
      forall t :: (k > 0 ==> ordered[k - 1] <= t) && (k < |ordered| ==> t < ordered[k]) ==>
        AgreedAt(rows, t) != Conflict
  }

  lemma RunExtends(rows: seq<Attestation>, ordered: seq<int>, k: nat, since: Option<int>)
    requires k < |ordered| && (forall t :: t in Instants(rows) <==> t in ordered)
    requires Rising(ordered) && RunSoFar(rows, ordered, k, since)
    ensures AgreedAt(rows, ordered[k]) == Conflict ==>
      RunSoFar(rows, ordered, k + 1, if since.None? then Some(ordered[k]) else since)
    ensures AgreedAt(rows, ordered[k]) != Conflict ==> RunSoFar(rows, ordered, k + 1, None)
  {
    var here := ordered[k];
    forall t | here <= t && (k + 1 < |ordered| ==> t < ordered[k + 1])
      ensures AgreedAt(rows, t) == AgreedAt(rows, here)
    {
      QuietInterval(rows, here, t);
    }
    if since.None? {
      // Just before this instant the run was not on.
      assert k > 0 ==> ordered[k - 1] <= here - 1;
      assert AgreedAt(rows, here - 1) != Conflict;
    }
  }

  lemma RunStarts(rows: seq<Attestation>, ordered: seq<int>)
    requires Rising(ordered) && forall t :: t in Instants(rows) <==> t in ordered
    ensures RunSoFar(rows, ordered, 0, None)
  {
    forall t | |ordered| > 0 ==> t < ordered[0] ensures AgreedAt(rows, t) != Conflict {
      BeforeHistory(rows, t);
    }
  }

  lemma RunEnds(rows: seq<Attestation>, ordered: seq<int>, since: Option<int>)
    requires RunSoFar(rows, ordered, |ordered|, since)
    ensures since.Some? ==> ConflictFrom(rows, since.value) && forall s :: ConflictFrom(rows, s) ==> since.value <= s
    ensures since.None? ==> forall s :: !ConflictFrom(rows, s)
  {
    if since.Some? {
      assert AgreedAt(rows, since.value - 1) != Conflict;
    } else {
      forall s ensures !ConflictFrom(rows, s) {
        var t := if |ordered| > 0 && s < ordered[|ordered| - 1] then ordered[|ordered| - 1] else s;
        assert AgreedAt(rows, t) != Conflict;
      }
    }
  }

  /** `conflictSince`: the least time from which agreement is `conflict` for good, over all
      integer times; `None` exactly when there is no such time. */
  method ConflictSince(rows: seq<Attestation>) returns (since: Option<int>)
    ensures since.Some? ==> ConflictFrom(rows, since.value) && forall s :: ConflictFrom(rows, s) ==> since.value <= s
    ensures since.None? ==> forall s :: !ConflictFrom(rows, s)
  {
    hide RunSoFar, ConflictFrom, LiveAt, Instants, Agreed, Replayed;
    var vendorRows := VendorRows(rows);
    var instants := CollectInstants(vendorRows);
    var ordered := SortedInts(instants);
    since := None;
    RunStarts(rows, ordered);
    for k := 0 to |ordered|
      invariant RunSoFar(rows, ordered, k, since)
    {
      RunExtends(rows, ordered, k, since);
      var live := LiveRows(vendorRows, ordered[k]);
      var state := ComputeAgreement(live);
      if state == Conflict {
        if since.None? { since := Some(ordered[k]); }
      } else {
        since := None;
      }
    }
    RunEnds(rows, ordered, since);
  }

  // ----- against today's agreement

  // All instants of a row that the two computations read can be read.
  ghost predicate Readable(a: Attestation) {
    a.createdAt.Instant? && (a.retractedAt.Some? ==> a.retractedAt.value.Instant?)
  }

  // The row counts the same in the replay's final state as it does today.
  predicate Faithful(a: Attestation) {
    || a.source == "aeci"
    || (a.createdAt.Instant? && a.retractedAt != Some(Unreadable))
    || (a.createdAt.Unreadable? && a.retractedAt.Some?)
  }

  // Some time after everything readable happened.
  lemma {:induction false} AfterHistory(rows: seq<Attestation>) returns (end: int)
    ensures forall i, t :: 0 <= i < |rows| && t in InstantsOf(rows[i]) ==> t <= end
  {
    end := 0;
    for i := 0 to |rows|
      invariant forall j, t :: 0 <= j < i && t in InstantsOf(rows[j]) ==> t <= end
    {
      if rows[i].createdAt.Instant? && rows[i].createdAt.ms > end { end := rows[i].createdAt.ms; }
      if rows[i].retractedAt.Some? && rows[i].retractedAt.value.Instant? && rows[i].retractedAt.value.ms > end {
        end := rows[i].retractedAt.value.ms;
      }
    }
  }

  // After its instants a faithful row is live exactly if it votes today.
  lemma FaithfulAtEnd(a: Attestation, end: int)
    requires Faithful(a) && forall t :: t in InstantsOf(a) ==> t <= end
    ensures RowLive(a, end) <==> IsVote(a)
  {
    if Replayed(a) {
      assert a.createdAt.ms in InstantsOf(a);
      if a.retractedAt.Some? && a.retractedAt.value.Instant? { assert a.retractedAt.value.ms in InstantsOf(a); }
    }
  }

  /** When every row is faithful (in particular when every instant is readable), the replay
      ends in today's agreement: a start of the conflict exists exactly when the agreement
      computed from the same rows is `conflict`. */
  lemma ReplayEndsToday(rows: seq<Attestation>)
    requires forall i :: 0 <= i < |rows| ==> Faithful(rows[i])
    ensures (exists s :: ConflictFrom(rows, s)) <==> Agreed(rows) == Conflict
  {
    var end := AfterHistory(rows);
    forall t | t >= end ensures AgreedAt(rows, t) == Agreed(rows) {
      forall v, stance ensures Votes(LiveAt(rows, t), v, stance) <==> Votes(rows, v, stance) {
        LiveVotes(rows, t, v, stance);
        forall i | 0 <= i < |rows| ensures RowLive(rows[i], t) <==> IsVote(rows[i]) {
          FaithfulAtEnd(rows[i], t);
        }
      }
      SameVotesAgree(LiveAt(rows, t), rows);
    }
    if s :| ConflictFrom(rows, s) {
      var t := if s < end then end else s;
      assert AgreedAt(rows, t) == Conflict;
    }
    if Agreed(rows) == Conflict {
      assert ConflictFrom(rows, end);
    }
  }

  // The opposite vote of another vendor, cast at time 0 and still standing.
  function Opponent(a: Attestation): Attestation {
    Attestation("vendor_b", !a.asserted, if a.vendor == None then Some("other") else None, Instant(0), None)
  }

  lemma OpponentMakesConflict(a: Attestation, rows: seq<Attestation>)
    requires Votes(rows, a.vendor, a.asserted) && !Votes(rows, a.vendor, !a.asserted)
    requires Votes(rows, Opponent(a).vendor, !a.asserted) && !Votes(rows, Opponent(a).vendor, a.asserted)
    ensures Agreed(rows) == Conflict
  {
    var yes := if a.asserted then a.vendor else Opponent(a).vendor;
    var no := if a.asserted then Opponent(a).vendor else a.vendor;
    assert Affirms(rows, yes) && Denies(rows, no);
  }

  lemma NoConflictAlone(rows: seq<Attestation>, w: Voter)
    requires forall v, stance :: Votes(rows, v, stance) ==> v == w
    ensures Agreed(rows) != Conflict
  {
  }

  /** And the condition is exact, row by row: beside an unfaithful row there is a fully
      readable one with which the two computations part. */
  lemma UnfaithfulRowsPart(a: Attestation)
    requires !Faithful(a)
    ensures Readable(Opponent(a))
    ensures !((exists s :: ConflictFrom([a, Opponent(a)], s)) <==> Agreed([a, Opponent(a)]) == Conflict)
  {
    var b, rows := Opponent(a), [a, Opponent(a)];
    if a.createdAt.Unreadable? {
      // A live vote the replay drops: conflict today, never in the replay.
      assert IsVote(rows[0]) && IsVote(rows[1]);
      OpponentMakesConflict(a, rows);
      forall s ensures !ConflictFrom(rows, s) {
        forall v, stance | Votes(LiveAt(rows, s), v, stance) ensures v == b.vendor { LiveVotes(rows, s, v, stance); }
        NoConflictAlone(LiveAt(rows, s), b.vendor);
        assert AgreedAt(rows, s) != Conflict;
      }
    } else {
      // A retracted vote the replay keeps alive: conflict in the replay, not today.
      NoConflictAlone(rows, b.vendor);
      var start := if a.createdAt.ms > 0 then a.createdAt.ms else 0;
      forall t | t >= start ensures AgreedAt(rows, t) == Conflict {
        assert RowLive(rows[0], t) && RowLive(rows[1], t);
        LiveVotes(rows, t, a.vendor, a.asserted);
        LiveVotes(rows, t, a.vendor, !a.asserted);
        LiveVotes(rows, t, b.vendor, a.asserted);
        LiveVotes(rows, t, b.vendor, !a.asserted);
        OpponentMakesConflict(a, LiveAt(rows, t));
      }
      assert ConflictFrom(rows, start);
    }
  }

  // ----- a same-stance re-write

  // `PUT`: retract row `i` and insert its replacement under one `now`.
  function Rewrite(rows: seq<Attestation>, i: nat, now: int, replacement: Attestation): seq<Attestation>
    requires i < |rows|
  {
    rows[i := rows[i].(retractedAt := Some(Instant(now)))]
    + [replacement.(createdAt := Instant(now), retractedAt := None)]
  }

  /** A re-write hands the vote over at `now`: the old row counts until then as it did, the new one
      from then on, and the others as before. */
  lemma RewriteHandsOver(rows: seq<Attestation>, i: nat, now: int, replacement: Attestation, t: int)
    requires i < |rows| && Replayed(rows[i]) && rows[i].retractedAt == None && replacement.source != "aeci"
    ensures var after := Rewrite(rows, i, now, replacement);
      && |after| == |rows| + 1
      && (RowLive(after[i], t) <==> RowLive(rows[i], t) && t < now)
      && (RowLive(after[|rows|], t) <==> t >= now)
      && after[|rows|].vendor == replacement.vendor && after[|rows|].asserted == replacement.asserted
      && forall k :: 0 <= k < |rows| && k != i ==> after[k] == rows[k]
  {
  }

  /** Retract-then-insert of the same vendor and stance at one `now` changes agreement at no
      time at all, so it cannot move the answer. */
  lemma RewriteLeavesNoGap(rows: seq<Attestation>, i: nat, now: int, replacement: Attestation, t: int)
    requires i < |rows| && Replayed(rows[i]) && rows[i].retractedAt == None && rows[i].createdAt.ms <= now
    requires replacement.source != "aeci" && replacement.vendor == rows[i].vendor
    requires replacement.asserted == rows[i].asserted
    ensures AgreedAt(Rewrite(rows, i, now, replacement), t) == AgreedAt(rows, t)
  {
    var after := Rewrite(rows, i, now, replacement);
    assert |after| == |rows| + 1;
    forall v, stance ensures LiveVote(after, t, v, stance) <==> LiveVote(rows, t, v, stance) {
      if LiveVote(rows, t, v, stance) {
        var k :| 0 <= k < |rows| && RowLive(rows[k], t) && rows[k].vendor == v && rows[k].asserted == stance;
        if k == i && t >= now { assert RowLive(after[|rows|], t); } else { assert RowLive(after[k], t); }
      }
      if LiveVote(after, t, v, stance) {
        var k :| 0 <= k < |after| && RowLive(after[k], t) && after[k].vendor == v && after[k].asserted == stance;
        if k == |rows| { assert RowLive(rows[i], t); } else { assert RowLive(rows[k], t); }
      }
    }
    SameLiveVotesAgree(after, t, rows, t);
  }

  lemma RewriteKeepsAnswer(rows: seq<Attestation>, i: nat, now: int, replacement: Attestation)
    requires i < |rows| && Replayed(rows[i]) && rows[i].retractedAt == None && rows[i].createdAt.ms <= now
    requires replacement.source != "aeci" && replacement.vendor == rows[i].vendor
    requires replacement.asserted == rows[i].asserted
    ensures forall s :: ConflictFrom(Rewrite(rows, i, now, replacement), s) <==> ConflictFrom(rows, s)
  {
    forall t ensures AgreedAt(Rewrite(rows, i, now, replacement), t) == AgreedAt(rows, t) {
      RewriteLeavesNoGap(rows, i, now, replacement, t);
    }
  }
}
