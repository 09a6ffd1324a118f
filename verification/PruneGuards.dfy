/** The three guards, the acknowledgement gate, and what a prune with no tripped guard
    conserves. */
module PruneGuards {
  import opened Common
  import opened Prune

  datatype GuardName = ClaimsUniqueToOrphans | OrphansWithoutATwin | OrphansRicherThanTwin

  const PRUNE_GUARD_NAMES := [ClaimsUniqueToOrphans, OrphansWithoutATwin, OrphansRicherThanTwin]
  const MIN_ACK_REASON_LENGTH := 20

  datatype Guards = Guards(unique: nat, alone: nat, richer: nat)

  function Text(s: Option<string>): string {
    if s.Some? then s.value else ""
  }

  // (source, target, IFNULL(mechanism_name, ''))
  datatype EdgeKey = EdgeKey(source: Id, target: Id, mechanism: string)

  function KeyOf(row: Integration): EdgeKey {
    EdgeKey(row.source, row.target, Text(row.mechanism))
  }

  // A surviving live copy of `o`.
  predicate Twin(db: Db, ids: set<Id>, o: Id, s: Id)
    requires o in db.integrations
  {
    s in db.integrations && s !in ids && db.integrations[s].retiredAt == None
    && KeyOf(db.integrations[s]) == KeyOf(db.integrations[o])
  }

  predicate SameClaimOnTwin(db: Db, ids: set<Id>, c: Id, k: Id)
    requires c in db.claims && k in db.claims
  {
    var oc, sc := db.claims[c], db.claims[k];
    && oc.anchor.OnIntegration? && oc.anchor.id in db.integrations
    && sc.anchor.OnIntegration? && Twin(db, ids, oc.anchor.id, sc.anchor.id)
    && sc.dataObject == oc.dataObject && sc.direction == oc.direction
  }

  predicate ClaimCopied(db: Db, ids: set<Id>, c: Id)
    requires c in db.claims
  {
    exists k | k in db.claims :: SameClaimOnTwin(db, ids, c, k)
  }

  function UniqueClaims(db: Db, ids: set<Id>): set<Id> {
    set c | c in db.claims && db.claims[c].anchor.OnIntegration? && db.claims[c].anchor.id in ids
      && db.claims[c].anchor.id in db.integrations && !ClaimCopied(db, ids, c)
  }

  function Lonely(db: Db, ids: set<Id>): set<Id> {
    set o | o in ids && o in db.integrations && !(exists s | s in db.integrations :: Twin(db, ids, o, s))
  }

  predicate Richer(o: Integration, s: Integration) {
    |Text(o.description)| > |Text(s.description)| || |Text(o.notes)| > |Text(s.notes)|
  }

  function RicherPairs(db: Db, ids: set<Id>): set<(Id, Id)> {
    set o, s | o in ids && o in db.integrations && s in db.integrations && Twin(db, ids, o, s)
      && Richer(db.integrations[o], db.integrations[s]) :: (o, s)
  }

  function PlanGuards(db: Db, ids: set<Id>): Guards {
    Guards(|UniqueClaims(db, ids)|, |Lonely(db, ids)|, |RicherPairs(db, ids)|)
  }

  function GuardCount(g: Guards, name: GuardName): nat {
    match name
    case ClaimsUniqueToOrphans => g.unique
    case OrphansWithoutATwin => g.alone
    case OrphansRicherThanTwin => g.richer
  }

  function Tripped(g: Guards, names: seq<GuardName>): (r: seq<GuardName>)
    ensures forall n :: n in r <==> n in names && GuardCount(g, n) > 0
  {
    if names == [] then []
    else
      assert names == [names[0]] + names[1..];
      (if GuardCount(g, names[0]) > 0 then [names[0]] else []) + Tripped(g, names[1..])
  }

  function Blocked(g: Guards): seq<GuardName> {
    Tripped(g, PRUNE_GUARD_NAMES)
  }

  // ----- the gate

  datatype Decision = VendorHeld | GuardTripped | GuardAckStale | AckReasonRequired
    | NothingToPrune | NotConfirmed | Proceed

  // `names.filter((g) => !others.includes(g))`
  function Without(names: seq<GuardName>, others: seq<GuardName>): (r: seq<GuardName>)
    ensures forall n :: n in r <==> n in names && n !in others
  {
    if names == [] then []
    else
      assert names == [names[0]] + names[1..];
      (if names[0] !in others then [names[0]] else []) + Without(names[1..], others)
  }

  function Gate(held: seq<Id>, blocked: seq<GuardName>, acknowledged: seq<GuardName>, reasonLength: nat, found: nat,
                confirmed: bool): Decision {
    if |held| > 0 then VendorHeld
    else if |Without(blocked, acknowledged)| > 0 then GuardTripped
    else if |Without(acknowledged, blocked)| > 0 then GuardAckStale
    else if |acknowledged| > 0 && reasonLength < MIN_ACK_REASON_LENGTH then AckReasonRequired
    else if found == 0 then NothingToPrune
    else if !confirmed then NotConfirmed
    else Proceed
  }

  lemma EmptyMeansNone<T>(s: seq<T>)
    ensures |s| == 0 <==> forall x :: x !in s
  {
    if |s| > 0 { assert s[0] in s; }
  }

  /** A prune goes ahead exactly when nothing is vendor-held and the acknowledged guards are
      exactly the tripped ones, with a reason if there are any. */
  lemma GateIsExact(held: seq<Id>, blocked: seq<GuardName>, acknowledged: seq<GuardName>, reasonLength: nat,
                    found: nat, confirmed: bool)
    ensures Gate(held, blocked, acknowledged, reasonLength, found, confirmed) == Proceed <==>
      && held == [] && found > 0 && confirmed
      && Elems(acknowledged) == Elems(blocked)
      && (acknowledged == [] || reasonLength >= MIN_ACK_REASON_LENGTH)
  {
    EmptyMeansNone(Without(blocked, acknowledged));
    EmptyMeansNone(Without(acknowledged, blocked));
    if Elems(acknowledged) == Elems(blocked) {
      forall n ensures n in blocked <==> n in acknowledged {
        assert n in Elems(blocked) <==> n in Elems(acknowledged);
      }
    }
  }

  lemma BlockedMeansTripped(g: Guards)
    ensures Blocked(g) == [] <==> g == Guards(0, 0, 0)
  {
    var names := PRUNE_GUARD_NAMES;
    assert names[0] == ClaimsUniqueToOrphans && names[1] == OrphansWithoutATwin && names[2] == OrphansRicherThanTwin;
    if Blocked(g) == [] {
      forall n | n in names ensures GuardCount(g, n) == 0 { assert n !in Blocked(g); }
      assert GuardCount(g, names[0]) == 0 && GuardCount(g, names[1]) == 0 && GuardCount(g, names[2]) == 0;
    } else {
      assert Blocked(g)[0] in Blocked(g);
    }
  }

  /** Without an acknowledgement every guard reads zero. */
  lemma ProceedingUnacknowledged(held: seq<Id>, g: Guards, reasonLength: nat, found: nat, confirmed: bool)
    requires Gate(held, Blocked(g), [], reasonLength, found, confirmed) == Proceed
    ensures g == Guards(0, 0, 0)
  {
    GateIsExact(held, Blocked(g), [], reasonLength, found, confirmed);
    BlockedMeansTripped(g);
    EmptyMeansNone(Blocked(g));
    assert forall n :: n in Blocked(g) <==> n in Elems(Blocked(g));
  }

  // ----- what trips a guard

  // The same text, an absent one counting as empty.
  ghost predicate SameText(a: Option<string>, b: Option<string>) {
    a == b || (a in {None, Some("")} && b in {None, Some("")})
  }

  // The first text is the longer one.
  ghost predicate Longer(a: Option<string>, b: Option<string>) {
    match (a, b)
    case (None, _) => false
    case (Some(x), None) => x != ""
    case (Some(x), Some(y)) => |x| > |y|
  }

  // A live row that is not requested, between the same products by the same mechanism.
  ghost predicate LiveCopy(db: Db, ids: set<Id>, o: Id, s: Id)
    requires o in db.integrations
  {
    && s in db.integrations && s !in ids && db.integrations[s].retiredAt == None
    && db.integrations[s].source == db.integrations[o].source
    && db.integrations[s].target == db.integrations[o].target
    && SameText(db.integrations[s].mechanism, db.integrations[o].mechanism)
  }

  // The same statement about the same data object, on a live copy of the claim's row.
  ghost predicate Carries(db: Db, ids: set<Id>, o: Id, c: Id, k: Id)
    requires o in db.integrations && c in db.claims
  {
    && k in db.claims && db.claims[k].dataObject == db.claims[c].dataObject
    && db.claims[k].direction == db.claims[c].direction
    && exists s :: LiveCopy(db, ids, o, s) && db.claims[k].anchor == OnIntegration(s)
  }

  ghost predicate Requested(db: Db, ids: set<Id>, o: Id) { o in ids && o in db.integrations }

  ghost predicate Unparalleled(db: Db, ids: set<Id>, o: Id) {
    Requested(db, ids, o) && forall s :: !LiveCopy(db, ids, o, s)
  }

  ghost predicate Outdone(db: Db, ids: set<Id>, o: Id, s: Id) {
    && Requested(db, ids, o) && LiveCopy(db, ids, o, s)
    && (Longer(db.integrations[o].description, db.integrations[s].description)
        || Longer(db.integrations[o].notes, db.integrations[s].notes))
  }

  ghost predicate OnlyHere(db: Db, ids: set<Id>, o: Id, c: Id) {
    && Requested(db, ids, o) && c in db.claims && db.claims[c].anchor == OnIntegration(o)
    && forall k :: !Carries(db, ids, o, c, k)
  }

  lemma TwinIsLiveCopy(db: Db, ids: set<Id>, o: Id, s: Id)
    requires o in db.integrations
    ensures Twin(db, ids, o, s) <==> LiveCopy(db, ids, o, s)
  {
  }

  lemma RicherIsLonger(o: Integration, s: Integration)
    ensures Richer(o, s) <==> Longer(o.description, s.description) || Longer(o.notes, s.notes)
  {
  }

  lemma CopiedIsCarried(db: Db, ids: set<Id>, o: Id, c: Id)
    requires o in db.integrations && c in db.claims && db.claims[c].anchor == OnIntegration(o)
    ensures ClaimCopied(db, ids, c) <==> exists k :: Carries(db, ids, o, c, k)
  {
    hide Twin, LiveCopy;
    if ClaimCopied(db, ids, c) {
      var k :| k in db.claims && SameClaimOnTwin(db, ids, c, k);
      TwinIsLiveCopy(db, ids, o, db.claims[k].anchor.id);
      assert Carries(db, ids, o, c, k);
    }
    if k :| Carries(db, ids, o, c, k) {
      var s :| LiveCopy(db, ids, o, s) && db.claims[k].anchor == OnIntegration(s);
      TwinIsLiveCopy(db, ids, o, s);
      assert SameClaimOnTwin(db, ids, c, k);
    }
  }

  lemma SomeMeansPositive<T>(s: set<T>)
    ensures |s| > 0 <==> exists x :: x in s
  {
    if |s| > 0 { var x :| x in s; }
  }

  lemma UniqueTells(db: Db, ids: set<Id>)
    ensures |UniqueClaims(db, ids)| > 0 <==> exists o, c :: OnlyHere(db, ids, o, c)
  {
    hide ClaimCopied, Carries;
    SomeMeansPositive(UniqueClaims(db, ids));
    forall o, c | OnlyHere(db, ids, o, c) ensures c in UniqueClaims(db, ids) {
      CopiedIsCarried(db, ids, o, c);
    }
    forall c | c in UniqueClaims(db, ids) ensures OnlyHere(db, ids, db.claims[c].anchor.id, c) {
      CopiedIsCarried(db, ids, db.claims[c].anchor.id, c);
    }
  }

  lemma LiveCopyIsRow(db: Db, ids: set<Id>, o: Id, s: Id)
    requires o in db.integrations && LiveCopy(db, ids, o, s)
    ensures s in db.integrations
  {
  }

  lemma AloneTells(db: Db, ids: set<Id>)
    ensures |Lonely(db, ids)| > 0 <==> exists o :: Unparalleled(db, ids, o)
  {
    hide Twin, LiveCopy;
    SomeMeansPositive(Lonely(db, ids));
    forall o, s | o in db.integrations ensures Twin(db, ids, o, s) <==> LiveCopy(db, ids, o, s) {
      TwinIsLiveCopy(db, ids, o, s);
    }
    forall o, s | o in db.integrations && LiveCopy(db, ids, o, s) ensures s in db.integrations {
      LiveCopyIsRow(db, ids, o, s);
    }
    forall o ensures o in Lonely(db, ids) <==> Unparalleled(db, ids, o) {
    }
  }

  lemma RicherTells(db: Db, ids: set<Id>)
    ensures |RicherPairs(db, ids)| > 0 <==> exists o, s :: Outdone(db, ids, o, s)
  {
    hide Twin, LiveCopy, Richer, Longer;
    SomeMeansPositive(RicherPairs(db, ids));
    forall o, s ensures (o, s) in RicherPairs(db, ids) <==> Outdone(db, ids, o, s) {
      if o in db.integrations {
        TwinIsLiveCopy(db, ids, o, s);
        if LiveCopy(db, ids, o, s) { LiveCopyIsRow(db, ids, o, s); }
        if s in db.integrations { RicherIsLonger(db.integrations[o], db.integrations[s]); }
      }
    }
    if pair :| pair in RicherPairs(db, ids) {
      assert Outdone(db, ids, pair.0, pair.1);
    }
  }

  /** Each guard is tripped exactly by a row that shows it: a requested row without a live copy;
      a claim on a requested row that no live copy carries; a requested row with a live copy
      whose description or notes are shorter. */
  lemma GuardsTell(db: Db, ids: set<Id>)
    ensures var g := PlanGuards(db, ids);
      && (g.unique > 0 <==> exists o, c :: OnlyHere(db, ids, o, c))
      && (g.alone > 0 <==> exists o :: Unparalleled(db, ids, o))
      && (g.richer > 0 <==> exists o, s :: Outdone(db, ids, o, s))
  {
    UniqueTells(db, ids);
    AloneTells(db, ids);
    RicherTells(db, ids);
  }

  /** A request whose rows all have a live copy, every copy at least as rich, and every claim
      carried by a copy, trips no guard. */
  lemma RedundantIsUnguarded(db: Db, ids: set<Id>)
    requires forall o :: Requested(db, ids, o) ==> exists s :: LiveCopy(db, ids, o, s)
    requires forall o, s :: !Outdone(db, ids, o, s)
    requires forall o, c :: !OnlyHere(db, ids, o, c)
    ensures PlanGuards(db, ids) == Guards(0, 0, 0)
  {
    hide PlanGuards, LiveCopy, Outdone, OnlyHere;
    GuardsTell(db, ids);
  }

  // A row shows that the guard has to stop the request.
  ghost predicate Trips(db: Db, ids: set<Id>, g: GuardName) {
    match g
    case ClaimsUniqueToOrphans => exists o, c :: OnlyHere(db, ids, o, c)
    case OrphansWithoutATwin => exists o :: Unparalleled(db, ids, o)
    case OrphansRicherThanTwin => exists o, s :: Outdone(db, ids, o, s)
  }

  // The order in which guards are listed.
  function Rank(g: GuardName): int {
    match g
    case ClaimsUniqueToOrphans => 0
    case OrphansWithoutATwin => 1
    case OrphansRicherThanTwin => 2
  }

  ghost predicate InGuardOrder(names: seq<GuardName>) {
    forall i, j :: 0 <= i < j < |names| ==> Rank(names[i]) < Rank(names[j])
  }

  lemma {:induction false} TrippedInOrder(g: Guards, names: seq<GuardName>)
    requires InGuardOrder(names)
    ensures InGuardOrder(Tripped(g, names))
    decreases names
  {
    if names != [] {
      assert names == [names[0]] + names[1..];
      TrippedInOrder(g, names[1..]);
      var rest := Tripped(g, names[1..]);
      forall i | 0 <= i < |rest| ensures Rank(names[0]) < Rank(rest[i]) {
        assert rest[i] in names[1..];
      }
    }
  }

  /** The reported guards are exactly those a row trips, in their fixed order. */
  lemma BlockedTell(db: Db, ids: set<Id>)
    ensures var blocked := Blocked(PlanGuards(db, ids));
      && InGuardOrder(blocked) && forall g :: g in blocked <==> Trips(db, ids, g)
  {
    hide PlanGuards, OnlyHere, Unparalleled, Outdone;
    var names, counts := PRUNE_GUARD_NAMES, PlanGuards(db, ids);
    GuardsTell(db, ids);
    assert names[0] == ClaimsUniqueToOrphans && names[1] == OrphansWithoutATwin && names[2] == OrphansRicherThanTwin;
    TrippedInOrder(counts, names);
    forall g ensures g in names {
      match g
      case ClaimsUniqueToOrphans => assert names[0] == g;
      case OrphansWithoutATwin => assert names[1] == g;
      case OrphansRicherThanTwin => assert names[2] == g;
    }
  }

  // ----- what is conserved

  ghost predicate LiveKey(db: Db, k: EdgeKey) {
    exists i :: i in db.integrations && db.integrations[i].retiredAt == None && KeyOf(db.integrations[i]) == k
  }

  ghost predicate ClaimOnLiveKey(db: Db, c: Id, k: EdgeKey)
    requires c in db.claims
  {
    var anchor := db.claims[c].anchor;
    && anchor.OnIntegration? && anchor.id in db.integrations
    && db.integrations[anchor.id].retiredAt == None && KeyOf(db.integrations[anchor.id]) == k
  }

  ghost predicate LiveClaim(db: Db, k: EdgeKey, dataObject: Id, direction: string) {
    exists c :: c in db.claims && ClaimOnLiveKey(db, c, k) &&
      db.claims[c].dataObject == dataObject && db.claims[c].direction == direction
  }

  // Some live row of the key has a description, or notes, of at least `n` characters.
  ghost predicate DescriptionAtLeast(db: Db, k: EdgeKey, n: nat) {
    exists i :: i in db.integrations && db.integrations[i].retiredAt == None && KeyOf(db.integrations[i]) == k
      && |Text(db.integrations[i].description)| >= n
  }

  ghost predicate NotesAtLeast(db: Db, k: EdgeKey, n: nat) {
    exists i :: i in db.integrations && db.integrations[i].retiredAt == None && KeyOf(db.integrations[i]) == k
      && |Text(db.integrations[i].notes)| >= n
  }

  /** The same live content: keys, claims by key, and each key's longest texts. */
  ghost predicate SameContent(a: Db, b: Db) {
    && (forall k :: LiveKey(a, k) <==> LiveKey(b, k))
    && (forall k, o, d :: LiveClaim(a, k, o, d) <==> LiveClaim(b, k, o, d))
    && (forall k, n :: DescriptionAtLeast(a, k, n) <==> DescriptionAtLeast(b, k, n))
    && (forall k, n :: NotesAtLeast(a, k, n) <==> NotesAtLeast(b, k, n))
  }

  // Owners may claim requested rows between the plan and the batch; nothing else moves.
  ghost predicate Raced(plan: Db, now: Db) {
    && now == plan.(integrations := now.integrations)
    && now.integrations.Keys == plan.integrations.Keys
    && forall i :: i in plan.integrations ==>
         now.integrations[i] == plan.integrations[i]
         || (plan.integrations[i].claimedAt == None
             && now.integrations[i] == plan.integrations[i].(claimedAt := now.integrations[i].claimedAt))
  }

  lemma NoneLeft<T>(s: set<T>)
    requires |s| == 0
    ensures s == {}
  {
  }

  lemma TwinOf(db: Db, ids: set<Id>, o: Id) returns (s: Id)
    requires PlanGuards(db, ids) == Guards(0, 0, 0) && o in ids && o in db.integrations
    ensures s in db.integrations && Twin(db, ids, o, s) && !Richer(db.integrations[o], db.integrations[s])
  {
    NoneLeft(Lonely(db, ids));
    NoneLeft(RicherPairs(db, ids));
    assert o !in Lonely(db, ids);
    s :| s in db.integrations && Twin(db, ids, o, s);
    assert (o, s) !in RicherPairs(db, ids);
  }

  lemma CopyOf(db: Db, ids: set<Id>, c: Id) returns (k: Id)
    requires PlanGuards(db, ids) == Guards(0, 0, 0)
    requires c in db.claims && db.claims[c].anchor.OnIntegration? && db.claims[c].anchor.id in ids
    requires db.claims[c].anchor.id in db.integrations
    ensures k in db.claims && SameClaimOnTwin(db, ids, c, k)
  {
    NoneLeft(UniqueClaims(db, ids));
    assert c !in UniqueClaims(db, ids);
    k :| k in db.claims && SameClaimOnTwin(db, ids, c, k);
  }

  // A row, or for a deleted row its twin, is there afterwards with texts at least as long.
  lemma RowOrTwinStays(plan: Db, db: Db, ids: set<Id>, now: string, i: Id) returns (s: Id)
    requires Raced(plan, db) && PlanGuards(plan, ids) == Guards(0, 0, 0)
    requires i in db.integrations && db.integrations[i].retiredAt == None
    ensures var after := PruneBatch(db, ids, now);
      && s in after.integrations && after.integrations[s].retiredAt == None
      && KeyOf(after.integrations[s]) == KeyOf(db.integrations[i])
      && |Text(after.integrations[s].description)| >= |Text(db.integrations[i].description)|
      && |Text(after.integrations[s].notes)| >= |Text(db.integrations[i].notes)|
  {
    hide PlanGuards, PruneBatch;
    ExactlyTheDoomedGo(db, ids, now);
    s := i;
    if i in Deletable(db, ids) {
      s := TwinOf(plan, ids, i);
      assert s !in Deletable(db, ids);
    }
  }

  lemma ClaimOrCopyStays(plan: Db, db: Db, ids: set<Id>, now: string, c: Id, k: EdgeKey) returns (d: Id)
    requires Raced(plan, db) && PlanGuards(plan, ids) == Guards(0, 0, 0)
    requires c in db.claims && ClaimOnLiveKey(db, c, k)
    ensures var after := PruneBatch(db, ids, now);
      && d in after.claims && ClaimOnLiveKey(after, d, k)
      && after.claims[d].dataObject == db.claims[c].dataObject && after.claims[d].direction == db.claims[c].direction
  {
    hide PlanGuards, PruneBatch;
    ExactlyTheDoomedGo(db, ids, now);
    d := c;
    if c in Doomed(db, ids) {
      d := CopyOf(plan, ids, c);
      assert d !in Doomed(db, ids);
    }
  }

  lemma NothingAppears(db: Db, after: Db, ids: set<Id>)
    requires after.integrations == db.integrations - Deletable(db, ids) && after.claims == db.claims - Doomed(db, ids)
    ensures forall k :: LiveKey(after, k) ==> LiveKey(db, k)
    ensures forall k, o, d :: LiveClaim(after, k, o, d) ==> LiveClaim(db, k, o, d)
    ensures forall k, n :: DescriptionAtLeast(after, k, n) ==> DescriptionAtLeast(db, k, n)
    ensures forall k, n :: NotesAtLeast(after, k, n) ==> NotesAtLeast(db, k, n)
  {
  }

  /** A prune that runs with no guard tripped on its plan conserves the live content, whoever
      claims rows in between. */
  lemma UnguardedPruneConserves(plan: Db, db: Db, ids: set<Id>, now: string)
    requires Raced(plan, db) && PlanGuards(plan, ids) == Guards(0, 0, 0)
    ensures SameContent(db, PruneBatch(db, ids, now))
  {
    hide PlanGuards, PruneBatch, Raced;
    ExactlyTheDoomedGo(db, ids, now);
    var after := PruneBatch(db, ids, now);
    forall k | LiveKey(db, k) ensures LiveKey(after, k) {
      var i :| i in db.integrations && db.integrations[i].retiredAt == None && KeyOf(db.integrations[i]) == k;
      var s := RowOrTwinStays(plan, db, ids, now, i);
    }
    forall k, o, d | LiveClaim(db, k, o, d) ensures LiveClaim(after, k, o, d) {
      var c :| c in db.claims && ClaimOnLiveKey(db, c, k) &&
        db.claims[c].dataObject == o && db.claims[c].direction == d;
      var c' := ClaimOrCopyStays(plan, db, ids, now, c, k);
    }
    forall k, n | DescriptionAtLeast(db, k, n) ensures DescriptionAtLeast(after, k, n) {
      var i :| i in db.integrations && db.integrations[i].retiredAt == None && KeyOf(db.integrations[i]) == k
        && |Text(db.integrations[i].description)| >= n;
      var s := RowOrTwinStays(plan, db, ids, now, i);
    }
    forall k, n | NotesAtLeast(db, k, n) ensures NotesAtLeast(after, k, n) {
      var i :| i in db.integrations && db.integrations[i].retiredAt == None && KeyOf(db.integrations[i]) == k
        && |Text(db.integrations[i].notes)| >= n;
      var s := RowOrTwinStays(plan, db, ids, now, i);
    }
    NothingAppears(db, after, ids);
  }
}
