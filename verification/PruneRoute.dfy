/** `pruneExecute` and `POST /api/prune-integrations`: plan, gate, delete, recount, with
    owners free to claim rows between the checks and the batch. */
module PruneRoute {
  import opened Common
  import opened Prune
  import opened PruneCounts
  import opened PruneGuards
  import opened PruneRollback

  datatype Footprint = Footprint(integrations: nat, claims: nat, attestations: nat)
  datatype Recounted = Recounted(product: Id, before: int, after: int)
  datatype PruneResult =
    | Refused(held: seq<Id>)
    | Executed(deleted: Footprint, recounted: seq<Recounted>, remaining: nat)

  class Target {
    var db: Db

    constructor (db: Db)
      ensures this.db == db
    {
      this.db := db;
    }

    // The environment: any owners claim any unclaimed rows.
    method OwnersClaim(at: string)
      modifies this
      ensures Raced(old(db), db)
    {
      assert {} <= db.integrations.Keys;
      var who :| who <= db.integrations.Keys;
      db := db.(integrations := map i | i in db.integrations ::
                  if i in who && db.integrations[i].claimedAt == None then db.integrations[i].(claimedAt := Some(at))
                  else db.integrations[i]);
    }
  }

  predicate HeldPair(db: Db, id: Id) {
    id in db.pairs && IsVendorHeldRow(db.pairs[id].claimedAt, db.pairs[id].origin)
  }

  function HeldSet(db: Db, ids: set<Id>): set<Id> {
    set i | i in ids && (Held(db, i) || HeldPair(db, i))
  }

  // `vendorHeldIds`, over both anchor tables.
  method VendorHeldIds(db: Db, ids: set<Id>) returns (held: seq<Id>)
    ensures Ascending(held) && Elems(held) == HeldSet(db, ids)
  {
    held := SortedElements(HeldSet(db, ids));
  }

  function FootprintOf(db: Db, ids: set<Id>): Footprint {
    Footprint(|RequestedRows(db, ids)|, |RequestedClaims(db, ids)|, |RequestedAttestations(db, ids)|)
  }

  method RunBatch(target: Target, ids: set<Id>, now: string)
    modifies target
    ensures target.db == PruneBatch(old(target.db), ids, now)
  {
    target.db := AuditClosures(target.db, ids, now);
    target.db := AuditNotices(target.db, ids, now, true);
    target.db := AuditNotices(target.db, ids, now, false);
    target.db := DetachThreads(target.db, ids, now);
    target.db := DeleteAttestations(target.db, ids);
    target.db := DeleteClaims(target.db, ids);
    target.db := DeleteIntegrations(target.db, ids);
  }

  method RunRecount(target: Target, affected: seq<Id>)
    modifies target
    ensures target.db == Recount(old(target.db), affected)
  {
    assert affected[..0] == [];
    for i := 0 to |affected|
      invariant target.db == Recount(old(target.db), affected[..i])
    {
      assert affected[..i + 1][..i] == affected[..i];
      target.db := RecountOne(target.db, affected[i]);
    }
    assert affected[..|affected|] == affected;
  }

  lemma NoneHeld(held: seq<Id>, all: set<Id>)
    requires Elems(held) == all
    ensures |held| == 0 <==> all == {}
  {
    if |held| > 0 { assert held[0] in all; }
  }

  predicate IsReadBack(prior: map<Id, Product>, products: map<Id, Product>, affected: set<Id>, x: Recounted) {
    && x.product in affected && x.product in products && x.product in prior
    && x.before == prior[x.product].integrationCount && x.after == products[x.product].integrationCount
  }

  // The SELECT of the new counts, paired with the prior ones.
  method ReadBack(prior: map<Id, Product>, products: map<Id, Product>, affected: seq<Id>)
    returns (recounted: seq<Recounted>)
    requires prior.Keys == products.Keys
    ensures forall x :: x in recounted <==> IsReadBack(prior, products, Elems(affected), x)
    ensures Elems(affected) <= products.Keys ==> |recounted| == |affected|
  {
    recounted := [];
    for i := 0 to |affected|
      invariant forall x :: x in recounted <==> IsReadBack(prior, products, Elems(affected[..i]), x)
      invariant Elems(affected) <= products.Keys ==> |recounted| == i
    {
      assert affected[..i + 1] == affected[..i] + [affected[i]];
      assert Elems(affected[..i + 1]) == Elems(affected[..i]) + {affected[i]};
      var p := affected[i];
      assert p in Elems(affected);
      if p in products {
        recounted := recounted + [Recounted(p, prior[p].integrationCount, products[p].integrationCount)];
      }
    }
    assert affected[..|affected|] == affected;
  }

  lemma ProductsUntouched(db: Db, ids: set<Id>, now: string)
    ensures PruneBatch(db, ids, now).products == db.products
  {
  }

  lemma KeepsProductIds(db: Db, ids: set<Id>, now: string, affected: seq<Id>)
    ensures Recount(PruneBatch(db, ids, now), affected).products.Keys == db.products.Keys
  {
    ProductsUntouched(db, ids, now);
    RecountMeans(PruneBatch(db, ids, now), affected);
  }

  /** `pruneExecute`: refuses exactly when a requested row is vendor-held; otherwise the batch
      runs on whatever state the owners left, and the recount follows. `batchState` is that state. */
  method PruneExecute(target: Target, ids: set<Id>, affected: seq<Id>, now: string)
    returns (r: PruneResult, ghost batchState: Db)
    modifies target
    ensures r.Refused? <==> HeldSet(old(target.db), ids) != {}
    ensures r.Refused? ==>
      target.db == old(target.db) && Ascending(r.held) && Elems(r.held) == HeldSet(old(target.db), ids)
    ensures r.Executed? ==>
      && Raced(old(target.db), batchState)
      && target.db == Recount(PruneBatch(batchState, ids, now), affected)
      && r.deleted == FootprintOf(old(target.db), ids)
      && target.db.products.Keys == old(target.db).products.Keys
      && r.remaining == |target.db.integrations|
    ensures r.Executed? ==>
      && (forall x :: x in r.recounted <==> IsReadBack(old(target.db).products, target.db.products, Elems(affected), x))
      && (Elems(affected) <= target.db.products.Keys ==> |r.recounted| == |affected|)
  {
    hide PruneBatch, Recount, HeldSet, FootprintOf, Raced, Elems;
    var held := VendorHeldIds(target.db, ids);
    batchState := target.db;
    NoneHeld(held, HeldSet(target.db, ids));
    if |held| > 0 {
      return Refused(held), batchState;
    }
    var deleted := FootprintOf(target.db, ids);
    var prior := target.db.products;
    target.OwnersClaim(now);
    batchState := target.db;
    RunBatch(target, ids, now);
    RunRecount(target, affected);
    KeepsProductIds(batchState, ids, now, affected);
    var recounted := ReadBack(prior, target.db.products, affected);
    return Executed(deleted, recounted, |target.db.integrations|), batchState;
  }

  function AttestationsOn(db: Db, claims: set<Id>): set<Id> {
    set a | a in db.attestations && db.attestations[a].claim in claims
  }

  // What a batch that meets `db` deletes.
  function Deleted(db: Db, ids: set<Id>): Footprint {
    Footprint(|Deletable(db, ids)|, |Doomed(db, ids)|, |AttestationsOn(db, Doomed(db, ids))|)
  }

  lemma KeysLeft<T>(all: map<Id, T>, left: map<Id, T>, gone: set<Id>)
    requires gone <= all.Keys && left.Keys == all.Keys - gone
    ensures |all| - |left| == |gone|
  {
    assert all.Keys == left.Keys + gone;
  }

  lemma AttestationsLeft(db: Db, after: Db, doomed: set<Id>)
    requires forall a :: a in after.attestations <==> a in db.attestations && db.attestations[a].claim !in doomed
    ensures |db.attestations| - |after.attestations| == |AttestationsOn(db, doomed)|
  {
    assert after.attestations.Keys == db.attestations.Keys - AttestationsOn(db, doomed);
    KeysLeft(db.attestations, after.attestations, AttestationsOn(db, doomed));
  }

  lemma DeletableAreRows(db: Db, ids: set<Id>)
    ensures Deletable(db, ids) <= db.integrations.Keys
  {
  }

  lemma DoomedAreClaims(db: Db, ids: set<Id>)
    ensures Doomed(db, ids) <= db.claims.Keys
  {
  }

  lemma DeletedNow(db: Db, ids: set<Id>, now: string)
    ensures var after := PruneBatch(db, ids, now);
            && |db.integrations| - |after.integrations| == Deleted(db, ids).integrations
            && |db.claims| - |after.claims| == Deleted(db, ids).claims
            && |db.attestations| - |after.attestations| == Deleted(db, ids).attestations
  {
    hide PruneBatch, Doomed, Deletable, AttestationsOn;
    DeletableAreRows(db, ids);
    ExactlyTheDoomedGo(db, ids, now);
    var after := PruneBatch(db, ids, now);
    DoomedAreClaims(db, ids);
    KeysLeft(db.integrations, after.integrations, Deletable(db, ids));
    KeysLeft(db.claims, after.claims, Doomed(db, ids));
    AttestationsLeft(db, after, Doomed(db, ids));
  }

  lemma DeletableUnlessHeld(plan: Db, db: Db, ids: set<Id>)
    requires Raced(plan, db) && HeldSet(plan, ids) == {}
    ensures Deletable(db, ids) !! HeldSet(db, ids)
    ensures RequestedRows(plan, ids) == Deletable(db, ids) + HeldSet(db, ids)
  {
    forall i | i in RequestedRows(plan, ids) ensures i in Deletable(db, ids) <==> i !in HeldSet(db, ids) {
      assert i !in HeldSet(plan, ids);
    }
    forall i | i in HeldSet(db, ids) ensures i in RequestedRows(plan, ids) { assert i !in HeldSet(plan, ids); }
  }

  // The requested claims: those that go, and those on rows claimed in between.
  lemma RequestedClaimsSplit(plan: Db, db: Db, ids: set<Id>)
    requires Raced(plan, db) && HeldSet(plan, ids) == {} && Sound(plan)
    ensures Doomed(db, ids) !! ClaimsOn(db, HeldSet(db, ids))
    ensures RequestedClaims(plan, ids) == Doomed(db, ids) + ClaimsOn(db, HeldSet(db, ids))
  {
    hide HeldSet, Deletable;
    DeletableUnlessHeld(plan, db, ids);
    forall c | c in RequestedClaims(plan, ids) ensures plan.claims[c].anchor.id in RequestedRows(plan, ids) {
      assert AnchorKnown(plan, plan.claims[c]);
    }
  }

  lemma RequestedAttestationsSplit(plan: Db, db: Db, ids: set<Id>)
    requires Raced(plan, db) && HeldSet(plan, ids) == {} && Sound(plan)
    ensures RequestedAttestations(plan, ids)
      == AttestationsOn(db, Doomed(db, ids)) + AttestationsOn(db, ClaimsOn(db, HeldSet(db, ids)))
    ensures AttestationsOn(db, Doomed(db, ids)) !! AttestationsOn(db, ClaimsOn(db, HeldSet(db, ids)))
  {
    hide HeldSet, Doomed, ClaimsOn, RequestedClaims, Sound;
    RequestedClaimsSplit(plan, db, ids);
  }

  lemma SplitCount(all: set<Id>, gone: set<Id>, kept: set<Id>)
    requires all == gone + kept && gone !! kept
    ensures |gone| <= |all| && (|gone| == |all| <==> kept == {})
  {
    assert |all| == |gone| + |kept|;
  }

  lemma NothingOnNothing(db: Db)
    ensures ClaimsOn(db, {}) == {} && AttestationsOn(db, {}) == {}
  {
  }

  /** The reported `deleted` footprint is read before the batch. None of its counts is ever too
      low. Each is exact if and only if no row of its kind belongs to a row claimed in between:
      the whole footprint, if and only if nobody claimed a requested row. */
  lemma DeletedCount(plan: Db, db: Db, ids: set<Id>)
    requires Raced(plan, db) && HeldSet(plan, ids) == {} && Sound(plan)
    ensures var reported, deleted, claimed := FootprintOf(plan, ids), Deleted(db, ids), HeldSet(db, ids);
            && deleted.integrations <= reported.integrations
            && deleted.claims <= reported.claims
            && deleted.attestations <= reported.attestations
            && (deleted.claims == reported.claims <==> ClaimsOn(db, claimed) == {})
            && (deleted.attestations == reported.attestations <==> AttestationsOn(db, ClaimsOn(db, claimed)) == {})
            && (deleted == reported <==> claimed == {})
  {
    hide Raced, HeldSet, Deletable, RequestedRows, RequestedClaims, RequestedAttestations, Doomed, ClaimsOn,
         AttestationsOn, Sound;
    var claimed := HeldSet(db, ids);
    DeletableUnlessHeld(plan, db, ids);
    RequestedClaimsSplit(plan, db, ids);
    RequestedAttestationsSplit(plan, db, ids);
    SplitCount(RequestedRows(plan, ids), Deletable(db, ids), claimed);
    SplitCount(RequestedClaims(plan, ids), Doomed(db, ids), ClaimsOn(db, claimed));
    SplitCount(RequestedAttestations(plan, ids), AttestationsOn(db, Doomed(db, ids)),
               AttestationsOn(db, ClaimsOn(db, claimed)));
    if claimed == {} { NothingOnNothing(db); }
  }

  // ----- the route

  datatype Response =
    | DryRun(clear: bool, held: seq<Id>, blocked: seq<GuardName>, rollback: seq<InsertOrIgnore>)
    | Declined(why: Decision)
    | Threw(held: seq<Id>)   // a row was claimed between the plan and the second gate
    | Answered(result: PruneResult, rollback: seq<InsertOrIgnore>)

  // The owner claimed the row, or a vendor created it, in either table a request can name.
  ghost predicate VendorHas(db: Db, i: Id) {
    || (i in db.integrations && (db.integrations[i].claimedAt.Some? || db.integrations[i].origin == "vendor"))
    || (i in db.pairs && (db.pairs[i].claimedAt.Some? || db.pairs[i].origin == "vendor"))
  }

  ghost predicate AnyHeld(db: Db, ids: set<Id>) {
    exists i :: i in ids && VendorHas(db, i)
  }

  ghost predicate AnyFound(db: Db, ids: set<Id>) {
    exists i :: Requested(db, ids, i)
  }

  // A guard is tripped and not acknowledged.
  ghost predicate Unacknowledged(plan: Db, ids: set<Id>, acknowledged: seq<GuardName>) {
    exists g :: Trips(plan, ids, g) && g !in acknowledged
  }

  // A guard is acknowledged and not tripped.
  ghost predicate AckStale(plan: Db, ids: set<Id>, acknowledged: seq<GuardName>) {
    exists g :: g in acknowledged && !Trips(plan, ids, g)
  }

  // What the route asks of a request that is not a dry run.
  ghost predicate MayProceed(plan: Db, ids: set<Id>, acknowledged: seq<GuardName>, reasonLength: nat, confirmed: bool) {
    && !AnyHeld(plan, ids) && AnyFound(plan, ids) && confirmed
    && (forall g :: g in acknowledged <==> Trips(plan, ids, g))
    && (acknowledged == [] || reasonLength >= 20)
  }

  /** Why a request that is not a dry run gets the decision it gets, read off the rows. */
  ghost predicate Explains(plan: Db, ids: set<Id>, acknowledged: seq<GuardName>, reasonLength: nat, confirmed: bool,
                           why: Decision) {
    var unanswered, stale := Unacknowledged(plan, ids, acknowledged), AckStale(plan, ids, acknowledged);
    var unreasoned := acknowledged != [] && reasonLength < 20;
    match why
    case VendorHeld => AnyHeld(plan, ids)
    case GuardTripped => !AnyHeld(plan, ids) && unanswered
    case GuardAckStale => !AnyHeld(plan, ids) && !unanswered && stale
    case AckReasonRequired => !AnyHeld(plan, ids) && !unanswered && !stale && unreasoned
    case NothingToPrune => !AnyHeld(plan, ids) && !unanswered && !stale && !unreasoned && !AnyFound(plan, ids)
    case NotConfirmed =>
      !AnyHeld(plan, ids) && !unanswered && !stale && !unreasoned && AnyFound(plan, ids) && !confirmed
    case Proceed => MayProceed(plan, ids, acknowledged, reasonLength, confirmed)
  }

  lemma HeldIsVendors(db: Db, ids: set<Id>)
    ensures forall i :: i in HeldSet(db, ids) <==> i in ids && VendorHas(db, i)
    ensures HeldSet(db, ids) == {} <==> !AnyHeld(db, ids)
  {
    if i :| i in ids && VendorHas(db, i) { assert i in HeldSet(db, ids); }
  }

  lemma FoundIsRequested(db: Db, ids: set<Id>)
    ensures |RequestedRows(db, ids)| > 0 <==> AnyFound(db, ids)
  {
    SomeMeansPositive(RequestedRows(db, ids));
    assert forall i :: i in RequestedRows(db, ids) <==> Requested(db, ids, i);
  }

  lemma GateExplains(plan: Db, ids: set<Id>, held: seq<Id>, acknowledged: seq<GuardName>, reasonLength: nat,
                     found: nat, confirmed: bool)
    requires (|held| == 0 <==> HeldSet(plan, ids) == {}) && found == |RequestedRows(plan, ids)|
    ensures var why := Gate(held, Blocked(PlanGuards(plan, ids)), acknowledged, reasonLength, found, confirmed);
            Explains(plan, ids, acknowledged, reasonLength, confirmed, why)
  {
    hide HeldSet, RequestedRows, PlanGuards, Trips, AnyHeld, AnyFound, Blocked, InGuardOrder;
    var blocked := Blocked(PlanGuards(plan, ids));
    HeldIsVendors(plan, ids);
    FoundIsRequested(plan, ids);
    BlockedTell(plan, ids);
    EmptyMeansNone(Without(blocked, acknowledged));
    EmptyMeansNone(Without(acknowledged, blocked));
  }

  lemma OneExplanation(plan: Db, ids: set<Id>, acknowledged: seq<GuardName>, reasonLength: nat, confirmed: bool,
                       why: Decision)
    requires Explains(plan, ids, acknowledged, reasonLength, confirmed, why)
    ensures why == Proceed <==> MayProceed(plan, ids, acknowledged, reasonLength, confirmed)
  {
    hide AnyHeld, AnyFound, Trips;
  }

  lemma HeldListed(db: Db, ids: set<Id>, held: seq<Id>)
    requires Elems(held) == HeldSet(db, ids)
    ensures forall i :: i in held <==> i in ids && VendorHas(db, i)
    ensures held == [] <==> HeldSet(db, ids) == {}
  {
    hide HeldSet, VendorHas;
    HeldIsVendors(db, ids);
    NoneHeld(held, HeldSet(db, ids));
    assert forall i :: i in held <==> i in Elems(held);
  }

  /** A request of redundant copies needs no acknowledgement: rows nobody holds, each with a live
      copy outside the request, none of them poorer, and every claim carried by one. */
  lemma RedundantMayProceed(plan: Db, ids: set<Id>)
    requires !AnyHeld(plan, ids) && AnyFound(plan, ids)
    requires forall o :: Requested(plan, ids, o) ==> exists s :: LiveCopy(plan, ids, o, s)
    requires forall o, s :: !Outdone(plan, ids, o, s)
    requires forall o, c :: !OnlyHere(plan, ids, o, c)
    ensures MayProceed(plan, ids, [], 0, true)
  {
    hide LiveCopy, Outdone, OnlyHere, AnyHeld, AnyFound;
    forall g ensures !Trips(plan, ids, g) {
      match g
      case ClaimsUniqueToOrphans =>
      case OrphansWithoutATwin =>
      case OrphansRicherThanTwin =>
    }
  }

  lemma RacedTwice(plan: Db, between: Db, db: Db)
    requires Raced(plan, between) && Raced(between, db)
    ensures Raced(plan, db)
  {
  }

  // The plan's products cover every row the batch can delete.
  lemma PlanCovers(plan: Db, db: Db, ids: set<Id>)
    requires Raced(plan, db)
    ensures Covers(db, ids, AffectedProducts(plan, ids))
  {
  }

  lemma RacedKeepsSound(plan: Db, db: Db)
    requires Raced(plan, db) && Sound(plan)
    ensures Sound(db)
  {
    forall i | i in db.integrations ensures EndpointsKnown(db, i) { assert EndpointsKnown(plan, i); }
    forall c | c in db.claims ensures AnchorKnown(db, db.claims[c]) { assert AnchorKnown(plan, plan.claims[c]); }
    forall t | t in db.threads ensures ThreadFits(db, db.threads[t]) { assert ThreadFits(plan, plan.threads[t]); }
  }

  lemma RacedKeepsCounts(plan: Db, db: Db)
    requires Raced(plan, db) && CountsRight(plan)
    ensures CountsRight(db)
  {
    forall p | p in db.products ensures db.products[p].integrationCount == LiveEdgeCount(db, p) {
      assert LiveIntegrations(db, p) == LiveIntegrations(plan, p) && LivePairs(db, p) == LivePairs(plan, p);
    }
  }

  lemma RecountKeepsSound(db: Db, affected: seq<Id>)
    requires Sound(db)
    ensures Sound(Recount(db, affected))
  {
    RecountMeans(db, affected);
    var after := Recount(db, affected);
    forall i | i in after.integrations ensures EndpointsKnown(after, i) { assert EndpointsKnown(db, i); }
    forall c | c in after.claims ensures AnchorKnown(after, after.claims[c]) { assert AnchorKnown(db, db.claims[c]); }
    forall t | t in after.threads ensures ThreadFits(after, after.threads[t]) { assert ThreadFits(db, db.threads[t]); }
  }

  lemma ContentIgnoresProducts(db: Db, after: Db, affected: seq<Id>)
    requires SameContent(db, after)
    ensures SameContent(db, Recount(after, affected))
  {
  }

  lemma RacedKeepsKeys(plan: Db, db: Db)
    requires Raced(plan, db) && UniqueKeys(plan)
    ensures UniqueKeys(db)
  {
  }

  // What a race leaves as the plan found it.
  lemma RacedFootprint(plan: Db, db: Db, ids: set<Id>)
    requires Raced(plan, db)
    ensures FootprintOf(db, ids) == FootprintOf(plan, ids) && db.products == plan.products
  {
    assert RequestedRows(db, ids) == RequestedRows(plan, ids);
  }

  // Everything the route promises once the batch has run, in one place.
  lemma RouteOutcome(plan: Db, db: Db, ids: set<Id>, affected: seq<Id>, now: string)
    requires Raced(plan, db) && Sound(plan) && CountsRight(plan) && Elems(affected) == AffectedProducts(plan, ids)
    ensures Sound(Recount(PruneBatch(db, ids, now), affected))
    ensures CountsRight(Recount(PruneBatch(db, ids, now), affected))
    ensures PlanGuards(plan, ids) == Guards(0, 0, 0) ==> SameContent(db, Recount(PruneBatch(db, ids, now), affected))
  {
    hide PruneBatch, Recount, Sound, CountsRight, Raced, PlanGuards, SameContent, AffectedProducts;
    RacedKeepsSound(plan, db);
    RacedKeepsCounts(plan, db);
    PlanCovers(plan, db, ids);
    RecountRepairs(db, ids, now, affected);
    BatchKeepsSound(db, ids, now);
    RecountKeepsSound(PruneBatch(db, ids, now), affected);
    if PlanGuards(plan, ids) == Guards(0, 0, 0) {
      UnguardedPruneConserves(plan, db, ids, now);
      ContentIgnoresProducts(db, PruneBatch(db, ids, now), affected);
    }
  }

  lemma AscendingCount(names: seq<Id>)
    requires Ascending(names)
    ensures |Elems(names)| == |names|
  {
    AscendingDistinct(names);
    DistinctCount(names);
  }

  lemma AffectedKnown(db: Db, ids: set<Id>)
    ensures AffectedProducts(db, ids) <= db.products.Keys
  {
  }

  /** The route. Owners may claim rows at any time after the plan. On a sound database with
      right counts: a dry run and a declined request change nothing, and a request is declined
      exactly if it may not proceed. One that proceeds throws if a row was claimed before the
      second gate, touching nothing; otherwise the batch and the recount have run on whatever
      state the owners left, which leaves the database sound and the counts right and conserves
      the live content if no guard was acknowledged, and the script handed back restores the
      tables the batch met. */
  method PruneIntegrations(target: Target, ids: set<Id>, dryRun: bool, acknowledged: seq<GuardName>,
                           reasonLength: nat, confirmed: bool, now: string)
    returns (response: Response, ghost batchState: Db)
    requires Sound(target.db) && CountsRight(target.db)
    modifies target
    ensures Sound(target.db) && CountsRight(target.db)
    ensures response.DryRun? <==> dryRun
    ensures response.DryRun? ==>
      && target.db == old(target.db)
      && Ascending(response.held) && (forall i :: i in response.held <==> i in ids && VendorHas(old(target.db), i))
      && InGuardOrder(response.blocked) && (forall g :: g in response.blocked <==> Trips(old(target.db), ids, g))
      && (response.clear <==> response.held == [] && response.blocked == [])
      && IsRollback(old(target.db), ids, response.rollback)
    ensures !dryRun ==>
      (response.Declined? <==> !MayProceed(old(target.db), ids, acknowledged, reasonLength, confirmed))
    ensures response.Declined? ==>
      && target.db == old(target.db)
      && Explains(old(target.db), ids, acknowledged, reasonLength, confirmed, response.why)
    ensures response.Threw? ==>
      && Raced(old(target.db), target.db) && response.held != [] && Ascending(response.held)
      && forall i :: i in response.held <==> i in ids && VendorHas(target.db, i)
    ensures response.Answered? ==>
      && response.result.Executed? && Raced(old(target.db), batchState)
      && target.db == CountsRenewed(PruneBatch(batchState, ids, now), AffectedProducts(old(target.db), ids))
      && response.result.deleted == FootprintOf(old(target.db), ids)
      && response.result.remaining == |target.db.integrations|
      && IsRollback(old(target.db), ids, response.rollback)
    ensures response.Answered? ==>
      && (forall x :: x in response.result.recounted <==>
           IsReadBack(old(target.db).products, target.db.products, AffectedProducts(old(target.db), ids), x))
      && |response.result.recounted| == |AffectedProducts(old(target.db), ids)|
    ensures response.Answered? && UniqueKeys(old(target.db)) ==>
      && Replayable(target.db, response.rollback)
      && SameTables(Replay(target.db, response.rollback), batchState)
    ensures response.Answered? && acknowledged == [] ==> SameContent(batchState, target.db)
  {
    hide Sound, CountsRight, SameContent, PruneBatch, Recount, PlanGuards, IsRollback, Raced, Blocked, AffectedProducts,
         HeldSet, RequestedRows, Elems, Ascending, UniqueKeys, Replay, Replayable, SameTables, FootprintOf,
         CountsRenewed, VendorHas, Trips, MayProceed, Explains, InGuardOrder, IsReadBack, Gate;
    ghost var plan := target.db;
    batchState := plan;
    var guards := PlanGuards(target.db, ids);
    var held := VendorHeldIds(target.db, ids);
    var affected := SortedElements(AffectedProducts(target.db, ids));
    var rollback := BuildRollback(target.db, ids);
    HeldListed(plan, ids, held);
    BlockedTell(plan, ids);
    if dryRun {
      return DryRun(|Blocked(guards)| == 0 && |held| == 0, held, Blocked(guards), rollback), batchState;
    }
    var found := |RequestedRows(target.db, ids)|;
    var decision := Gate(held, Blocked(guards), acknowledged, reasonLength, found, confirmed);
    GateExplains(plan, ids, held, acknowledged, reasonLength, found, confirmed);
    OneExplanation(plan, ids, acknowledged, reasonLength, confirmed, decision);
    if decision != Proceed {
      return Declined(decision), batchState;
    }
    if acknowledged == [] {
      ProceedingUnacknowledged(held, guards, reasonLength, found, confirmed);
    }
    target.OwnersClaim(now);
    ghost var second := target.db;
    var result;
    result, batchState := PruneExecute(target, ids, affected, now);
    if result.Refused? {
      RacedKeepsSound(plan, second);
      RacedKeepsCounts(plan, second);
      HeldListed(second, ids, result.held);
      return Threw(result.held), batchState;
    }
    RacedTwice(plan, second, batchState);
    RouteOutcome(plan, batchState, ids, affected, now);
    AscendingCount(affected);
    AffectedKnown(plan, ids);
    RacedFootprint(plan, second, ids);
    RecountMeans(PruneBatch(batchState, ids, now), affected);
    if UniqueKeys(plan) {
      RacedKeepsKeys(plan, batchState);
      RacedKeepsSound(plan, batchState);
      RollbackUndoesPrune(plan, batchState, ids, now, affected, rollback, 0);
    }
    return Answered(result, rollback), batchState;
  }
}
