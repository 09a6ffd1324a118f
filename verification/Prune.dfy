/** The integration prune's delete batch (apps/datatool/src/prune-integrations.ts): private
    threads detached and closed, then attestations, claims and integrations deleted, every
    statement re-checking that the row is not vendor-held. */
module Prune {
  import opened Common

  type Id = string

  datatype Integration = Integration(
    source: Id,
    target: Id,
    mechanism: Option<string>,
    description: Option<string>,
    notes: Option<string>,
    claimedAt: Option<string>,
    origin: string,
    retiredAt: Option<string>)

  datatype Pair = Pair(a: Id, b: Id, connector: Id, claimedAt: Option<string>,
                       origin: string, retiredAt: Option<string>)

  // Exactly one anchor is set (`claims_anchor_check`); `anchor_id` is whichever it is.
  datatype Anchor = OnIntegration(id: Id) | OnPair(id: Id) | OnReach(id: Id)

  datatype Claim = Claim(anchor: Anchor, dataObject: Id, direction: string)

  datatype Attestation = Attestation(claim: Id, source: string, asserted: bool, retractedAt: Option<string>)

  datatype Snapshot = Snapshot(anchorId: Id, dataObject: Id)

  datatype Thread = Thread(
    claim: Option<Id>,
    vendorA: Id,
    vendorB: Id,
    snapshot: Option<Snapshot>,
    closedAt: Option<string>,
    closedReason: Option<string>)

  datatype AuditRow =
    | ThreadClosed(thread: Id, claim: Id, closedAt: string)
    | Notice(thread: Id, claim: Id, recipient: Id, other: Id, dataObject: Option<Id>, at: string)

  datatype Product = Product(slug: string, integrationCount: int)

  datatype Db = Db(
    integrations: map<Id, Integration>,
    pairs: map<Id, Pair>,
    reaches: set<Id>,
    claims: map<Id, Claim>,
    attestations: map<Id, Attestation>,
    threads: map<Id, Thread>,
    audit: multiset<AuditRow>,
    products: map<Id, Product>)

  // ----- vendor-held

  predicate IsVendorHeldRow(claimedAt: Option<string>, origin: string) {
    claimedAt.Some? || origin == "vendor"
  }

  // `"claimed_at" IS NULL AND "origin" <> 'vendor'`
  predicate NotVendorHeld(row: Integration) {
    row.claimedAt == None && row.origin != "vendor"
  }

  predicate Held(db: Db, id: Id) {
    id in db.integrations && IsVendorHeldRow(db.integrations[id].claimedAt, db.integrations[id].origin)
  }

  // ----- the statements, each evaluated on the state it runs in

  function Deletable(db: Db, ids: set<Id>): set<Id> {
    set i | i in ids && i in db.integrations && NotVendorHeld(db.integrations[i])
  }

  // `SELECT id FROM claims WHERE integration_id IN (deletable)`
  function ClaimsOn(db: Db, integrations: set<Id>): set<Id> {
    set c | c in db.claims && db.claims[c].anchor.OnIntegration? && db.claims[c].anchor.id in integrations
  }

  function Doomed(db: Db, ids: set<Id>): set<Id> {
    ClaimsOn(db, Deletable(db, ids))
  }

  predicate OnClaims(thread: Thread, claims: set<Id>) {
    thread.claim.Some? && thread.claim.value in claims
  }

  function OpenThreads(db: Db, claims: set<Id>): set<Id> {
    set t | t in db.threads && OnClaims(db.threads[t], claims) && db.threads[t].closedAt == None
  }

  function ClosedRow(db: Db, t: Id, now: string): AuditRow
    requires t in db.threads && db.threads[t].claim.Some?
  {
    ThreadClosed(t, db.threads[t].claim.value, now)
  }

  // `LEFT JOIN claims` for the data object the notice names.
  function DataObjectOf(db: Db, c: Id): Option<Id> {
    if c in db.claims then Some(db.claims[c].dataObject) else None
  }

  function NoticeRow(db: Db, t: Id, now: string, toA: bool): AuditRow
    requires t in db.threads && db.threads[t].claim.Some?
  {
    var th := db.threads[t];
    var c := th.claim.value;
    if toA then Notice(t, c, th.vendorA, th.vendorB, DataObjectOf(db, c), now)
    else Notice(t, c, th.vendorB, th.vendorA, DataObjectOf(db, c), now)
  }

  function Closures(db: Db, ids: set<Id>, now: string): multiset<AuditRow> {
    var open := OpenThreads(db, Doomed(db, ids));
    multiset(set t | t in open :: ClosedRow(db, t, now))
  }

  function Notices(db: Db, ids: set<Id>, now: string, toA: bool): multiset<AuditRow> {
    var open := OpenThreads(db, Doomed(db, ids));
    multiset(set t | t in open :: NoticeRow(db, t, now, toA))
  }

  function AuditClosures(db: Db, ids: set<Id>, now: string): Db {
    db.(audit := db.audit + Closures(db, ids, now))
  }

  function AuditNotices(db: Db, ids: set<Id>, now: string, toA: bool): Db {
    db.(audit := db.audit + Notices(db, ids, now, toA))
  }

  function Detached(db: Db, thread: Thread, now: string): Thread
    requires thread.claim.Some?
  {
    var c := thread.claim.value;
    var snapshot := if thread.snapshot.Some? then thread.snapshot
                    else if c in db.claims then Some(Snapshot(db.claims[c].anchor.id, db.claims[c].dataObject))
                    else None;
    thread.(
      claim := None,
      snapshot := snapshot,
      closedAt := if thread.closedAt.Some? then thread.closedAt else Some(now),
      closedReason := if thread.closedReason.Some? then thread.closedReason else Some("claim_removed"))
  }

  function DetachThreads(db: Db, ids: set<Id>, now: string): Db {
    var doomed := Doomed(db, ids);
    db.(threads := map t | t in db.threads ::
          if OnClaims(db.threads[t], doomed) then Detached(db, db.threads[t], now) else db.threads[t])
  }

  // Deleting claims fires the foreign keys: attestations cascade, threads are nulled.
  function RemoveClaims(db: Db, claims: set<Id>): Db {
    db.(claims := db.claims - claims,
        attestations := map a | a in db.attestations && db.attestations[a].claim !in claims :: db.attestations[a],
        threads := map t | t in db.threads ::
          if OnClaims(db.threads[t], claims) then db.threads[t].(claim := None) else db.threads[t])
  }

  function DeleteAttestations(db: Db, ids: set<Id>): Db {
    var doomed := Doomed(db, ids);
    db.(attestations := map a | a in db.attestations && db.attestations[a].claim !in doomed :: db.attestations[a])
  }

  function DeleteClaims(db: Db, ids: set<Id>): Db {
    RemoveClaims(db, Doomed(db, ids))
  }

  // Deleting integrations cascades into their claims.
  function DeleteIntegrations(db: Db, ids: set<Id>): Db {
    var gone := Deletable(db, ids);
    var db' := RemoveClaims(db, ClaimsOn(db, gone));
    db'.(integrations := db.integrations - gone)
  }

  /** The atomic batch, statement by statement, with the thread table present. */
  function PruneBatch(db: Db, ids: set<Id>, now: string): Db {
    var d1 := AuditClosures(db, ids, now);
    var d2 := AuditNotices(d1, ids, now, true);
    var d3 := AuditNotices(d2, ids, now, false);
    var d4 := DetachThreads(d3, ids, now);
    var d5 := DeleteAttestations(d4, ids);
    var d6 := DeleteClaims(d5, ids);
    DeleteIntegrations(d6, ids)
  }

  // ----- the state it must leave

  ghost predicate EndpointsKnown(db: Db, i: Id)
    requires i in db.integrations
  {
    db.integrations[i].source in db.products && db.integrations[i].target in db.products
  }

  ghost predicate AnchorKnown(db: Db, c: Claim) {
    match c.anchor
    case OnIntegration(i) => i in db.integrations
    case OnPair(p) => p in db.pairs
    case OnReach(r) => r in db.reaches
  }

  ghost predicate ThreadFits(db: Db, t: Thread) {
    && (t.claim.Some? ==> t.claim.value in db.claims)
    && (t.closedAt.Some? <==> t.closedReason.Some?)
    && t.vendorA != t.vendorB
  }

  ghost predicate Sound(db: Db) {
    && (forall i {:trigger EndpointsKnown(db, i)} :: i in db.integrations ==> EndpointsKnown(db, i))
    && (forall c {:trigger AnchorKnown(db, db.claims[c])} :: c in db.claims ==> AnchorKnown(db, db.claims[c]))
    && (forall a :: a in db.attestations ==> db.attestations[a].claim in db.claims)
    && (forall t {:trigger ThreadFits(db, db.threads[t])} :: t in db.threads ==> ThreadFits(db, db.threads[t]))
  }

  // The audit rows of one open thread.
  ghost predicate RowOf(db: Db, t: Id, now: string, r: AuditRow)
    requires t in db.threads && db.threads[t].claim.Some?
  {
    r == ClosedRow(db, t, now) || r == NoticeRow(db, t, now, true) || r == NoticeRow(db, t, now, false)
  }

  ghost function NewRows(db: Db, ids: set<Id>, now: string): multiset<AuditRow> {
    Closures(db, ids, now) + Notices(db, ids, now, true) + Notices(db, ids, now, false)
  }

  // One step instead of seven.
  ghost function Pruned(db: Db, ids: set<Id>, now: string): Db {
    var gone, doomed := Deletable(db, ids), Doomed(db, ids);
    db.(integrations := db.integrations - gone,
        claims := db.claims - doomed,
        attestations := map a | a in db.attestations && db.attestations[a].claim !in doomed :: db.attestations[a],
        threads := map t | t in db.threads ::
          if OnClaims(db.threads[t], doomed) then Detached(db, db.threads[t], now) else db.threads[t],
        audit := db.audit + NewRows(db, ids, now))
  }

  lemma DetachThenDelete(db: Db, ids: set<Id>, now: string)
    ensures DeleteIntegrations(DeleteClaims(DeleteAttestations(DetachThreads(db, ids, now), ids), ids), ids)
      == Pruned(db, ids, now).(audit := db.audit)
  {
  }

  lemma NoticesIgnoreAudit(db: Db, audit: multiset<AuditRow>, ids: set<Id>, now: string, toA: bool)
    ensures Notices(db.(audit := audit), ids, now, toA) == Notices(db, ids, now, toA)
  {
  }

  lemma AuditPhase(db: Db, ids: set<Id>, now: string)
    ensures AuditNotices(AuditNotices(AuditClosures(db, ids, now), ids, now, true), ids, now, false)
      == db.(audit := db.audit + NewRows(db, ids, now))
  {
    hide Closures, Notices;
    var a1 := db.audit + Closures(db, ids, now);
    var a2 := a1 + Notices(db, ids, now, true);
    NoticesIgnoreAudit(db, a1, ids, now, true);
    NoticesIgnoreAudit(db, a2, ids, now, false);
    assert a2 + Notices(db, ids, now, false) == db.audit + NewRows(db, ids, now);
  }

  lemma PrunedAudit(db: Db, ids: set<Id>, now: string)
    ensures Pruned(db, ids, now).audit == db.audit + NewRows(db, ids, now)
  {
  }

  lemma PrunedIgnoresAudit(db: Db, audit: multiset<AuditRow>, ids: set<Id>, now: string)
    ensures Pruned(db.(audit := audit), ids, now).(audit := audit) == Pruned(db, ids, now).(audit := audit)
  {
  }

  /** The seven statements together are exactly the one-step prune: the foreign-key actions of
      the deletes find nothing left to do. */
  lemma BatchIsPruned(db: Db, ids: set<Id>, now: string)
    ensures PruneBatch(db, ids, now) == Pruned(db, ids, now)
  {
    hide Pruned, Doomed, Deletable, NewRows, DetachThreads, DeleteAttestations, DeleteClaims, DeleteIntegrations,
         AuditClosures, AuditNotices;
    AuditPhase(db, ids, now);
    DetachThenDelete(db.(audit := db.audit + NewRows(db, ids, now)), ids, now);
    PrunedIgnoresAudit(db, db.audit + NewRows(db, ids, now), ids, now);
    PrunedAudit(db, ids, now);
  }

  // ----- safety, whatever the state when the batch runs

  predicate OnHeldRow(db: Db, c: Id) {
    c in db.claims && db.claims[c].anchor.OnIntegration? && Held(db, db.claims[c].anchor.id)
  }

  /** No vendor-held row, none of its claims and none of their attestations is deleted. */
  lemma HeldRowsSurvive(db: Db, ids: set<Id>, now: string)
    ensures var after := PruneBatch(db, ids, now);
      && (forall i :: Held(db, i) ==> i in after.integrations && after.integrations[i] == db.integrations[i])
      && (forall c :: OnHeldRow(db, c) ==>
            c in after.claims && after.claims[c] == db.claims[c])
      && (forall a :: a in db.attestations && OnHeldRow(db, db.attestations[a].claim) ==>
            a in after.attestations && after.attestations[a] == db.attestations[a])
  {
    BatchIsPruned(db, ids, now);
  }

  // The row is requested, and no vendor holds it.
  ghost predicate Unheld(db: Db, ids: set<Id>, i: Id) {
    i in ids && i in db.integrations && db.integrations[i].claimedAt == None && db.integrations[i].origin != "vendor"
  }

  // The claim hangs on such a row.
  ghost predicate OnUnheld(db: Db, ids: set<Id>, c: Id) {
    c in db.claims && match db.claims[c].anchor
      case OnIntegration(i) => Unheld(db, ids, i)
      case OnPair(_) => false
      case OnReach(_) => false
  }

  lemma DeletableIsUnheld(db: Db, ids: set<Id>)
    ensures forall i :: i in Deletable(db, ids) <==> Unheld(db, ids, i)
    ensures forall c :: c in Doomed(db, ids) <==> OnUnheld(db, ids, c)
  {
  }

  /** Exactly the requested, not vendor-held integrations go, with exactly their claims and
      exactly the attestations of those. */
  lemma ExactlyTheDoomedGo(db: Db, ids: set<Id>, now: string)
    ensures var after := PruneBatch(db, ids, now);
      && after.integrations == db.integrations - Deletable(db, ids)
      && after.claims == db.claims - Doomed(db, ids)
      && (forall a :: a in after.attestations <==> a in db.attestations && db.attestations[a].claim !in Doomed(db, ids))
      && (forall a :: a in after.attestations ==> after.attestations[a] == db.attestations[a])
      && after.pairs == db.pairs && after.products == db.products
  {
  }

  /** What the deletes of the schema's foreign keys do: attestations go with their claim, threads
      lose it, and claims go with their row. */
  lemma ForeignKeysFire(db: Db, claims: set<Id>)
    ensures var after := RemoveClaims(db, claims);
      && after.claims == db.claims - claims
      && (forall a :: a in after.attestations <==> a in db.attestations && db.attestations[a].claim !in claims)
      && after.threads.Keys == db.threads.Keys
      && forall t :: t in db.threads ==>
           after.threads[t] == if db.threads[t].claim.Some? && db.threads[t].claim.value in claims
                               then db.threads[t].(claim := None) else db.threads[t]
  {
  }

  /** The batch never relies on them: each delete finds the rows below already gone. */
  lemma NothingCascades(db: Db, ids: set<Id>, now: string)
    ensures var detached := DetachThreads(db, ids, now);
      var bare := DeleteAttestations(detached, ids);
      var alone := DeleteClaims(bare, ids);
      && (forall t, c :: t in bare.threads && OnUnheld(db, ids, c) ==> bare.threads[t].claim != Some(c))
      && (forall a :: a in bare.attestations ==> !OnUnheld(db, ids, bare.attestations[a].claim))
      && (forall c :: c in alone.claims ==> !OnUnheld(db, ids, c))
  {
    DeletableIsUnheld(db, ids);
    DeletableIsUnheld(DeleteAttestations(DetachThreads(db, ids, now), ids), ids);
  }

  /** Nothing dangles afterwards. */
  lemma BatchKeepsSound(db: Db, ids: set<Id>, now: string)
    requires Sound(db)
    ensures Sound(PruneBatch(db, ids, now))
  {
    BatchIsPruned(db, ids, now);
    var after := Pruned(db, ids, now);
    forall i | i in after.integrations ensures EndpointsKnown(after, i) { assert EndpointsKnown(db, i); }
    forall c | c in after.claims ensures AnchorKnown(after, after.claims[c]) { assert AnchorKnown(db, db.claims[c]); }
    forall t | t in after.threads ensures ThreadFits(after, after.threads[t]) { assert ThreadFits(db, db.threads[t]); }
  }

  /** A thread on a deleted claim ends detached, with a snapshot of the claim and closed as of now,
      but what it had of these already it keeps; every other thread is untouched. */
  lemma ThreadsDetached(db: Db, ids: set<Id>, now: string, t: Id)
    requires t in db.threads
    ensures t in PruneBatch(db, ids, now).threads
    ensures var before, after := db.threads[t], PruneBatch(db, ids, now).threads[t];
      if before.claim.Some? && OnUnheld(db, ids, before.claim.value) then
        var claim := db.claims[before.claim.value];
        && after.claim == None && after.vendorA == before.vendorA && after.vendorB == before.vendorB
        && after.snapshot == (if before.snapshot != None then before.snapshot
                              else Some(Snapshot(claim.anchor.id, claim.dataObject)))
        && after.closedAt == (if before.closedAt != None then before.closedAt else Some(now))
        && after.closedReason == (if before.closedReason != None then before.closedReason else Some("claim_removed"))
      else after == before
  {
    BatchIsPruned(db, ids, now);
    DeletableIsUnheld(db, ids);
  }

  lemma OneRowEach(db: Db, open: set<Id>, now: string, r: AuditRow)
    requires forall t :: t in open ==>
      t in db.threads && db.threads[t].claim.Some? && db.threads[t].vendorA != db.threads[t].vendorB
    ensures multiset(set t | t in open :: ClosedRow(db, t, now))[r]
      + multiset(set t | t in open :: NoticeRow(db, t, now, true))[r]
      + multiset(set t | t in open :: NoticeRow(db, t, now, false))[r]
      == if r.thread in open && RowOf(db, r.thread, now, r) then 1 else 0
  {
  }

  // The thread was open on claim `c` of a requested row that nobody holds.
  ghost predicate OpenOn(db: Db, ids: set<Id>, t: Id, c: Id) {
    && t in db.threads && db.threads[t].closedAt == None && db.threads[t].claim == Some(c) && c in db.claims
    && exists i :: i in ids && i in db.integrations && db.claims[c].anchor == OnIntegration(i)
         && db.integrations[i].claimedAt == None && db.integrations[i].origin != "vendor"
  }

  // The row closes such a thread, or tells one of its two companies about the other.
  ghost predicate Announces(db: Db, ids: set<Id>, now: string, r: AuditRow) {
    match r
    case ThreadClosed(t, c, at) => OpenOn(db, ids, t, c) && at == now
    case Notice(t, c, recipient, other, dataObject, at) =>
      && OpenOn(db, ids, t, c) && at == now && dataObject == Some(db.claims[c].dataObject)
      && ((recipient == db.threads[t].vendorA && other == db.threads[t].vendorB)
          || (recipient == db.threads[t].vendorB && other == db.threads[t].vendorA))
  }

  lemma OpenOnIsOpen(db: Db, ids: set<Id>, t: Id)
    ensures t in OpenThreads(db, Doomed(db, ids)) <==> exists c :: OpenOn(db, ids, t, c)
  {
    if t in OpenThreads(db, Doomed(db, ids)) {
      assert OpenOn(db, ids, t, db.threads[t].claim.value);
    }
  }

  lemma OpenOnFacts(db: Db, ids: set<Id>, t: Id)
    ensures forall c :: OpenOn(db, ids, t, c) ==>
      t in db.threads && db.threads[t].claim == Some(c) && c in db.claims
  {
  }

  lemma AnnouncedRows(db: Db, ids: set<Id>, now: string, r: AuditRow)
    requires Sound(db)
    ensures Announces(db, ids, now, r) <==>
      r.thread in OpenThreads(db, Doomed(db, ids)) && RowOf(db, r.thread, now, r)
  {
    hide OpenThreads, Doomed, OpenOn, Sound;
    var t := r.thread;
    OpenOnIsOpen(db, ids, t);
    assert forall c :: OpenOn(db, ids, t, c) ==>
      t in db.threads && db.threads[t].claim == Some(c) && c in db.claims by { OpenOnFacts(db, ids, t); }
  }

  /** The audit log gains exactly one `thread.closed` row and one notice to each company per
      thread that was open on a deleted claim, and nothing else. */
  lemma AuditExactlyOnce(db: Db, ids: set<Id>, now: string, r: AuditRow)
    requires Sound(db)
    ensures PruneBatch(db, ids, now).audit[r] == db.audit[r] + if Announces(db, ids, now, r) then 1 else 0
  {
    hide Announces, RowOf, Doomed;
    BatchIsPruned(db, ids, now);
    AnnouncedRows(db, ids, now, r);
    var open := OpenThreads(db, Doomed(db, ids));
    forall t | t in open
      ensures t in db.threads && db.threads[t].claim.Some? && db.threads[t].vendorA != db.threads[t].vendorB {
      assert ThreadFits(db, db.threads[t]);
    }
    OneRowEach(db, open, now, r);
  }
}
