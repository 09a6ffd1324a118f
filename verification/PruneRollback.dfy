/** The rollback script of a prune: replaying it after the delete restores the content
    tables exactly, keeps every prefix sound, and may be repeated or resumed. */
module PruneRollback {
  import opened Common
  import opened Prune
  import opened PruneCounts
  import opened PruneGuards

  datatype InsertOrIgnore =
    | OfIntegration(id: Id, integration: Integration)
    | OfClaim(id: Id, claim: Claim)
    | OfAttestation(id: Id, attestation: Attestation)

  // `claims_identity_key`
  predicate SameIdentity(a: Claim, b: Claim) {
    a.anchor.id == b.anchor.id && a.dataObject == b.dataObject && a.direction == b.direction
  }

  // The unique indexes an INSERT OR IGNORE yields to, beside the primary keys.
  predicate ClaimClash(db: Db, c: Claim) {
    exists k | k in db.claims :: SameIdentity(db.claims[k], c)
  }

  // `attestations_slot_key`, partial on live rows
  predicate SameLiveSlot(a: Attestation, b: Attestation) {
    a.retractedAt == None && b.retractedAt == None && a.claim == b.claim && a.source == b.source
  }

  predicate SlotClash(db: Db, a: Attestation) {
    exists k | k in db.attestations :: SameLiveSlot(db.attestations[k], a)
  }

  ghost predicate UniqueKeys(db: Db) {
    && (forall c, k {:trigger SameIdentity(db.claims[c], db.claims[k])} ::
         c in db.claims && k in db.claims && c != k ==> !SameIdentity(db.claims[c], db.claims[k]))
    && (forall a, k {:trigger SameLiveSlot(db.attestations[a], db.attestations[k])} ::
         a in db.attestations && k in db.attestations && a != k ==>
           !SameLiveSlot(db.attestations[a], db.attestations[k]))
  }

  function Run(db: Db, s: InsertOrIgnore): Db {
    match s
    case OfIntegration(id, row) =>
      if id in db.integrations then db else db.(integrations := db.integrations[id := row])
    case OfClaim(id, row) =>
      if id in db.claims || ClaimClash(db, row) then db else db.(claims := db.claims[id := row])
    case OfAttestation(id, row) =>
      if id in db.attestations || SlotClash(db, row) then db else db.(attestations := db.attestations[id := row])
  }

  /** What OR IGNORE ignores: a row whose id is taken, a claim that repeats anchor, data object and
      direction of another, a live attestation that repeats claim and source of a live one. Every
      other row is added as it is. */
  lemma IgnoredExactly(db: Db, id: Id, claim: Claim, attestation: Attestation)
    ensures Run(db, OfClaim(id, claim)) ==
      if id in db.claims || exists k :: k in db.claims && db.claims[k].anchor.id == claim.anchor.id
                                   && db.claims[k].dataObject == claim.dataObject
                                   && db.claims[k].direction == claim.direction then db
      else db.(claims := db.claims[id := claim])
    ensures Run(db, OfAttestation(id, attestation)) ==
      if id in db.attestations
        || (attestation.retractedAt == None
            && exists k :: k in db.attestations && db.attestations[k].retractedAt == None
                && db.attestations[k].claim == attestation.claim
                && db.attestations[k].source == attestation.source) then db
      else db.(attestations := db.attestations[id := attestation])
  {
  }

  // OR IGNORE does not excuse a missing parent.
  predicate ParentsPresent(db: Db, s: InsertOrIgnore) {
    match s
    case OfIntegration(_, row) => row.source in db.products && row.target in db.products
    case OfClaim(_, row) => (match row.anchor
                             case OnIntegration(i) => i in db.integrations
                             case OnPair(p) => p in db.pairs
                             case OnReach(r) => r in db.reaches)
    case OfAttestation(_, row) => row.claim in db.claims
  }

  function Replay(db: Db, script: seq<InsertOrIgnore>): Db
    decreases script
  {
    if script == [] then db else Replay(Run(db, script[0]), script[1..])
  }

  // Every statement finds its parents.
  predicate Replayable(db: Db, script: seq<InsertOrIgnore>)
    decreases script
  {
    script == [] || (ParentsPresent(db, script[0]) && Replayable(Run(db, script[0]), script[1..]))
  }

  lemma {:induction false} ReplayConcat(db: Db, a: seq<InsertOrIgnore>, b: seq<InsertOrIgnore>)
    ensures Replay(db, a + b) == Replay(Replay(db, a), b)
    ensures Replayable(db, a + b) <==> Replayable(db, a) && Replayable(Replay(db, a), b)
    decreases a
  {
    if a == [] {
      assert a + b == b;
    } else {
      assert (a + b)[1..] == a[1..] + b;
      ReplayConcat(Run(db, a[0]), a[1..], b);
    }
  }

  // ----- the script

  function Integrations(db: Db, names: seq<Id>): (r: seq<InsertOrIgnore>)
    requires forall n :: n in names ==> n in db.integrations
    ensures |r| == |names| && forall i :: 0 <= i < |r| ==> r[i] == OfIntegration(names[i], db.integrations[names[i]])
  {
    seq(|names|, i requires 0 <= i < |names| => OfIntegration(names[i], db.integrations[names[i]]))
  }

  function Claims(db: Db, names: seq<Id>): (r: seq<InsertOrIgnore>)
    requires forall n :: n in names ==> n in db.claims
    ensures |r| == |names| && forall i :: 0 <= i < |r| ==> r[i] == OfClaim(names[i], db.claims[names[i]])
  {
    seq(|names|, i requires 0 <= i < |names| => OfClaim(names[i], db.claims[names[i]]))
  }

  function Attestations(db: Db, names: seq<Id>): (r: seq<InsertOrIgnore>)
    requires forall n :: n in names ==> n in db.attestations
    ensures |r| == |names| && forall i :: 0 <= i < |r| ==> r[i] == OfAttestation(names[i], db.attestations[names[i]])
  {
    seq(|names|, i requires 0 <= i < |names| => OfAttestation(names[i], db.attestations[names[i]]))
  }

  function RequestedRows(db: Db, ids: set<Id>): set<Id> { set i | i in ids && i in db.integrations }
  function RequestedClaims(db: Db, ids: set<Id>): set<Id> { ClaimsOn(db, ids) }
  function RequestedAttestations(db: Db, ids: set<Id>): set<Id> {
    set a | a in db.attestations && db.attestations[a].claim in RequestedClaims(db, ids)
  }

  ghost predicate Lists(db: Db, ids: set<Id>, rs: seq<Id>, cs: seq<Id>, ats: seq<Id>) {
    && Ascending(rs) && Ascending(cs) && Ascending(ats)
    && Elems(rs) == RequestedRows(db, ids) && (forall n :: n in rs ==> n in db.integrations)
    && Elems(cs) == RequestedClaims(db, ids) && (forall n :: n in cs ==> n in db.claims)
    && Elems(ats) == RequestedAttestations(db, ids) && (forall n :: n in ats ==> n in db.attestations)
  }

  // Parents before children, each table in id order.
  ghost predicate IsRollback(db: Db, ids: set<Id>, script: seq<InsertOrIgnore>) {
    exists rs, cs, ats :: Lists(db, ids, rs, cs, ats) &&
      script == Integrations(db, rs) + Claims(db, cs) + Attestations(db, ats)
  }

  /** `buildRollbackSql` */
  method BuildRollback(db: Db, ids: set<Id>) returns (script: seq<InsertOrIgnore>)
    ensures IsRollback(db, ids, script)
  {
    var rs := SortedElements(RequestedRows(db, ids));
    var cs := SortedElements(RequestedClaims(db, ids));
    var ats := SortedElements(RequestedAttestations(db, ids));
    assert forall n :: n in rs ==> n in Elems(rs);
    assert forall n :: n in cs ==> n in Elems(cs);
    assert forall n :: n in ats ==> n in Elems(ats);
    assert Lists(db, ids, rs, cs, ats);
    script := Integrations(db, rs) + Claims(db, cs) + Attestations(db, ats);
  }

  // ----- states between the delete and the full restore

  // Part of `full`'s content, nothing else, and everything outside the content as it is.
  ghost predicate PartOf(d: Db, full: Db) {
    && (forall i :: i in d.integrations ==> i in full.integrations && d.integrations[i] == full.integrations[i])
    && (forall c :: c in d.claims ==> c in full.claims && d.claims[c] == full.claims[c])
    && (forall a :: a in d.attestations ==> a in full.attestations && d.attestations[a] == full.attestations[a])
    && d.products.Keys == full.products.Keys && d.pairs == full.pairs && d.reaches == full.reaches
  }

  ghost predicate ContentSound(d: Db) {
    && (forall i {:trigger EndpointsKnown(d, i)} :: i in d.integrations ==> EndpointsKnown(d, i))
    && (forall c {:trigger AnchorKnown(d, d.claims[c])} :: c in d.claims ==> AnchorKnown(d, d.claims[c]))
    && (forall a :: a in d.attestations ==> d.attestations[a].claim in d.claims)
  }

  // The statement re-creates `full`'s row, or its row is still there.
  ghost predicate Fits(d: Db, full: Db, s: InsertOrIgnore) {
    match s
    case OfIntegration(id, row) => id in full.integrations && (full.integrations[id] == row || id in d.integrations)
    case OfClaim(id, row) => id in full.claims && (full.claims[id] == row || id in d.claims)
    case OfAttestation(id, row) => id in full.attestations && (full.attestations[id] == row || id in d.attestations)
  }

  ghost predicate Present(d: Db, s: InsertOrIgnore) {
    match s
    case OfIntegration(id, _) => id in d.integrations
    case OfClaim(id, _) => id in d.claims
    case OfAttestation(id, _) => id in d.attestations
  }

  ghost predicate Grows(a: Db, b: Db) {
    a.integrations.Keys <= b.integrations.Keys && a.claims.Keys <= b.claims.Keys &&
    a.attestations.Keys <= b.attestations.Keys
    && a.products == b.products && a.pairs == b.pairs && a.reaches == b.reaches
  }

  lemma AddedIsPart(d: Db, full: Db, id: Id)
    requires PartOf(d, full) && id in full.integrations
    ensures PartOf(d.(integrations := d.integrations[id := full.integrations[id]]), full)
  {
  }

  lemma AddedIsSound(d: Db, id: Id, row: Integration)
    requires ContentSound(d) && row.source in d.products && row.target in d.products
    ensures ContentSound(d.(integrations := d.integrations[id := row]))
  {
    var d' := d.(integrations := d.integrations[id := row]);
    forall i | i in d'.integrations ensures EndpointsKnown(d', i) { if i != id { assert EndpointsKnown(d, i); } }
    forall c | c in d'.claims ensures AnchorKnown(d', d'.claims[c]) { assert AnchorKnown(d, d.claims[c]); }
  }

  lemma RunIntegration(d: Db, full: Db, s: InsertOrIgnore)
    requires s.OfIntegration? && PartOf(d, full) && ContentSound(d) && Fits(d, full, s) && ParentsPresent(d, s)
    ensures PartOf(Run(d, s), full) && ContentSound(Run(d, s)) && Grows(d, Run(d, s)) && Present(Run(d, s), s)
  {
    hide PartOf, ContentSound;
    if s.id !in d.integrations {
      AddedIsPart(d, full, s.id);
      AddedIsSound(d, s.id, s.integration);
    }
  }

  lemma RunClaim(d: Db, full: Db, s: InsertOrIgnore)
    requires s.OfClaim? && PartOf(d, full) && ContentSound(d)
    requires UniqueKeys(full) && Fits(d, full, s) && ParentsPresent(d, s)
    ensures PartOf(Run(d, s), full) && ContentSound(Run(d, s)) && Grows(d, Run(d, s)) && Present(Run(d, s), s)
  {
    var d' := Run(d, s);
    if s.id !in d.claims {
      forall k | k in d.claims ensures !SameIdentity(d.claims[k], s.claim) {
        assert !SameIdentity(full.claims[k], full.claims[s.id]);
      }
    }
    forall i | i in d'.integrations ensures EndpointsKnown(d', i) { assert EndpointsKnown(d, i); }
    forall c | c in d'.claims ensures AnchorKnown(d', d'.claims[c]) {
      if c in d.claims { assert AnchorKnown(d, d.claims[c]); }
    }
  }

  lemma RunAttestation(d: Db, full: Db, s: InsertOrIgnore)
    requires s.OfAttestation? && PartOf(d, full) && ContentSound(d)
    requires UniqueKeys(full) && Fits(d, full, s) && ParentsPresent(d, s)
    ensures PartOf(Run(d, s), full) && ContentSound(Run(d, s)) && Grows(d, Run(d, s)) && Present(Run(d, s), s)
  {
    var d' := Run(d, s);
    if s.id !in d.attestations {
      forall k | k in d.attestations ensures !SameLiveSlot(d.attestations[k], s.attestation) {
        assert !SameLiveSlot(full.attestations[k], full.attestations[s.id]);
      }
    }
    forall i | i in d'.integrations ensures EndpointsKnown(d', i) { assert EndpointsKnown(d, i); }
    forall c | c in d'.claims ensures AnchorKnown(d', d'.claims[c]) { assert AnchorKnown(d, d.claims[c]); }
  }

  lemma RunKeeps(d: Db, full: Db, s: InsertOrIgnore)
    requires PartOf(d, full) && ContentSound(d) && UniqueKeys(full) && Fits(d, full, s) && ParentsPresent(d, s)
    ensures PartOf(Run(d, s), full) && ContentSound(Run(d, s)) && Grows(d, Run(d, s)) && Present(Run(d, s), s)
  {
    match s
    case OfIntegration(_, _) => RunIntegration(d, full, s);
    case OfClaim(_, _) => RunClaim(d, full, s);
    case OfAttestation(_, _) => RunAttestation(d, full, s);
  }

  lemma GrowsStillFits(d: Db, d': Db, full: Db, s: InsertOrIgnore)
    requires Fits(d, full, s) && Grows(d, d')
    ensures Fits(d', full, s) && (ParentsPresent(d, s) ==> ParentsPresent(d', s))
  {
  }

  lemma GrowsTransitive(a: Db, b: Db, c: Db)
    requires Grows(a, b) && Grows(b, c)
    ensures Grows(a, c)
    ensures forall s :: Present(a, s) ==> Present(b, s)
    ensures forall s :: Present(b, s) ==> Present(c, s)
  {
  }

  // A run of statements whose parents are all there from the start.
  lemma {:induction false} ReplayRuns(d: Db, full: Db, script: seq<InsertOrIgnore>)
    requires PartOf(d, full) && ContentSound(d) && UniqueKeys(full)
    requires forall i :: 0 <= i < |script| ==> Fits(d, full, script[i]) && ParentsPresent(d, script[i])
    ensures Replayable(d, script)
    ensures PartOf(Replay(d, script), full) && ContentSound(Replay(d, script)) && Grows(d, Replay(d, script))
    ensures forall i :: 0 <= i < |script| ==> Present(Replay(d, script), script[i])
    decreases script
  {
    hide PartOf, ContentSound, UniqueKeys, Fits, ParentsPresent, Present, Run;
    if script != [] {
      RunKeeps(d, full, script[0]);
      var d' := Run(d, script[0]);
      forall i | 0 <= i < |script[1..]| ensures Fits(d', full, script[1..][i]) && ParentsPresent(d', script[1..][i]) {
        assert script[1..][i] == script[i + 1];
        GrowsStillFits(d, d', full, script[i + 1]);
      }
      ReplayRuns(d', full, script[1..]);
      GrowsTransitive(d, d', Replay(d, script));
      forall i | 0 <= i < |script| ensures Present(Replay(d, script), script[i]) {
        if i > 0 { assert script[i] == script[1..][i - 1]; }
      }
    }
  }

  // What is missing from `d` was on requested rows, and what the script would change is still there.
  ghost predicate Restorable(plan: Db, full: Db, d: Db, ids: set<Id>) {
    && PartOf(d, full) && ContentSound(d)
    && (forall i :: i in full.integrations && i !in d.integrations ==> i in ids)
    && (forall c :: c in full.claims && c !in d.claims ==> c in RequestedClaims(plan, ids))
    && (forall a :: a in full.attestations && a !in d.attestations ==> a in RequestedAttestations(plan, ids))
    && (forall i :: i in plan.integrations && i in full.integrations && plan.integrations[i] != full.integrations[i] ==>
         i in d.integrations)
  }

  ghost predicate SameTables(a: Db, b: Db) {
    a.integrations == b.integrations && a.claims == b.claims && a.attestations == b.attestations
  }

  lemma GrowsStaysRestorable(plan: Db, full: Db, d: Db, d': Db, ids: set<Id>)
    requires Restorable(plan, full, d, ids) && Grows(d, d') && PartOf(d', full) && ContentSound(d')
    ensures Restorable(plan, full, d', ids)
  {
  }

  // Each statement of the script re-creates a row of `full`, or finds it still there.
  lemma IntegrationFits(plan: Db, full: Db, d: Db, ids: set<Id>, n: Id)
    requires Raced(plan, full) && Restorable(plan, full, d, ids) && n in plan.integrations
    ensures Fits(d, full, OfIntegration(n, plan.integrations[n]))
  {
  }

  lemma ClaimFits(plan: Db, full: Db, d: Db, n: Id)
    requires Raced(plan, full) && n in plan.claims
    ensures n in full.claims && plan.claims[n] == full.claims[n]
    ensures Fits(d, full, OfClaim(n, plan.claims[n]))
  {
  }

  lemma AttestationFits(plan: Db, full: Db, d: Db, n: Id)
    requires Raced(plan, full) && n in plan.attestations
    ensures n in full.attestations && plan.attestations[n] == full.attestations[n]
    ensures Fits(d, full, OfAttestation(n, plan.attestations[n]))
  {
  }

  // … and finds its parents, once the tables above are back.
  lemma IntegrationHasParents(plan: Db, full: Db, d: Db, ids: set<Id>, n: Id)
    requires Raced(plan, full) && Sound(full) && Restorable(plan, full, d, ids) && n in plan.integrations
    ensures ParentsPresent(d, OfIntegration(n, plan.integrations[n]))
  {
    assert EndpointsKnown(full, n);
  }

  lemma ClaimHasParent(plan: Db, full: Db, d: Db, n: Id)
    requires Raced(plan, full) && Sound(full) && PartOf(d, full)
    requires d.integrations == full.integrations && n in plan.claims
    ensures ParentsPresent(d, OfClaim(n, plan.claims[n]))
  {
    assert AnchorKnown(full, full.claims[n]);
  }

  lemma AttestationHasParent(plan: Db, full: Db, d: Db, n: Id)
    requires Raced(plan, full) && Sound(full) && d.claims == full.claims && n in plan.attestations
    ensures ParentsPresent(d, OfAttestation(n, plan.attestations[n]))
  {
  }

  lemma AllBack<T>(part: map<Id, T>, full: map<Id, T>)
    requires forall n :: n in part ==> n in full && part[n] == full[n]
    requires forall n :: n in full ==> n in part
    ensures part == full
  {
  }

  lemma RestorableParts(plan: Db, full: Db, d: Db, ids: set<Id>)
    requires Restorable(plan, full, d, ids)
    ensures PartOf(d, full) && ContentSound(d)
    ensures forall i :: i in full.integrations && i !in d.integrations ==> i in ids
    ensures forall c :: c in full.claims && c !in d.claims ==> c in RequestedClaims(plan, ids)
    ensures forall a :: a in full.attestations && a !in d.attestations ==> a in RequestedAttestations(plan, ids)
  {
  }

  lemma IntegrationsBack(plan: Db, full: Db, d: Db, ids: set<Id>, rs: seq<Id>)
    requires Raced(plan, full) && Sound(full) && UniqueKeys(full) && Restorable(plan, full, d, ids)
    requires Elems(rs) == RequestedRows(plan, ids) && forall n :: n in rs ==> n in plan.integrations
    ensures Replayable(d, Integrations(plan, rs)) && Restorable(plan, full, Replay(d, Integrations(plan, rs)), ids)
    ensures Grows(d, Replay(d, Integrations(plan, rs)))
    ensures Replay(d, Integrations(plan, rs)).integrations == full.integrations
  {
    hide Sound, UniqueKeys, Restorable, ContentSound, Replay, Replayable, Fits, ParentsPresent;
    var script := Integrations(plan, rs);
    RestorableParts(plan, full, d, ids);
    forall i | 0 <= i < |script| ensures Fits(d, full, script[i]) && ParentsPresent(d, script[i]) {
      IntegrationFits(plan, full, d, ids, rs[i]);
      IntegrationHasParents(plan, full, d, ids, rs[i]);
    }
    ReplayRuns(d, full, script);
    var d' := Replay(d, script);
    GrowsStaysRestorable(plan, full, d, d', ids);
    forall n | n in full.integrations ensures n in d'.integrations {
      if n !in d.integrations {
        assert n in Elems(rs);
        var i :| 0 <= i < |rs| && rs[i] == n;
        assert Present(d', script[i]);
      }
    }
    AllBack(d'.integrations, full.integrations);
  }

  lemma ClaimsBack(plan: Db, full: Db, d: Db, ids: set<Id>, cs: seq<Id>)
    requires Raced(plan, full) && Sound(full) && UniqueKeys(full) && Restorable(plan, full, d, ids)
    requires d.integrations == full.integrations
    requires Elems(cs) == RequestedClaims(plan, ids) && forall n :: n in cs ==> n in plan.claims
    ensures Replayable(d, Claims(plan, cs)) && Restorable(plan, full, Replay(d, Claims(plan, cs)), ids)
    ensures Replay(d, Claims(plan, cs)).integrations == full.integrations
    ensures Replay(d, Claims(plan, cs)).claims == full.claims
  {
    hide Raced, Sound, UniqueKeys, Restorable, ContentSound, Replay, Replayable, Fits, ParentsPresent, RequestedClaims,
         RequestedAttestations;
    var script := Claims(plan, cs);
    RestorableParts(plan, full, d, ids);
    forall i | 0 <= i < |script| ensures Fits(d, full, script[i]) && ParentsPresent(d, script[i]) {
      ClaimFits(plan, full, d, cs[i]);
      ClaimHasParent(plan, full, d, cs[i]);
    }
    ReplayRuns(d, full, script);
    var d' := Replay(d, script);
    GrowsStaysRestorable(plan, full, d, d', ids);
    forall n | n in full.claims ensures n in d'.claims {
      if n !in d.claims {
        assert n in Elems(cs);
        var i :| 0 <= i < |cs| && cs[i] == n;
        assert Present(d', script[i]);
      }
    }
    AllBack(d'.claims, full.claims);
    AllBack(d'.integrations, full.integrations);
  }

  lemma AttestationsBack(plan: Db, full: Db, d: Db, ids: set<Id>, ats: seq<Id>)
    requires Raced(plan, full) && Sound(full) && UniqueKeys(full) && Restorable(plan, full, d, ids)
    requires d.integrations == full.integrations && d.claims == full.claims
    requires Elems(ats) == RequestedAttestations(plan, ids) && forall n :: n in ats ==> n in plan.attestations
    ensures Replayable(d, Attestations(plan, ats)) && Restorable(plan, full, Replay(d, Attestations(plan, ats)), ids)
    ensures SameTables(Replay(d, Attestations(plan, ats)), full)
  {
    hide Raced, Sound, UniqueKeys, Restorable, ContentSound, Replay, Replayable, Fits, ParentsPresent, RequestedClaims,
         RequestedAttestations;
    var script := Attestations(plan, ats);
    RestorableParts(plan, full, d, ids);
    forall i | 0 <= i < |script| ensures Fits(d, full, script[i]) && ParentsPresent(d, script[i]) {
      AttestationFits(plan, full, d, ats[i]);
      AttestationHasParent(plan, full, d, ats[i]);
    }
    ReplayRuns(d, full, script);
    var d' := Replay(d, script);
    GrowsStaysRestorable(plan, full, d, d', ids);
    forall n | n in full.attestations ensures n in d'.attestations {
      if n !in d.attestations {
        assert n in Elems(ats);
        var i :| 0 <= i < |ats| && ats[i] == n;
        assert Present(d', script[i]);
      }
    }
    AllBack(d'.attestations, full.attestations);
    AllBack(d'.claims, full.claims);
    AllBack(d'.integrations, full.integrations);
  }

  /** From any partly restored state the whole script is replayable and restores the content. */
  lemma ReplayRestores(plan: Db, full: Db, d: Db, ids: set<Id>, script: seq<InsertOrIgnore>)
    requires Raced(plan, full) && Sound(full) && UniqueKeys(full) && Restorable(plan, full, d, ids)
    requires IsRollback(plan, ids, script)
    ensures Replayable(d, script) && SameTables(Replay(d, script), full)
    ensures Restorable(plan, full, Replay(d, script), ids)
  {
    hide Raced, Sound, UniqueKeys, Restorable, Integrations, Claims, Attestations, Replay, Replayable, RequestedRows,
         RequestedClaims, RequestedAttestations, Grows;
    var rs, cs, ats :| Lists(plan, ids, rs, cs, ats)
      && script == Integrations(plan, rs) + Claims(plan, cs) + Attestations(plan, ats);
    var a, b, c := Integrations(plan, rs), Claims(plan, cs), Attestations(plan, ats);
    ReplayConcat(d, a + b, c);
    ReplayConcat(d, a, b);
    IntegrationsBack(plan, full, d, ids, rs);
    ClaimsBack(plan, full, Replay(d, a), ids, cs);
    AttestationsBack(plan, full, Replay(d, a + b), ids, ats);
  }

  lemma SoundIsContentSound(d: Db)
    requires Sound(d)
    ensures ContentSound(d)
  {
  }

  // The batch, seen from the content tables.
  lemma PrunedParts(db: Db, ids: set<Id>, now: string)
    requires Sound(db)
    ensures var after := PruneBatch(db, ids, now);
      && PartOf(after, db)
      && (forall i :: i in db.integrations && i !in after.integrations ==> i in Deletable(db, ids))
      && (forall c :: c in db.claims && c !in after.claims ==> c in Doomed(db, ids))
      && (forall a :: a in db.attestations && a !in after.attestations ==> db.attestations[a].claim in Doomed(db, ids))
      && (forall i :: i in db.integrations && db.integrations[i].claimedAt.Some? ==> i in after.integrations)
  {
    BatchIsPruned(db, ids, now);
  }

  /** The delete leaves a restorable state, whoever claimed rows since the plan. */
  lemma PrunedIsRestorable(plan: Db, db: Db, ids: set<Id>, now: string)
    requires Raced(plan, db) && Sound(db)
    ensures Restorable(plan, db, PruneBatch(db, ids, now), ids)
  {
    hide PruneBatch, Sound, ContentSound, PartOf;
    PrunedParts(db, ids, now);
    BatchKeepsSound(db, ids, now);
    SoundIsContentSound(PruneBatch(db, ids, now));
  }

  // A prefix of a replayable script only grows the restorable state.
  lemma {:induction false} PrefixRestorable(plan: Db, full: Db, d: Db, ids: set<Id>, script: seq<InsertOrIgnore>,
                                            k: nat)
    requires UniqueKeys(full) && Restorable(plan, full, d, ids) && Replayable(d, script) && k <= |script|
    requires forall i :: 0 <= i < |script| ==> Fits(d, full, script[i])
    ensures Restorable(plan, full, Replay(d, script[..k]), ids)
    decreases script
  {
    hide PartOf, ContentSound, UniqueKeys, Fits, ParentsPresent, Present, Run, Restorable;
    if k > 0 {
      var d' := Run(d, script[0]);
      RestorableParts(plan, full, d, ids);
      RunKeeps(d, full, script[0]);
      GrowsStaysRestorable(plan, full, d, d', ids);
      assert script[..k][1..] == script[1..][..k - 1];
      forall i | 0 <= i < |script[1..]| ensures Fits(d', full, script[1..][i]) {
        assert script[1..][i] == script[i + 1];
        GrowsStillFits(d, d', full, script[i + 1]);
      }
      PrefixRestorable(plan, full, d', ids, script[1..], k - 1);
    }
  }

  lemma ScriptFits(plan: Db, full: Db, d: Db, ids: set<Id>, script: seq<InsertOrIgnore>, i: nat)
    requires Raced(plan, full) && Restorable(plan, full, d, ids) && IsRollback(plan, ids, script) && i < |script|
    ensures Fits(d, full, script[i])
  {
  }

  lemma RenewedIsRestorable(plan: Db, full: Db, d: Db, ids: set<Id>, affected: set<Id>)
    requires Restorable(plan, full, d, ids)
    ensures Restorable(plan, full, CountsRenewed(d, affected), ids)
  {
    hide LiveEdgeCount;
    var renewed := CountsRenewed(d, affected);
    forall i | i in renewed.integrations ensures EndpointsKnown(renewed, i) { assert EndpointsKnown(d, i); }
    forall c | c in renewed.claims ensures AnchorKnown(renewed, renewed.claims[c]) {
      assert AnchorKnown(d, d.claims[c]);
    }
  }

  /** Rollback undoes the prune. Replaying the plan's script after the delete and the recount
      restores integrations, claims and attestations exactly; a replay stopped after any `k`
      statements is sound, and running the whole script again from there, or a second time
      after it finished, gives the same tables. */
  lemma RollbackUndoesPrune(plan: Db, db: Db, ids: set<Id>, now: string, affected: seq<Id>,
                            script: seq<InsertOrIgnore>, k: nat)
    requires Raced(plan, db) && Sound(db) && UniqueKeys(db) && IsRollback(plan, ids, script) && k <= |script|
    ensures var after := Recount(PruneBatch(db, ids, now), affected);
      && Replayable(after, script) && SameTables(Replay(after, script), db)
      && ContentSound(Replay(after, script[..k]))
      && Replayable(Replay(after, script[..k]), script) && SameTables(Replay(Replay(after, script[..k]), script), db)
  {
    hide Raced, Sound, UniqueKeys, PruneBatch, IsRollback, Replay, Replayable, SameTables, Fits, Recount, CountsRenewed;
    var after := Recount(PruneBatch(db, ids, now), affected);
    PrunedIsRestorable(plan, db, ids, now);
    RecountMeans(PruneBatch(db, ids, now), affected);
    RenewedIsRestorable(plan, db, PruneBatch(db, ids, now), ids, Elems(affected));
    ReplayRestores(plan, db, after, ids, script);
    forall i | 0 <= i < |script| ensures Fits(after, db, script[i]) { ScriptFits(plan, db, after, ids, script, i); }
    PrefixRestorable(plan, db, after, ids, script, k);
    ReplayRestores(plan, db, Replay(after, script[..k]), ids, script);
  }

  // ----- what a rollback does not bring back

  ghost predicate SameSurroundings(a: Db, b: Db) {
    && a.pairs == b.pairs && a.reaches == b.reaches && a.products == b.products
    && a.threads == b.threads && a.audit == b.audit
  }

  lemma RunLeaves(d: Db, s: InsertOrIgnore)
    ensures SameSurroundings(Run(d, s), d)
  {
    hide ClaimClash, SlotClash;
  }

  // The script touches nothing but the three content tables.
  lemma {:induction false} ReplayLeaves(d: Db, script: seq<InsertOrIgnore>)
    ensures SameSurroundings(Replay(d, script), d)
    decreases script
  {
    hide Run;
    if script != [] {
      RunLeaves(d, script[0]);
      ReplayLeaves(Run(d, script[0]), script[1..]);
    }
  }

  lemma LiveCountRestored(db: Db, end: Db, p: Id)
    requires end.integrations == db.integrations && end.pairs == db.pairs
    ensures LiveEdgeCount(end, p) == LiveEdgeCount(db, p)
  {
  }

  // Whether the count of `p` is right once the deleted rows are back.
  lemma CountAfterRollback(db: Db, ids: set<Id>, now: string, affected: seq<Id>, end: Db, p: Id)
    requires CountsRight(db) && Covers(db, ids, Elems(affected)) && p in db.products
    requires end.integrations == db.integrations && end.pairs == db.pairs
    requires end.products == Recount(PruneBatch(db, ids, now), affected).products
    ensures p in end.products && end.products[p].integrationCount <= LiveEdgeCount(end, p)
    ensures end.products[p].integrationCount == LiveEdgeCount(end, p) <==>
      forall i :: i in Deletable(db, ids) && Touches(db, i, p) ==> db.integrations[i].retiredAt.Some?
  {
    hide PruneBatch, Recount, LiveEdgeCount;
    var pruned := PruneBatch(db, ids, now);
    ExactlyTheDoomedGo(db, ids, now);
    RecountMeans(pruned, affected);
    LiveCountRestored(db, end, p);
    DeleteLowersCount(db, pruned, Deletable(db, ids), p);
    if p !in Elems(affected) {
      forall i | i in Deletable(db, ids) ensures !Touches(db, i, p) {
      }
    }
  }

  lemma OnlyContentChanges(db: Db, ids: set<Id>, now: string)
    ensures var after := PruneBatch(db, ids, now);
      after == db.(integrations := after.integrations, claims := after.claims, attestations := after.attestations,
                   threads := after.threads, audit := after.audit)
  {
    BatchIsPruned(db, ids, now);
  }

  lemma ThreadsBack(db: Db, ids: set<Id>, now: string)
    requires Sound(db)
    ensures PruneBatch(db, ids, now).threads == db.threads <==>
      forall t :: t in db.threads ==> !OnClaims(db.threads[t], Doomed(db, ids))
  {
    hide Doomed;
    BatchIsPruned(db, ids, now);
    forall t | t in db.threads && OnClaims(db.threads[t], Doomed(db, ids))
      ensures PruneBatch(db, ids, now).threads[t] != db.threads[t]
    {
      ThreadsDetached(db, ids, now, t);
    }
  }

  /** What a replay leaves as the prune left it: every thread, audit row and product. So a count
      is never too high and may be too low: all counts are right if and only if every deleted
      row was retired. And the threads are back if and only if none was on a deleted claim. */
  lemma RollbackLeaves(plan: Db, db: Db, ids: set<Id>, now: string, affected: seq<Id>, script: seq<InsertOrIgnore>)
    requires Raced(plan, db) && Sound(db) && UniqueKeys(db) && IsRollback(plan, ids, script)
    requires CountsRight(db) && Covers(db, ids, Elems(affected))
    ensures var pruned := PruneBatch(db, ids, now);
            var end := Replay(Recount(pruned, affected), script);
            && end == db.(threads := pruned.threads, audit := pruned.audit, products := end.products)
            && end.products.Keys == db.products.Keys
            && (forall p :: p in db.products ==> end.products[p].integrationCount <= LiveEdgeCount(end, p))
            && (CountsRight(end) <==> forall i :: i in Deletable(db, ids) ==> db.integrations[i].retiredAt.Some?)
            && (end.threads == db.threads <==>
                  forall t :: t in db.threads ==> !OnClaims(db.threads[t], Doomed(db, ids)))
  {
    hide Raced, UniqueKeys, PruneBatch, IsRollback, Replay, Recount, Covers, LiveEdgeCount, Doomed;
    var pruned := PruneBatch(db, ids, now);
    var after := Recount(pruned, affected);
    var end := Replay(after, script);
    RollbackUndoesPrune(plan, db, ids, now, affected, script, 0);
    ReplayLeaves(after, script);
    RecountMeans(pruned, affected);
    OnlyContentChanges(db, ids, now);
    forall p | p in db.products
      ensures end.products[p].integrationCount <= LiveEdgeCount(end, p)
      ensures end.products[p].integrationCount == LiveEdgeCount(end, p) <==>
        forall i :: i in Deletable(db, ids) && Touches(db, i, p) ==> db.integrations[i].retiredAt.Some?
    {
      CountAfterRollback(db, ids, now, affected, end, p);
    }
    forall i | i in Deletable(db, ids) ensures exists p :: p in db.products && Touches(db, i, p) {
      assert EndpointsKnown(db, i);
      assert Touches(db, i, db.integrations[i].source);
    }
    ThreadsBack(db, ids, now);
  }
}
