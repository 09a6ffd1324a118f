/** Agreement computed from attestations (packages/shared/src/agreement.ts): one stance per
    distinct vendor identity, and the states that follow. */
module Agreement {
  import opened Common

  // An ISO instant as epoch milliseconds, or a text nobody can read.
  datatype Stamp = Instant(ms: int) | Unreadable

  /** One attestation row. `vendor` is None for the AECi seed and for a row whose vendor was
      deleted (`ON DELETE SET NULL`). */
  datatype Attestation = Attestation(
    source: string,
    asserted: bool,
    vendor: Option<string>,
    createdAt: Stamp,
    retractedAt: Option<Stamp>)

  datatype State = Unverified | SingleSource | Confirmed | Conflict

  // A voter: a vendor id, or the one bucket of unattributable votes.
  type Voter = Option<string>

  predicate IsVote(a: Attestation) {
    a.source != "aeci" && a.retractedAt == None
  }

  ghost predicate Votes(rows: seq<Attestation>, v: Voter, stance: bool) {
    exists i :: 0 <= i < |rows| && IsVote(rows[i]) && rows[i].vendor == v && rows[i].asserted == stance
  }

  ghost predicate Denies(rows: seq<Attestation>, v: Voter) { Votes(rows, v, false) }

  // Any deny wins over the voter's own affirmations.
  ghost predicate Affirms(rows: seq<Attestation>, v: Voter) { Votes(rows, v, true) && !Votes(rows, v, false) }

  ghost predicate SomeDenies(rows: seq<Attestation>) { exists v :: Denies(rows, v) }
  ghost predicate SomeAffirms(rows: seq<Attestation>) { exists v :: Affirms(rows, v) }
  ghost predicate TwoAffirm(rows: seq<Attestation>) { exists v, w :: v != w && Affirms(rows, v) && Affirms(rows, w) }

  /** The documented table, by distinct identities. */
  ghost function Agreed(rows: seq<Attestation>): State {
    if !SomeAffirms(rows) then Unverified
    else if SomeDenies(rows) then Conflict
    else if TwoAffirm(rows) then Confirmed
    else SingleSource
  }

  // ----- tallyVoters

  ghost predicate TallyOf(rows: seq<Attestation>, voters: map<Voter, bool>) {
    && (forall v :: v in voters <==> Votes(rows, v, true) || Votes(rows, v, false))
    && forall v :: v in voters ==> (voters[v] <==> !Votes(rows, v, false))
  }

  lemma VotesGrow(rows: seq<Attestation>, a: Attestation, v: Voter, stance: bool)
    ensures Votes(rows + [a], v, stance) <==>
      Votes(rows, v, stance) || (IsVote(a) && a.vendor == v && a.asserted == stance)
  {
    var all := rows + [a];
    assert all[|rows|] == a;
    assert forall i :: 0 <= i < |rows| ==> all[i] == rows[i];
    if Votes(rows, v, stance) {
      var i :| 0 <= i < |rows| && IsVote(rows[i]) && rows[i].vendor == v && rows[i].asserted == stance;
      assert IsVote(all[i]);
    }
  }

  lemma TallyGrows(rows: seq<Attestation>, a: Attestation, voters: map<Voter, bool>)
    requires TallyOf(rows, voters)
    ensures !IsVote(a) ==> TallyOf(rows + [a], voters)
    ensures IsVote(a) ==>
      TallyOf(rows + [a], voters[a.vendor := (if a.vendor in voters then voters[a.vendor] else true) && a.asserted])
  {
    forall v, stance ensures Votes(rows + [a], v, stance) <==>
      Votes(rows, v, stance) || (IsVote(a) && a.vendor == v && a.asserted == stance)
    {
      VotesGrow(rows, a, v, stance);
    }
  }

  /** `tallyVoters`: one stance per identity, affirming only if every live vote asserts. */
  method TallyVoters(rows: seq<Attestation>) returns (voters: map<Voter, bool>)
    ensures TallyOf(rows, voters)
  {
    voters := map[];
    for i := 0 to |rows|
      invariant TallyOf(rows[..i], voters)
    {
      TallyGrows(rows[..i], rows[i], voters);
      assert rows[..i + 1] == rows[..i] + [rows[i]];
      if rows[i].source == "aeci" || rows[i].retractedAt != None {
        continue;
      }
      var identity := rows[i].vendor;
      voters := voters[identity := (if identity in voters then voters[identity] else true) && rows[i].asserted];
    }
    assert rows[..|rows|] == rows;
  }

  // ----- computeAgreement

  // The voters counted so far with the given stance.
  ghost function Settled(voters: map<Voter, bool>, left: set<Voter>, stance: bool): set<Voter> {
    set v | v in voters && v !in left && voters[v] == stance
  }

  lemma SettleOne(voters: map<Voter, bool>, left: set<Voter>, v: Voter, stance: bool)
    requires v in left && left <= voters.Keys
    ensures |Settled(voters, left - {v}, stance)|
      == |Settled(voters, left, stance)| + if voters[v] == stance then 1 else 0
  {
    assert Settled(voters, left - {v}, stance)
      == Settled(voters, left, stance) + if voters[v] == stance then {v} else {};
  }

  lemma TwoMembers<T>(s: set<T>)
    ensures |s| >= 1 <==> exists v :: v in s
    ensures |s| >= 2 <==> exists v, w :: v != w && v in s && w in s
  {
    if |s| >= 2 {
      var v :| v in s;
      assert |s - {v}| >= 1;
      var w :| w in s - {v};
    }
    if v, w :| v != w && v in s && w in s {
      assert {v, w} <= s && |{v, w}| == 2;
      assert s == {v, w} + (s - {v, w});
    }
  }

  lemma CountsDecide(rows: seq<Attestation>, voters: map<Voter, bool>, affirming: nat, denying: nat)
    requires TallyOf(rows, voters)
    requires affirming == |Settled(voters, {}, true)| && denying == |Settled(voters, {}, false)|
    ensures affirming >= 1 <==> SomeAffirms(rows)
    ensures affirming >= 2 <==> TwoAffirm(rows)
    ensures denying > 0 <==> SomeDenies(rows)
  {
    var yes, no := Settled(voters, {}, true), Settled(voters, {}, false);
    forall v ensures v in yes <==> Affirms(rows, v) { }
    forall v ensures v in no <==> Denies(rows, v) { }
    TwoMembers(yes);
    TwoMembers(no);
    if SomeAffirms(rows) { var v :| Affirms(rows, v); assert v in yes; }
    if SomeDenies(rows) { var v :| Denies(rows, v); assert v in no; }
    if TwoAffirm(rows) { var v, w :| v != w && Affirms(rows, v) && Affirms(rows, w); assert v in yes && w in yes; }
    if affirming >= 2 { var v, w :| v != w && v in yes && w in yes; assert Affirms(rows, v) && Affirms(rows, w); }
    if affirming >= 1 { var v :| v in yes; assert Affirms(rows, v); }
    if denying > 0 { var v :| v in no; assert Denies(rows, v); }
  }

  /** `computeAgreement` decides the documented table. */
  method ComputeAgreement(rows: seq<Attestation>) returns (state: State)
    ensures state == Agreed(rows)
  {
    var affirming, denying := 0, 0;
    var voters := TallyVoters(rows);
    var left := voters.Keys;
    assert Settled(voters, left, true) == Settled(voters, left, false) == {};
    while left != {}
      invariant left <= voters.Keys
      invariant affirming == |Settled(voters, left, true)| && denying == |Settled(voters, left, false)|
      decreases left
    {
      var v :| v in left;
      SettleOne(voters, left, v, true);
      SettleOne(voters, left, v, false);
      if voters[v] { affirming := affirming + 1; } else { denying := denying + 1; }
      left := left - {v};
    }
    CountsDecide(rows, voters, affirming, denying);
    if affirming >= 2 { return if denying > 0 then Conflict else Confirmed; }
    if affirming == 1 { return if denying > 0 then Conflict else SingleSource; }
    return Unverified;
  }

  /** `isClaimRefuted`: somebody votes, and everybody who votes denies. */
  method IsClaimRefuted(rows: seq<Attestation>) returns (refuted: bool)
    ensures refuted <==> SomeDenies(rows) && !SomeAffirms(rows)
    ensures refuted ==> Agreed(rows) == Unverified
  {
    var voters := TallyVoters(rows);
    if |voters| == 0 {
      assert forall v :: v !in voters.Keys;
      return false;
    }
    var left := voters.Keys;
    ghost var some :| some in voters;
    while left != {}
      invariant left <= voters.Keys && forall v :: v in voters && v !in left ==> !voters[v]
      decreases left
    {
      var v :| v in left;
      if voters[v] {
        assert Affirms(rows, v);
        return false;
      }
      left := left - {v};
    }
    assert Denies(rows, some);
    return true;
  }

  // ----- isClaimPubliclyBacked

  ghost predicate LiveSeed(rows: seq<Attestation>) {
    exists i :: 0 <= i < |rows| && rows[i].source == "aeci" && rows[i].retractedAt == None
  }

  /** A vendor-added claim is public while AECi or a vendor stands behind it; without a live
      AECi seed that is exactly when its agreement is not `unverified`. */
  method IsClaimPubliclyBacked(origin: string, rows: seq<Attestation>) returns (public: bool)
    ensures origin != "vendor" ==> public
    ensures origin == "vendor" ==> (public <==> LiveSeed(rows) || SomeAffirms(rows))
    ensures origin == "vendor" && !LiveSeed(rows) ==> (public <==> Agreed(rows) != Unverified)
  {
    if origin != "vendor" {
      return true;
    }
    for i := 0 to |rows|
      invariant forall j :: 0 <= j < i ==> !(rows[j].source == "aeci" && rows[j].retractedAt == None)
    {
      if rows[i].source == "aeci" && rows[i].retractedAt == None {
        return true;
      }
    }
    var voters := TallyVoters(rows);
    var left := voters.Keys;
    while left != {}
      invariant left <= voters.Keys && forall v :: v in voters && v !in left ==> !voters[v]
      decreases left
    {
      var v :| v in left;
      if voters[v] {
        assert Affirms(rows, v);
        return true;
      }
      left := left - {v};
    }
    return false;
  }

  // ----- what agreement does not depend on

  // The same votes, whatever their order and multiplicity.
  ghost predicate SameVotes(a: seq<Attestation>, b: seq<Attestation>) {
    forall v, stance :: Votes(a, v, stance) <==> Votes(b, v, stance)
  }

  lemma SameVotesAgree(a: seq<Attestation>, b: seq<Attestation>)
    requires SameVotes(a, b)
    ensures Agreed(a) == Agreed(b)
  {
    forall v ensures (Affirms(a, v) <==> Affirms(b, v)) && (Denies(a, v) <==> Denies(b, v)) {
      assert Votes(a, v, true) <==> Votes(b, v, true);
      assert Votes(a, v, false) <==> Votes(b, v, false);
    }
  }

  /** Only the set of live vendor rows matters: order, duplicates, AECi seeds and retracted
      rows do not. */
  lemma AgreementIgnoresTheRest(a: seq<Attestation>, b: seq<Attestation>)
    requires forall x :: IsVote(x) ==> (x in a <==> x in b)
    ensures Agreed(a) == Agreed(b)
  {
    forall v, stance ensures Votes(a, v, stance) <==> Votes(b, v, stance) {
      if Votes(a, v, stance) {
        var i :| 0 <= i < |a| && IsVote(a[i]) && a[i].vendor == v && a[i].asserted == stance;
        assert a[i] in b;
      }
      if Votes(b, v, stance) {
        var i :| 0 <= i < |b| && IsVote(b[i]) && b[i].vendor == v && b[i].asserted == stance;
        assert b[i] in a;
      }
    }
    SameVotesAgree(a, b);
  }

  // ----- merging identities

  function Merge(rows: seq<Attestation>, f: Voter -> Voter): (r: seq<Attestation>)
    ensures |r| == |rows| && forall i :: 0 <= i < |r| ==> r[i] == rows[i].(vendor := f(rows[i].vendor))
  {
    seq(|rows|, i requires 0 <= i < |rows| => rows[i].(vendor := f(rows[i].vendor)))
  }

  lemma MergedVote(rows: seq<Attestation>, f: Voter -> Voter, m: Voter, stance: bool)
    ensures Votes(Merge(rows, f), m, stance) <==> exists v :: f(v) == m && Votes(rows, v, stance)
  {
  }

  // A merged affirming voter had an affirming voter behind it.
  lemma MergedAffirms(rows: seq<Attestation>, f: Voter -> Voter, m: Voter) returns (v: Voter)
    requires Affirms(Merge(rows, f), m)
    ensures f(v) == m && Affirms(rows, v)
  {
    MergedVote(rows, f, m, true);
    MergedVote(rows, f, m, false);
    v :| f(v) == m && Votes(rows, v, true);
  }

  lemma MergedDenies(rows: seq<Attestation>, f: Voter -> Voter)
    ensures SomeDenies(Merge(rows, f)) <==> SomeDenies(rows)
  {
    if SomeDenies(Merge(rows, f)) {
      var m :| Denies(Merge(rows, f), m);
      MergedVote(rows, f, m, false);
      var v :| f(v) == m && Votes(rows, v, false);
      assert Denies(rows, v);
    }
    if SomeDenies(rows) {
      var v :| Denies(rows, v);
      MergedVote(rows, f, f(v), false);
      assert Denies(Merge(rows, f), f(v));
    }
  }

  /** Whatever identities are merged, or nulled into the unattributed bucket, the merged rows
      reach `confirmed` or `conflict` only if the original rows were already there. */
  lemma MergingNeverVerifies(rows: seq<Attestation>, f: Voter -> Voter)
    ensures Agreed(Merge(rows, f)) == Confirmed ==> Agreed(rows) == Confirmed
    ensures Agreed(Merge(rows, f)) == Conflict ==> Agreed(rows) == Conflict
  {
    MergedDenies(rows, f);
    if SomeAffirms(Merge(rows, f)) {
      var m :| Affirms(Merge(rows, f), m);
      var v := MergedAffirms(rows, f, m);
    }
    if TwoAffirm(Merge(rows, f)) {
      var m, n :| m != n && Affirms(Merge(rows, f), m) && Affirms(Merge(rows, f), n);
      var v := MergedAffirms(rows, f, m);
      var w := MergedAffirms(rows, f, n);
      assert v != w;
    }
  }

  // ----- the sync headline

  datatype HeadlineClaim = HeadlineClaim(agreement: State, slug: string)
  datatype Headline = Headline(total: nat, confirmed: nat, singleSource: nat)

  ghost function Slugs(claims: seq<HeadlineClaim>): set<string> {
    set c | c in claims :: c.slug
  }

  ghost function ConfirmedSlugs(claims: seq<HeadlineClaim>): set<string> {
    set c | c in claims && c.agreement == Confirmed :: c.slug
  }

  ghost function SingleSlugs(claims: seq<HeadlineClaim>): set<string> {
    set c | c in claims && c.agreement == SingleSource :: c.slug
  }

  lemma HeadlineFits(claims: seq<HeadlineClaim>)
    ensures |ConfirmedSlugs(claims)| + |SingleSlugs(claims) - ConfirmedSlugs(claims)| <= |Slugs(claims)|
  {
    var c, s, all := ConfirmedSlugs(claims), SingleSlugs(claims) - ConfirmedSlugs(claims), Slugs(claims);
    assert c !! s && c + s <= all;
    assert |c + s| == |c| + |s|;
    assert all == (c + s) + (all - (c + s));
  }

  /** The headline counts each data object once, an object with a confirmed claim only as
      confirmed, and never more objects than there are. */
  method ComputeSyncHeadline(claims: seq<HeadlineClaim>) returns (h: Headline)
    ensures h.total == |Slugs(claims)|
    ensures h.confirmed == |ConfirmedSlugs(claims)|
    ensures h.singleSource == |SingleSlugs(claims) - ConfirmedSlugs(claims)|
    ensures h.confirmed + h.singleSource <= h.total
  {
    var confirmed: set<string>, single: set<string>, all: set<string> := {}, {}, {};
    for i := 0 to |claims|
      invariant confirmed == ConfirmedSlugs(claims[..i]) && single == SingleSlugs(claims[..i])
      invariant all == Slugs(claims[..i])
    {
      assert claims[..i + 1] == claims[..i] + [claims[i]];
      all := all + {claims[i].slug};
      if claims[i].agreement == Confirmed {
        confirmed := confirmed + {claims[i].slug};
      } else if claims[i].agreement == SingleSource {
        single := single + {claims[i].slug};
      }
    }
    assert claims[..|claims|] == claims;
    single := single - confirmed;
    HeadlineFits(claims);
    return Headline(|all|, |confirmed|, |single|);
  }
}
