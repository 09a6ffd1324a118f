/** The denormalised `integration_count`: overstated between the delete and the recount,
    exact again after it. */
module PruneCounts {
  import opened Common
  import opened Prune

  function LiveIntegrations(db: Db, p: Id): set<Id> {
    set i | i in db.integrations && db.integrations[i].retiredAt == None
      && (db.integrations[i].source == p || db.integrations[i].target == p)
  }

  function LivePairs(db: Db, p: Id): set<Id> {
    set q | q in db.pairs && db.pairs[q].retiredAt == None
      && (db.pairs[q].a == p || db.pairs[q].b == p || db.pairs[q].connector == p)
  }

  /** Delivered edges of a product, over both anchor tables. */
  function LiveEdgeCount(db: Db, p: Id): nat {
    |LiveIntegrations(db, p)| + |LivePairs(db, p)|
  }

  /** The delivered edges of a product, whichever table holds them: live integrations it is an
      end of, and live pairs it is an end of or connects. */
  ghost predicate Delivers(db: Db, edge: Anchor, p: Id) {
    match edge
    case OnIntegration(i) =>
      i in db.integrations && db.integrations[i].retiredAt == None
      && (p == db.integrations[i].source || p == db.integrations[i].target)
    case OnPair(q) =>
      q in db.pairs && db.pairs[q].retiredAt == None
      && (p == db.pairs[q].a || p == db.pairs[q].b || p == db.pairs[q].connector)
    case OnReach(_) => false
  }

  lemma AnchorsCounted(ids: set<Id>)
    ensures |set i | i in ids :: OnIntegration(i)| == |ids| == |set q | q in ids :: OnPair(q)|
  {
    ImageSize(ids, i => OnIntegration(i), set i | i in ids :: OnIntegration(i));
    ImageSize(ids, q => OnPair(q), set q | q in ids :: OnPair(q));
  }

  lemma DeliversIfLive(db: Db, e: Anchor, p: Id)
    ensures Delivers(db, e, p) <==>
      (e.OnIntegration? && e.id in LiveIntegrations(db, p)) || (e.OnPair? && e.id in LivePairs(db, p))
  {
  }

  /** The count is the number of those edges. */
  lemma EdgesCounted(db: Db, p: Id, edges: set<Anchor>)
    requires forall e :: e in edges <==> Delivers(db, e, p)
    ensures LiveEdgeCount(db, p) == |edges|
  {
    hide Delivers, LiveIntegrations, LivePairs;
    var here := set i | i in LiveIntegrations(db, p) :: OnIntegration(i);
    var pairs := set q | q in LivePairs(db, p) :: OnPair(q);
    AnchorsCounted(LiveIntegrations(db, p));
    AnchorsCounted(LivePairs(db, p));
    forall e ensures e in edges <==> e in here + pairs { DeliversIfLive(db, e, p); }
    assert edges == here + pairs && here !! pairs;
  }

  ghost predicate CountsRight(db: Db) {
    forall p :: p in db.products ==> db.products[p].integrationCount == LiveEdgeCount(db, p)
  }

  predicate Touches(db: Db, i: Id, p: Id)
    requires i in db.integrations
  {
    db.integrations[i].source == p || db.integrations[i].target == p
  }

  // `SELECT DISTINCT p.id … JOIN products p ON p.id IN (source, target)`
  function AffectedProducts(db: Db, ids: set<Id>): set<Id> {
    set p | p in db.products && exists i :: i in ids && i in db.integrations && Touches(db, i, p)
  }

  ghost predicate Covers(db: Db, ids: set<Id>, affected: set<Id>) {
    forall i, p :: i in ids && i in db.integrations && p in db.products && Touches(db, i, p) ==> p in affected
  }

  function RecountOne(db: Db, p: Id): Db {
    if p !in db.products then db
    else db.(products := db.products[p := db.products[p].(integrationCount := LiveEdgeCount(db, p))])
  }

  // The recount batch: one UPDATE per affected product.
  function Recount(db: Db, affected: seq<Id>): Db {
    if affected == [] then db
    else RecountOne(Recount(db, affected[..|affected| - 1]), affected[|affected| - 1])
  }

  // The count of every product in `affected` written anew, all others left.
  function CountsRenewed(db: Db, affected: set<Id>): Db {
    db.(products := map p | p in db.products ::
          if p in affected then db.products[p].(integrationCount := LiveEdgeCount(db, p)) else db.products[p])
  }

  lemma CountIgnoresProducts(db: Db, products: map<Id, Product>, p: Id)
    ensures LiveEdgeCount(db.(products := products), p) == LiveEdgeCount(db, p)
  {
  }

  lemma RenewOneMore(db: Db, affected: set<Id>, p: Id)
    ensures RecountOne(CountsRenewed(db, affected), p) == CountsRenewed(db, affected + {p})
  {
    hide LiveEdgeCount;
    CountIgnoresProducts(db, CountsRenewed(db, affected).products, p);
    assert RecountOne(CountsRenewed(db, affected), p).products == CountsRenewed(db, affected + {p}).products;
  }

  // In whatever order, and however often each.
  lemma {:induction false} RecountMeans(db: Db, affected: seq<Id>)
    ensures Recount(db, affected) == CountsRenewed(db, Elems(affected))
  {
    hide LiveEdgeCount, RecountOne;
    if affected == [] {
      assert CountsRenewed(db, {}).products == db.products;
    } else {
      var front, last := affected[..|affected| - 1], affected[|affected| - 1];
      RecountMeans(db, front);
      assert affected == front + [last];
      assert Elems(affected) == Elems(front) + {last};
      RenewOneMore(db, Elems(front), last);
    }
  }

  // The delete lowers a product's live-edge count exactly if a live row of it goes.
  lemma DeleteLowersCount(db: Db, after: Db, gone: set<Id>, p: Id)
    requires gone <= db.integrations.Keys
    requires after.integrations == db.integrations - gone && after.pairs == db.pairs
    ensures LiveEdgeCount(after, p) <= LiveEdgeCount(db, p)
    ensures LiveEdgeCount(after, p) == LiveEdgeCount(db, p) <==>
      forall i :: i in gone && Touches(db, i, p) ==> db.integrations[i].retiredAt.Some?
  {
    assert LivePairs(after, p) == LivePairs(db, p);
    assert LiveIntegrations(after, p) <= LiveIntegrations(db, p);
    SubsetSize(LiveIntegrations(after, p), LiveIntegrations(db, p));
    if i :| i in gone && Touches(db, i, p) && db.integrations[i].retiredAt == None {
      assert i in LiveIntegrations(db, p) && i !in LiveIntegrations(after, p);
    } else {
      forall i | i in LiveIntegrations(db, p) ensures i in LiveIntegrations(after, p) {
        assert Touches(db, i, p);
      }
    }
  }

  /** Between the two batches a count is never too low, and too high only on a product the
      plan recounts. */
  lemma OnlyOverstated(db: Db, ids: set<Id>, now: string, affected: set<Id>)
    requires CountsRight(db) && Covers(db, ids, affected)
    ensures var after := PruneBatch(db, ids, now);
      && after.products == db.products
      && forall p :: p in after.products ==>
           && after.products[p].integrationCount >= LiveEdgeCount(after, p)
           && (p !in affected ==> after.products[p].integrationCount == LiveEdgeCount(after, p))
  {
    hide PruneBatch, LiveEdgeCount;
    ExactlyTheDoomedGo(db, ids, now);
    var after := PruneBatch(db, ids, now);
    forall p | p in after.products
      ensures after.products[p].integrationCount >= LiveEdgeCount(after, p)
      ensures p !in affected ==> after.products[p].integrationCount == LiveEdgeCount(after, p)
    {
      DeleteLowersCount(db, after, Deletable(db, ids), p);
    }
  }

  /** The recount restores the invariant for every product. */
  lemma RecountRepairs(db: Db, ids: set<Id>, now: string, affected: seq<Id>)
    requires CountsRight(db) && Covers(db, ids, Elems(affected))
    ensures CountsRight(Recount(PruneBatch(db, ids, now), affected))
  {
    hide PruneBatch, Recount, Covers, LiveEdgeCount;
    var mid := PruneBatch(db, ids, now);
    OnlyOverstated(db, ids, now, Elems(affected));
    RecountMeans(mid, affected);
    var after := Recount(mid, affected);
    forall p | p in after.products ensures after.products[p].integrationCount == LiveEdgeCount(after, p) {
      CountIgnoresProducts(mid, after.products, p);
      assert p in affected <==> p in Elems(affected);
    }
  }
}
