/** The two search-index writers. `syncDocsIndex` saves before it deletes, so no page that
    still exists is ever missing; `reindexEntity` clears first and repopulates in chunks.
    Any call may fail, with or without having taken effect. */
module SearchIndex {
  import opened Common

  datatype Record = Record(id: string, body: string)

  type Objects = map<string, string>

  // The batch action `updateObject`, and `saveObjects`: add or replace the whole record.
  function Saved(objects: Objects, records: seq<Record>): Objects
    decreases |records|
  {
    if records == [] then objects
    else
      var last := records[|records| - 1];
      Saved(objects, records[..|records| - 1])[last.id := last.body]
  }

  // A build as an index: the last record of an id wins.
  function LastWins(records: seq<Record>): Objects { Saved(map[], records) }

  function IdsOf(records: seq<Record>): set<string> {
    set r | r in records :: r.id
  }

  ghost predicate DistinctIds(records: seq<Record>) {
    forall i, j :: 0 <= i < j < |records| ==> records[i].id != records[j].id
  }

  lemma {:induction false} SavedOverlays(objects: Objects, records: seq<Record>)
    ensures Saved(objects, records) == objects + LastWins(records)
    ensures LastWins(records).Keys == IdsOf(records)
    decreases |records|
  {
    if records != [] {
      var init, last := records[..|records| - 1], records[|records| - 1];
      SavedOverlays(objects, init);
      assert records == init + [last];
      assert IdsOf(records) == IdsOf(init) + {last.id};
    }
  }

  lemma {:induction false} SavedConcat(objects: Objects, a: seq<Record>, b: seq<Record>)
    ensures Saved(objects, a + b) == Saved(Saved(objects, a), b)
    decreases |b|
  {
    if b == [] {
      assert a + b == a;
    } else {
      assert (a + b)[..|a + b| - 1] == a + b[..|b| - 1];
      SavedConcat(objects, a, b[..|b| - 1]);
    }
  }

  /** With distinct ids, the index of a build holds exactly its records. */
  lemma {:induction false} DistinctBuild(records: seq<Record>, id: string, body: string)
    requires DistinctIds(records)
    ensures (id in LastWins(records) && LastWins(records)[id] == body) <==> Record(id, body) in records
    decreases |records|
  {
    if records != [] {
      var init, last := records[..|records| - 1], records[|records| - 1];
      DistinctBuild(init, id, body);
      assert records == init + [last];
      SavedOverlays(map[], init);
      if id == last.id {
        assert forall r :: r in init ==> r.id != id;
      }
    }
  }

  /** Populating an index that was not cleared gives the build exactly when every id it held
      is in the build. */
  lemma UnclearedIsCurrent(objects: Objects, records: seq<Record>)
    ensures Saved(objects, records) == LastWins(records) <==> objects.Keys <= IdsOf(records)
  {
    SavedOverlays(objects, records);
    var built := LastWins(records);
    if objects.Keys <= IdsOf(records) {
      assert objects + built == built;
    } else {
      var id :| id in objects && id !in IdsOf(records);
      assert id in objects + built && id !in built;
    }
  }

  lemma LastRepeats(records: seq<Record>)
    requires records != []
    ensures var init := records[..|records| - 1];
            DistinctIds(records) <==> DistinctIds(init) && records[|records| - 1].id !in IdsOf(init)
  {
  }

  lemma LastOfNone()
    ensures DistinctIds([])
  {
  }

  // `new Set(records.map(…))` is as large as the list exactly when no id repeats.
  lemma {:induction false} SetSizeTellsDuplicates(records: seq<Record>)
    ensures |IdsOf(records)| <= |records|
    ensures |IdsOf(records)| == |records| <==> DistinctIds(records)
    decreases |records|
  {
    hide DistinctIds;
    if records == [] {
      LastOfNone();
    } else {
      var init, last := records[..|records| - 1], records[|records| - 1];
      SetSizeTellsDuplicates(init);
      LastRepeats(records);
      assert records == init + [last];
      assert IdsOf(records) == IdsOf(init) + {last.id};
    }
  }

  // Present throughout: an id both the old index and the build have is never absent, and
  // carries its old body or a body of the build.
  ghost predicate KeepsPages(old_: Objects, records: seq<Record>, objects: Objects) {
    forall id :: id in old_ && id in IdsOf(records) ==>
      id in objects && (objects[id] == old_[id] || Record(id, objects[id]) in records)
  }

  lemma {:induction false} SavingKeepsPages(objects: Objects, records: seq<Record>, k: nat)
    requires k <= |records|
    ensures KeepsPages(objects, records, Saved(objects, records[..k]))
    decreases k
  {
    if k > 0 {
      SavingKeepsPages(objects, records, k - 1);
      assert records[..k][..k - 1] == records[..k - 1];
      assert records[k - 1] in records;
    }
  }

  ghost predicate PagesKept(old_: Objects, records: seq<Record>, trail: seq<Objects>) {
    forall t :: 0 <= t < |trail| ==> KeepsPages(old_, records, trail[t])
  }

  lemma NoPages(old_: Objects, records: seq<Record>)
    ensures PagesKept(old_, records, [])
  {
  }

  lemma PagesAppend(old_: Objects, records: seq<Record>, trail: seq<Objects>, from: nat, last: Objects)
    requires from <= |trail| && PagesKept(old_, records, trail[from..]) && KeepsPages(old_, records, last)
    ensures PagesKept(old_, records, (trail + [last])[from..])
  {
  }

  // The contents grew by at most one that keeps the pages.
  lemma TrailKept(old_: Objects, records: seq<Record>, before: seq<Objects>, after: seq<Objects>, from: nat,
                  last: Objects)
    requires from <= |before| && PagesKept(old_, records, before[from..])
    requires after == before || (after == before + [last] && KeepsPages(old_, records, last))
    ensures from <= |after| && PagesKept(old_, records, after[from..])
  {
    if after != before { PagesAppend(old_, records, before, from, last); }
  }

  // Every content is the old index with some first records saved over it.
  ghost predicate Saves(old_: Objects, records: seq<Record>, trail: seq<Objects>) {
    forall t :: 0 <= t < |trail| ==> exists k :: 0 <= k <= |records| && trail[t] == Saved(old_, records[..k])
  }

  lemma SavesKeepPages(old_: Objects, records: seq<Record>, trail: seq<Objects>)
    requires Saves(old_, records, trail)
    ensures PagesKept(old_, records, trail)
  {
    forall t | 0 <= t < |trail| ensures KeepsPages(old_, records, trail[t]) {
      var k :| 0 <= k <= |records| && trail[t] == Saved(old_, records[..k]);
      SavingKeepsPages(old_, records, k);
    }
  }

  lemma DeletingKeepsPages(old_: Objects, records: seq<Record>, objects: Objects, stale: set<string>)
    requires KeepsPages(old_, records, objects) && stale !! IdsOf(records)
    ensures KeepsPages(old_, records, objects - stale)
  {
  }

  // Deleting what the build does not have leaves the build, and no page is lost by it.
  lemma DeletingEnds(old_: Objects, records: seq<Record>, stale: set<string>)
    requires stale == old_.Keys - IdsOf(records)
    ensures Saved(old_, records) - stale == LastWins(records)
    ensures KeepsPages(old_, records, Saved(old_, records) - stale)
  {
    hide KeepsPages;
    SavedOverlays(old_, records);
    SavingKeepsPages(old_, records, |records|);
    assert records[..|records|] == records;
    assert Saved(old_, records) - stale == LastWins(records);
    DeletingKeepsPages(old_, records, Saved(old_, records), stale);
  }

  datatype SyncResult = SyncResult(records: nat, saved: nat, deleted: nat)

  datatype SyncFailure = DuplicateIds | ClientError

  datatype Sync = Synced(result: SyncResult) | Threw(failure: SyncFailure)

  const ALGOLIA_BATCH_MAX := 500

  datatype EntityResult = EntityResult(records: nat, cleared: bool, added: bool, error: Option<string>)

  function SelectStale(hits: seq<string>, ids: set<string>): (stale: seq<string>)
    ensures forall id :: id in stale <==> id in hits && id !in ids
  {
    if hits == [] then []
    else SelectStale(hits[..|hits| - 1], ids) +
         if hits[|hits| - 1] in ids then [] else [hits[|hits| - 1]]
  }

  lemma {:induction false} StaleIsDistinct(hits: seq<string>, ids: set<string>)
    requires Distinct(hits)
    ensures Distinct(SelectStale(hits, ids))
  {
    if hits != [] {
      StaleIsDistinct(hits[..|hits| - 1], ids);
      assert hits[|hits| - 1] !in hits[..|hits| - 1];
    }
  }

  // What the browse finds stale is exactly what the build no longer has.
  lemma StaleIsRest(hits: seq<string>, ids: set<string>)
    requires Distinct(hits)
    ensures Elems(SelectStale(hits, ids)) == Elems(hits) - ids
    ensures |SelectStale(hits, ids)| == |Elems(hits) - ids|
  {
    StaleIsDistinct(hits, ids);
    DistinctCount(SelectStale(hits, ids));
    assert Elems(SelectStale(hits, ids)) == Elems(hits) - ids;
  }

  class Index {
    var objects: Objects
    // Every content the index has had, oldest first.
    ghost var trail: seq<Objects>
    // How often a call to the service failed.
    ghost var faults: nat

    constructor (objects: Objects)
      ensures this.objects == objects && trail == [objects] && faults == 0
    {
      this.objects, trail, faults := objects, [objects], 0;
    }

    ghost method Fail()
      modifies this`faults
      ensures faults == old(faults) + 1
    {
      faults := faults + 1;
    }

    ghost predicate Valid()
      reads this
    {
      trail != [] && trail[|trail| - 1] == objects
    }

    // `saveObjects`: batches applied in order; a failure leaves some prefix saved.
    method SaveObjects(records: seq<Record>) returns (ok: bool, ghost done: nat)
      requires Valid()
      modifies this
      ensures Valid() && done <= |records| && objects == Saved(old(objects), records[..done])
      ensures ok ==> done == |records|
      ensures faults == old(faults) + if ok then 0 else 1
      ensures old(trail) <= trail
      ensures Saves(old(objects), records, trail[|old(trail)|..])
    {
      done := 0;
      var i: nat := 0;
      while i < |records|
        invariant done == i <= |records| && objects == Saved(old(objects), records[..i])
        invariant Valid() && old(trail) <= trail && faults == old(faults)
        invariant Saves(old(objects), records, trail[|old(trail)|..])
      {
        if * { Fail(); return false, done; }
        assert records[..i + 1][..i] == records[..i];
        objects := objects[records[i].id := records[i].body];
        i := i + 1;
        done := i;
        trail := trail + [objects];
        if * { Fail(); return false, done; }
      }
      ok := true;
    }

    // `browseObjects`: every object id once, in an order of the service's choosing.
    method Browse() returns (hits: Option<seq<string>>)
      modifies this`faults
      ensures faults == old(faults) + if hits == None then 1 else 0
      ensures hits.Some? ==> Distinct(hits.value) && Elems(hits.value) == objects.Keys
    {
      if * { Fail(); return None; }
      var left := objects.Keys;
      var ids: seq<string> := [];
      while left != {}
        invariant Distinct(ids) && Elems(ids) !! left && Elems(ids) + left == objects.Keys
        decreases |left|
      {
        var id :| id in left;
        assert id !in Elems(ids);
        ids, left := ids + [id], left - {id};
      }
      hits := Some(ids);
    }

    method DeleteObjects(ids: seq<string>) returns (ok: bool)
      requires Valid()
      modifies this
      ensures Valid()
      ensures faults == old(faults) + if ok then 0 else 1
      ensures if objects == old(objects) - Elems(ids) && trail == old(trail) + [objects] then true
              else !ok && objects == old(objects) && trail == old(trail)
    {
      if * { Fail(); return false; }
      objects := objects - Elems(ids);
      trail := trail + [objects];
      if * { Fail(); return false; }
      return true;
    }

    // The browse's aggregator.
    method SelectStaleIds(hits: seq<string>, ids: set<string>) returns (stale: seq<string>)
      ensures stale == SelectStale(hits, ids)
    {
      stale := [];
      var i := 0;
      while i < |hits|
        invariant 0 <= i <= |hits|
        invariant stale == SelectStale(hits[..i], ids)
      {
        assert hits[..i + 1][..i] == hits[..i];
        if hits[i] !in ids {
          stale := stale + [hits[i]];
        }
        i := i + 1;
      }
      assert hits[..i] == hits;
    }

    // Browse, then delete in one call every id the build no longer has.
    method DeleteStale(ids: set<string>) returns (deleted: Option<nat>)
      requires Valid()
      modifies this
      ensures Valid()
      ensures var stale := old(objects).Keys - ids;
              || (objects == old(objects) - stale && trail == old(trail) + [objects])
              || (objects == old(objects) && trail == old(trail) && (deleted.None? || stale == {}))
      ensures old(objects).Keys <= ids ==> trail == old(trail)
      ensures deleted.Some? ==> deleted.value == |old(objects).Keys - ids|
      ensures faults == old(faults) + if deleted == None then 1 else 0
    {
      var hits := Browse();
      if hits.None? { return None; }
      var stale := SelectStaleIds(hits.value, ids);
      StaleIsRest(hits.value, ids);
      assert Elems(stale) == objects.Keys - ids;
      if |stale| > 0 {
        var ok := DeleteObjects(stale);
        if !ok { return None; }
      }
      return Some(|stale|);
    }

    // Save every record, then delete what the build does not have.
    method SaveThenDelete(records: seq<Record>) returns (deleted: Option<nat>)
      requires Valid()
      modifies this
      ensures Valid() && old(trail) <= trail
      ensures deleted.Some? ==> objects == LastWins(records) && deleted.value == |old(objects).Keys - IdsOf(records)|
      ensures PagesKept(old(objects), records, trail[|old(trail)|..])
      ensures faults == old(faults) + if deleted == None then 1 else 0
    {
      hide KeepsPages, Saved, LastWins, PagesKept, Saves, IdsOf, Elems;
      ghost var start, ids := objects, IdsOf(records);
      var saved, done := SaveObjects(records);
      SavesKeepPages(start, records, trail[|old(trail)|..]);
      if !saved { return None; }
      assert records[..|records|] == records;
      assert objects.Keys == start.Keys + ids by { SavedOverlays(start, records); }
      assert start.Keys - ids == objects.Keys - ids;
      DeletingEnds(start, records, start.Keys - ids);
      ghost var before := trail;
      deleted := DeleteStale(IdsOf(records));
      TrailKept(start, records, before, trail, |old(trail)|, objects);
    }

    /** A sync that returns leaves exactly the build. One that throws on duplicate ids has
        touched nothing, and otherwise only a failed call throws. Whatever happens, and at every
        moment on the way, no page that both the old index and the build hold is missing. */
    method SyncDocs(records: seq<Record>) returns (r: Sync)
      requires Valid()
      modifies this
      ensures Valid() && old(trail) <= trail
      ensures r == Threw(DuplicateIds) <==> !DistinctIds(records)
      ensures r == Threw(DuplicateIds) ==> trail == old(trail)
      ensures r.Synced? ==> objects == LastWins(records)
      ensures r.Synced? ==>
        r.result == SyncResult(|records|, |records|, |old(objects).Keys - IdsOf(records)|)
      ensures PagesKept(old(objects), records, trail[|old(trail)|..])
      ensures faults == old(faults) + if r == Threw(ClientError) then 1 else 0
    {
      hide KeepsPages, Saved, LastWins, DistinctIds, PagesKept, IdsOf;
      NoPages(old(objects), records);
      assert trail[|trail|..] == [];
      var ids := IdsOf(records);
      SetSizeTellsDuplicates(records);
      if |ids| != |records| {
        return Threw(DuplicateIds);
      }
      // settings first
      if * {
        Fail();
        return Threw(ClientError);
      }
      var deleted := SaveThenDelete(records);
      if deleted.None? { return Threw(ClientError); }
      return Synced(SyncResult(|records|, |records|, deleted.value));
    }

    method Clear() returns (error: Option<string>)
      requires Valid()
      modifies this
      ensures Valid() && (objects == map[] || (error.Some? && objects == old(objects)))
      ensures old(trail) <= trail && (error.None? ==> trail == old(trail) + [map[]])
      ensures faults == old(faults) + if error == None then 0 else 1
    {
      if * { Fail(); return Some("algolia_network_error"); }
      objects := map[];
      trail := trail + [objects];
      if * { Fail(); return Some("algolia_network_error"); }
      return None;
    }

    // One batch request: all of it or none of it takes effect.
    method Batch(records: seq<Record>) returns (error: Option<string>)
      requires Valid()
      modifies this
      ensures Valid() && old(trail) <= trail
      ensures objects == Saved(old(objects), records) || (error.Some? && objects == old(objects))
      ensures faults == old(faults) + if error == None then 0 else 1
    {
      if * { Fail(); return Some("algolia_batch_failed"); }
      objects := Saved(objects, records);
      trail := trail + [objects];
      if * { Fail(); return Some("algolia_batch_failed"); }
      return None;
    }

    /** `cleared` and `added` together mean the index is the build, last record of an id
        winning. Without `cleared` old objects may remain; without `added` whole chunks at the
        end are missing. No error is reported exactly when both hold. Unlike the docs sync, a
        cleared run does pass through an empty index. Each is missed only for a failed call. */
    method ReindexEntity(records: seq<Record>) returns (r: EntityResult, ghost start: Objects, ghost done: nat)
      requires Valid()
      modifies this
      ensures Valid() && r.records == |records|
      ensures start == map[] || (start == old(objects) && !r.cleared)
      ensures done <= |records| && objects == Saved(start, records[..done])
      ensures done % 500 == 0 || done == |records|
      ensures r.added ==> done == |records|
      ensures r.cleared && r.added ==> objects == LastWins(records)
      ensures r.error == None <==> r.cleared && r.added
      ensures faults == old(faults) + (if r.cleared then 0 else 1) + (if r.added then 0 else 1)
      ensures r.cleared ==> |old(trail)| < |trail| && trail[|old(trail)|] == map[]
    {
      var clearError := Clear();
      start := objects;
      var added, error := true, clearError;
      var i: nat := 0;
      done := 0;
      while i < |records|
        invariant i % ALGOLIA_BATCH_MAX == 0 || i >= |records|
        invariant done == (if i < |records| then i else |records|)
        invariant Valid() && objects == Saved(start, records[..done])
        invariant added && error == clearError
        invariant faults == old(faults) + if clearError.None? then 0 else 1
        invariant clearError.None? ==> old(trail) + [map[]] <= trail
      {
        var end := if i + ALGOLIA_BATCH_MAX < |records| then i + ALGOLIA_BATCH_MAX else |records|;
        assert records[..end] == records[..i] + records[i..end];
        SavedConcat(start, records[..i], records[i..end]);
        ghost var before := objects;
        var failure := Batch(records[i..end]);
        if failure.Some? {
          if objects != before { done := end; }
          added, error := false, failure;
          break;
        }
        i := i + ALGOLIA_BATCH_MAX;
        done := end;
      }
      assert added ==> records[..done] == records;
      r := EntityResult(|records|, clearError.None?, added, error);
    }
  }
}
