/** Keyset pagination over rowids (`readPages`): a reader that holds only the last rowid,
    exact on a table at rest and lossless on one that changes between pages. */
module CopyPages {
  import opened Common
  import opened CopySpec

  /** SQLite's largest rowid. */
  const MAX_ROWID := 0x7fff_ffff_ffff_ffff

  // A table in rowid order.
  ghost predicate ByRowid(table: seq<Stored>) {
    && (forall i, j :: 0 <= i < j < |table| ==> table[i].rid < table[j].rid)
    && forall i :: 0 <= i < |table| ==> table[i].rid <= MAX_ROWID
  }

  // `WHERE rowid > after ORDER BY rowid`
  function Beyond(table: seq<Stored>, after: int): seq<Stored> {
    if table == [] then []
    else if table[0].rid > after then table
    else Beyond(table[1..], after)
  }

  // The same with `LIMIT limit`.
  function SelectPage(table: seq<Stored>, after: int, limit: nat): (page: seq<Stored>)
    ensures |page| <= limit
  {
    var rest := Beyond(table, after);
    if |rest| <= limit then rest else rest[..limit]
  }

  lemma {:induction false} BeyondSplits(table: seq<Stored>, after: int) returns (i: nat)
    requires ByRowid(table)
    ensures i <= |table| && Beyond(table, after) == table[i..]
    ensures forall k :: 0 <= k < |table| ==> (table[k].rid > after <==> i <= k)
  {
    if table == [] {
      i := 0;
    } else if table[0].rid > after {
      i := 0;
    } else {
      var j := BeyondSplits(table[1..], after);
      i := j + 1;
      forall k | 0 <= k < |table| ensures table[k].rid > after <==> i <= k {
        if k > 0 { assert table[k] == table[1..][k - 1]; }
      }
    }
  }

  // Skipping past the last rowid of a page leaves exactly what the page did not hold.
  lemma BeyondAfterPage(table: seq<Stored>, after: int, n: nat)
    requires ByRowid(table) && 0 < n <= |Beyond(table, after)|
    ensures Beyond(table, Beyond(table, after)[n - 1].rid) == Beyond(table, after)[n..]
  {
    var i := BeyondSplits(table, after);
    var last := Beyond(table, after)[n - 1].rid;
    var j := BeyondSplits(table, last);
    assert table[i + n - 1].rid == last;
    if i + n < |table| { assert table[i + n].rid > last; }
    assert j == i + n;
  }

  // The generator's state between two `yield`s.
  class PageReader {
    const pageSize: nat
    var after: int
    var finished: bool

    constructor (pageSize: nat)
      ensures this.pageSize == pageSize && after == 0 && !finished
    {
      this.pageSize := pageSize;
      after := 0;
      finished := false;
    }

    /** One turn of the `for (;;)` body: run the query unless the last page was short, and
        yield its rows unless there are none. */
    method Next(table: seq<Stored>) returns (page: Option<seq<Stored>>, queried: bool)
      requires pageSize > 0
      modifies this
      ensures queried <==> !old(finished)
      ensures old(finished) ==> page == None && finished && after == old(after)
      ensures !old(finished) ==>
        var rows := SelectPage(table, old(after), pageSize);
        && (rows == [] <==> page == None)
        && (page == None ==> finished && after == old(after))
        && (page.Some? ==> page.value == rows && after == rows[|rows| - 1].rid && (finished <==> |rows| < pageSize))
    {
      if finished {
        return None, false;
      }
      var results := SelectPage(table, after, pageSize);
      if results == [] {
        finished := true;
        return None, true;
      }
      after := results[|results| - 1].rid;
      finished := |results| < pageSize;
      return Some(results), true;
    }
  }

  ghost predicate Holds(rows: seq<Stored>, rid: int) {
    exists i :: 0 <= i < |rows| && rows[i].rid == rid
  }

  // `rid` was in the table at every read so far.
  ghost predicate AlwaysThere(snapshots: nat -> seq<Stored>, queries: nat, rid: int) {
    forall k :: 0 <= k < queries ==> Holds(snapshots(k), rid)
  }

  ghost predicate Strict(rows: seq<Stored>) {
    forall i, j :: 0 <= i < j < |rows| ==> rows[i].rid < rows[j].rid
  }

  ghost predicate WasRead(snapshots: nat -> seq<Stored>, queries: nat, row: Stored) {
    exists k :: 0 <= k < queries && row in snapshots(k)
  }

  // What the rows delivered so far say about the snapshots read so far.
  ghost predicate Covered(snapshots: nat -> seq<Stored>, queries: nat, after: int, finished: bool, rows: seq<Stored>) {
    && Strict(rows)
    && (forall i :: 0 <= i < |rows| ==> 0 < rows[i].rid <= after && WasRead(snapshots, queries, rows[i]))
    && forall r :: 0 < r && (r <= after || finished) && AlwaysThere(snapshots, queries, r) ==> Holds(rows, r)
  }

  // One page read from `table` after `after`: what the reader may conclude about rowids.
  lemma PageCovers(table: seq<Stored>, after: int, limit: nat)
    requires ByRowid(table) && limit > 0
    ensures var page := SelectPage(table, after, limit);
      && Strict(page)
      && (forall k :: 0 <= k < |page| ==> after < page[k].rid <= MAX_ROWID && page[k] in table)
      && forall r :: after < r && Holds(table, r) && (|page| < limit || r <= page[|page| - 1].rid) ==> Holds(page, r)
  {
    var page := SelectPage(table, after, limit);
    var i := BeyondSplits(table, after);
    assert forall k :: 0 <= k < |page| ==> page[k] == table[i + k];
    forall r | after < r && Holds(table, r) && (|page| < limit || r <= page[|page| - 1].rid)
      ensures Holds(page, r)
    {
      var k :| 0 <= k < |table| && table[k].rid == r;
      assert i <= k;
      if |page| == limit { assert page[|page| - 1] == table[i + |page| - 1]; }
      assert page[k - i].rid == r;
    }
  }

  lemma HoldsInBoth(before: seq<Stored>, page: seq<Stored>, r: int)
    requires Holds(before, r) || Holds(page, r)
    ensures Holds(before + page, r)
  {
    if Holds(before, r) {
      var i :| 0 <= i < |before| && before[i].rid == r;
      assert (before + page)[i].rid == r;
    } else {
      var i :| 0 <= i < |page| && page[i].rid == r;
      assert (before + page)[|before| + i].rid == r;
    }
  }

  // A further read keeps the coverage, however the table changed in between.
  lemma PageExtends(snapshots: nat -> seq<Stored>, queries: nat, after: int, rows: seq<Stored>, limit: nat)
    requires limit > 0 && ByRowid(snapshots(queries)) && 0 <= after
    requires Covered(snapshots, queries, after, false, rows)
    ensures var page := SelectPage(snapshots(queries), after, limit);
      && (page == [] ==> Covered(snapshots, queries + 1, after, true, rows))
      && (page != [] ==> after < page[|page| - 1].rid <= MAX_ROWID)
      && (page != [] ==> Covered(snapshots, queries + 1, page[|page| - 1].rid, |page| < limit, rows + page))
  {
    var table := snapshots(queries);
    var page := SelectPage(table, after, limit);
    var all, last := rows + page, if page == [] then after else page[|page| - 1].rid;
    PageCovers(table, after, limit);
    forall i | 0 <= i < |all| ensures 0 < all[i].rid <= last && WasRead(snapshots, queries + 1, all[i]) {
      if i < |rows| {
        var k :| 0 <= k < queries && rows[i] in snapshots(k);
        assert all[i] in snapshots(k);
      } else {
        assert all[i] == page[i - |rows|] && all[i] in snapshots(queries);
      }
    }
    forall r | 0 < r && (r <= last || |page| < limit) && AlwaysThere(snapshots, queries + 1, r) ensures Holds(all, r) {
      assert AlwaysThere(snapshots, queries, r) && Holds(snapshots(queries), r);
      HoldsInBoth(rows, page, r);
    }
    assert page == [] ==> all == rows;
  }

  /** Streaming a table that may change arbitrarily between two queries: no rowid comes
      twice, every row was really read, and a row that was there throughout is not missed. It
      takes one query per full page and one more. */
  method StreamDrifting(snapshots: nat -> seq<Stored>, pageSize: nat) returns (rows: seq<Stored>, queries: nat)
    requires pageSize > 0 && forall k :: ByRowid(snapshots(k))
    ensures Strict(rows) && (queries - 1) * pageSize <= |rows| < queries * pageSize
    ensures forall i :: 0 <= i < |rows| ==> rows[i].rid > 0 && WasRead(snapshots, queries, rows[i])
    ensures forall r :: r > 0 && AlwaysThere(snapshots, queries, r) ==> Holds(rows, r)
  {
    var reader := new PageReader(pageSize);
    rows, queries := [], 0;
    while !reader.finished
      invariant fresh(reader) && reader.pageSize == pageSize && 0 <= reader.after <= MAX_ROWID
      invariant Covered(snapshots, queries, reader.after, reader.finished, rows)
      invariant if reader.finished then (queries - 1) * pageSize <= |rows| < queries * pageSize
                else |rows| == queries * pageSize
      decreases !reader.finished, MAX_ROWID - reader.after
    {
      PageExtends(snapshots, queries, reader.after, rows, pageSize);
      var page, _ := reader.Next(snapshots(queries));
      queries := queries + 1;
      if page.Some? {
        rows := rows + page.value;
      }
    }
  }

  /** The reader starts at `rowid > 0`, so it delivers the whole table exactly when every
      rowid is positive. */
  lemma StreamsWholeTable(table: seq<Stored>)
    requires ByRowid(table)
    ensures Beyond(table, 0) == table <==> forall k :: 0 <= k < |table| ==> table[k].rid > 0
  {
    var i := BeyondSplits(table, 0);
    if i > 0 { assert table[0].rid <= 0; }
  }

  // ----- a table at rest

  // `m` rows of the stream were delivered and the reader stands right behind them.
  ghost predicate Delivered(table: seq<Stored>, pageSize: nat, after: int, finished: bool, m: nat) {
    && m <= |Beyond(table, 0)|
    && Beyond(table, after) == Beyond(table, 0)[m..]
    && (finished ==> m == |Beyond(table, 0)|)
  }

  /** Each page is the next stretch of the table, full unless it is the last. */
  lemma PageDelivers(table: seq<Stored>, pageSize: nat, after: int, m: nat)
    requires ByRowid(table) && pageSize > 0 && Delivered(table, pageSize, after, false, m)
    ensures var page := SelectPage(table, after, pageSize);
      && m + |page| <= |Beyond(table, 0)|
      && page == Beyond(table, 0)[m..m + |page|]
      && |page| <= pageSize
      && (page == [] ==> Delivered(table, pageSize, after, true, m))
      && (page != [] ==> Delivered(table, pageSize, page[|page| - 1].rid, |page| < pageSize, m + |page|))
  {
    var page := SelectPage(table, after, pageSize);
    if page != [] {
      BeyondAfterPage(table, after, |page|);
      assert Beyond(table, 0)[m..][|page|..] == Beyond(table, 0)[m + |page|..];
    }
  }
}
