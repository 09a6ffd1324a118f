/** The second pass: the UPDATEs that put self-references back, and what the destination
    holds when they have all run. */
module CopyRestore {
  import opened Common
  import opened Database
  import opened CopySpec
  import opened CopyLoad

  function CellUpdate(t: string, pk: seq<string>, row: Row, column: string): Statement {
    SetCell(t, column, Cell(row, column), pk, Key(row, pk))
  }

  function RowUpdates(t: string, pk: seq<string>, columns: seq<string>, row: Row): seq<Statement> {
    if columns == [] then []
    else
      var last := columns[|columns| - 1];
      RowUpdates(t, pk, columns[..|columns| - 1], row)
      + if Cell(row, last) == Null then [] else [CellUpdate(t, pk, row, last)]
  }

  function RowsUpdates(t: string, pk: seq<string>, columns: seq<string>, rows: seq<Row>): seq<Statement> {
    if rows == [] then []
    else RowsUpdates(t, pk, columns, rows[..|rows| - 1]) + RowUpdates(t, pk, columns, rows[|rows| - 1])
  }

  // `selfRefUpdates`: nothing without a self-reference or without a primary key.
  function SelfRefUpdates(t: string, pk: seq<string>, columns: seq<string>, rows: seq<Row>): seq<Statement> {
    if columns == [] || pk == [] then [] else RowsUpdates(t, pk, columns, rows)
  }

  lemma {:induction false} RowsUpdatesConcat(t: string, pk: seq<string>, columns: seq<string>, a: seq<Row>, b: seq<Row>)
    ensures RowsUpdates(t, pk, columns, a + b) == RowsUpdates(t, pk, columns, a) + RowsUpdates(t, pk, columns, b)
  {
    hide RowUpdates;
    if b == [] {
      assert a + b == a;
    } else {
      assert (a + b)[..|a + b| - 1] == a + b[..|b| - 1];
      RowsUpdatesConcat(t, pk, columns, a, b[..|b| - 1]);
    }
  }

  lemma SelfRefUpdatesConcat(t: string, pk: seq<string>, columns: seq<string>, a: seq<Row>, b: seq<Row>)
    ensures SelfRefUpdates(t, pk, columns, a + b)
      == SelfRefUpdates(t, pk, columns, a) + SelfRefUpdates(t, pk, columns, b)
  {
    RowsUpdatesConcat(t, pk, columns, a, b);
  }

  lemma {:induction false} RowUpdatesBound(t: string, pk: seq<string>, columns: seq<string>, row: Row)
    ensures |RowUpdates(t, pk, columns, row)| <= |columns|
  {
    if columns != [] { RowUpdatesBound(t, pk, columns[..|columns| - 1], row); }
  }

  lemma {:induction false} RowsUpdatesBound(t: string, pk: seq<string>, columns: seq<string>, rows: seq<Row>)
    ensures |RowsUpdates(t, pk, columns, rows)| <= |rows| * |columns|
  {
    if rows != [] {
      RowsUpdatesBound(t, pk, columns, rows[..|rows| - 1]);
      RowUpdatesBound(t, pk, columns, rows[|rows| - 1]);
      assert |rows| * |columns| == (|rows| - 1) * |columns| + |columns|;
    }
  }

  lemma {:induction false} RowUpdatesFull(t: string, pk: seq<string>, columns: seq<string>, row: Row)
    requires forall c :: c in columns ==> Cell(row, c) != Null
    ensures |RowUpdates(t, pk, columns, row)| == |columns|
  {
    if columns != [] { RowUpdatesFull(t, pk, columns[..|columns| - 1], row); }
  }

  // Rows with no self-reference NULL need an update for every one.
  lemma {:induction false} RowsUpdatesFull(t: string, pk: seq<string>, columns: seq<string>, rows: seq<Row>)
    requires forall k, c :: 0 <= k < |rows| && c in columns ==> Cell(rows[k], c) != Null
    ensures |RowsUpdates(t, pk, columns, rows)| == |rows| * |columns|
  {
    if rows != [] {
      var k := |rows| - 1;
      RowsUpdatesFull(t, pk, columns, rows[..k]);
      RowUpdatesFull(t, pk, columns, rows[k]);
      assert |rows| * |columns| == k * |columns| + |columns|;
    }
  }

  function AllUpdates(catalog: Catalog, source: Source, names: seq<string>): seq<Statement>
    requires catalog.Keys == source.Keys && forall n :: n in names ==> n in catalog
  {
    if names == [] then []
    else
      var last := names[|names| - 1];
      AllUpdates(catalog, source, names[..|names| - 1])
      + SelfRefUpdates(last, catalog[last].pk, SelfRefs(catalog, last), RowsOf(source[last]))
  }

  // ----- one update

  ghost predicate IsCell(catalog: Catalog, source: Source, t: string, k: nat, c: string) {
    && t in catalog && t in source && k < |source[t]| && c in SelfRefs(catalog, t)
    && catalog[t].pk != [] && Cell(source[t][k].row, c) != Null
  }

  function UpdateAt(catalog: Catalog, source: Source, t: string, k: nat, c: string): Statement
    requires t in catalog && t in source && k < |source[t]|
  {
    CellUpdate(t, catalog[t].pk, source[t][k].row, c)
  }

  // Every row is there; only self-references may still be missing.
  ghost predicate Filled(catalog: Catalog, source: Source, db: Tables) {
    PartialCopy(catalog, source, db) && forall t :: t in catalog ==> |db[t]| == |source[t]|
  }

  ghost predicate Restored(source: Source, db: Tables, t: string, k: nat, c: string)
    requires t in db && t in source && k < |source[t]| && k < |db[t]|
  {
    Cell(db[t][k], c) == Cell(source[t][k].row, c)
  }

  lemma FilledIsSound(catalog: Catalog, source: Source, db: Tables)
    requires source.Keys == catalog.Keys && SchemaReady(catalog)
    requires SourceReady(catalog, source) && SelfContained(catalog, source) && Filled(catalog, source, db)
    ensures Sound(catalog, db)
  {
    forall t, f | t in catalog && 0 <= f < |catalog[t].foreignKeys|
      ensures KeyRooted(source, db, t, catalog[t].foreignKeys[f])
    {
    }
    PartialIsSound(catalog, source, db);
  }

  lemma NullKeyMatchesNothing(row: Row, from: Row, pk: seq<string>)
    requires Vacuous(from, pk)
    ensures !MatchesKey(row, pk, Key(from, pk))
  {
    var i :| 0 <= i < |pk| && Cell(from, pk[i]) == Null;
    if Key(row, pk) == Key(from, pk) {
      assert Key(row, pk)[i] == Null;
    }
  }

  // The WHERE clause finds the one row it was made from, or none if that row has no full key.
  lemma UpdateHitsItsRow(catalog: Catalog, source: Source, db: Tables, t: string, k: nat, c: string, j: nat)
    requires source.Keys == catalog.Keys && SchemaReady(catalog)
    requires SourceReady(catalog, source) && Filled(catalog, source, db)
    requires IsCell(catalog, source, t, k, c) && j < |db[t]|
    ensures MatchesKey(db[t][j], catalog[t].pk, Key(source[t][k].row, catalog[t].pk)) <==>
      j == k && Keyed(catalog[t], source[t][k].row)
  {
    var pk := catalog[t].pk;
    assert KeyOffSelfRefs(catalog, t);
    PartialColumns(catalog, source, db, t, j, pk);
    if j != k {
      assert !SameKey(Contents(source)[t][j], Contents(source)[t][k], pk);
    }
    if Vacuous(source[t][k].row, pk) {
      NullKeyMatchesNothing(db[t][j], source[t][k].row, pk);
    }
  }

  // An UPDATE whose key holds a NULL changes nothing.
  lemma UpdateMissesAll(catalog: Catalog, source: Source, db: Tables, t: string, k: nat, c: string)
    requires source.Keys == catalog.Keys && SchemaReady(catalog)
    requires SourceReady(catalog, source) && Filled(catalog, source, db)
    requires IsCell(catalog, source, t, k, c) && !Keyed(catalog[t], source[t][k].row)
    ensures Effect(db, UpdateAt(catalog, source, t, k, c)) == db
    ensures SelfContained(catalog, source) ==> Accepts(catalog, db, UpdateAt(catalog, source, t, k, c))
  {
    hide SchemaReady, SourceReady, SelfContained, Sound;
    var u := UpdateAt(catalog, source, t, k, c);
    forall j | 0 <= j < |db[t]| ensures Effect(db, u)[t][j] == db[t][j] {
      NullKeyMatchesNothing(db[t][j], source[t][k].row, catalog[t].pk);
    }
    assert Effect(db, u)[t] == db[t];
    assert Effect(db, u) == db;
    if SelfContained(catalog, source) { FilledIsSound(catalog, source, db); }
  }

  // The effect of one restoring UPDATE, row by row.
  lemma UpdateSetsCell(catalog: Catalog, source: Source, db: Tables, t: string, k: nat, c: string)
    requires source.Keys == catalog.Keys && SchemaReady(catalog)
    requires SourceReady(catalog, source) && Filled(catalog, source, db)
    requires IsCell(catalog, source, t, k, c) && Keyed(catalog[t], source[t][k].row)
    ensures Effect(db, UpdateAt(catalog, source, t, k, c))
      == db[t := db[t][k := db[t][k][c := Cell(source[t][k].row, c)]]]
  {
    hide SchemaReady, SourceReady, PartialTable, MatchesKey, Keyed;
    var db' := Effect(db, UpdateAt(catalog, source, t, k, c));
    var row := db[t][k][c := Cell(source[t][k].row, c)];
    forall j | 0 <= j < |db[t]| ensures db'[t][j] == if j == k then row else db[t][j] {
      UpdateHitsItsRow(catalog, source, db, t, k, c, j);
    }
    assert db'[t] == db[t][k := row];
  }

  // Another partial form of one row keeps the copy filled.
  lemma RowStaysPartial(catalog: Catalog, source: Source, db: Tables, t: string, k: nat, row: Row)
    requires Filled(catalog, source, db) && t in catalog && k < |db[t]|
    requires PartialRow(SelfRefs(catalog, t), MirrorRow(catalog[t], SelfRefs(catalog, t), source[t][k].row), row)
    ensures Filled(catalog, source, db[t := db[t][k := row]])
  {
    hide PartialRow, MirrorRow;
    var db' := db[t := db[t][k := row]];
    assert PartialTable(catalog[t], SelfRefs(catalog, t), source[t], db[t]);
    forall s | s in catalog ensures PartialTable(catalog[s], SelfRefs(catalog, s), source[s], db'[s]) {
      assert PartialTable(catalog[s], SelfRefs(catalog, s), source[s], db[s]);
    }
  }

  lemma UpdateRestores(catalog: Catalog, source: Source, db: Tables, t: string, k: nat, c: string)
    requires source.Keys == catalog.Keys && SchemaReady(catalog)
    requires SourceReady(catalog, source) && Filled(catalog, source, db)
    requires IsCell(catalog, source, t, k, c) && Keyed(catalog[t], source[t][k].row)
    ensures var db' := Effect(db, UpdateAt(catalog, source, t, k, c));
      && (SelfContained(catalog, source) ==> Accepts(catalog, db, UpdateAt(catalog, source, t, k, c)))
      && Filled(catalog, source, db')
      && db' == db[t := db[t][k := db[t][k][c := Cell(source[t][k].row, c)]]]
  {
    hide SchemaReady, SourceReady, SelfContained, Sound, Effect;
    UpdateSetsCell(catalog, source, db, t, k, c);
    assert PartialTable(catalog[t], SelfRefs(catalog, t), source[t], db[t]);
    assert PartialRow(SelfRefs(catalog, t), MirrorRow(catalog[t], SelfRefs(catalog, t), source[t][k].row), db[t][k]);
    RowStaysPartial(catalog, source, db, t, k, db[t][k][c := Cell(source[t][k].row, c)]);
    if SelfContained(catalog, source) {
      FilledIsSound(catalog, source, Effect(db, UpdateAt(catalog, source, t, k, c)));
    }
  }

  // ----- all updates

  ghost predicate Genuine(catalog: Catalog, source: Source, u: Statement) {
    exists t, k: nat, c :: IsCell(catalog, source, t, k, c) && u == UpdateAt(catalog, source, t, k, c)
  }

  ghost predicate Advanced(catalog: Catalog, source: Source, db: Tables, db': Tables)
    requires Filled(catalog, source, db) && Filled(catalog, source, db')
  {
    && (forall t, k: nat :: t in catalog && k < |source[t]| && !Keyed(catalog[t], source[t][k].row) ==>
         db'[t][k] == db[t][k])
    && (forall t, k: nat, c :: t in catalog && k < |source[t]| && Restored(source, db, t, k, c) ==>
         Restored(source, db', t, k, c))
  }

  lemma UpdateAdvances(catalog: Catalog, source: Source, db: Tables, t: string, k: nat, c: string)
    requires source.Keys == catalog.Keys && SchemaReady(catalog)
    requires SourceReady(catalog, source) && Filled(catalog, source, db)
    requires IsCell(catalog, source, t, k, c)
    ensures SelfContained(catalog, source) ==> Accepts(catalog, db, UpdateAt(catalog, source, t, k, c))
    ensures Filled(catalog, source, Effect(db, UpdateAt(catalog, source, t, k, c)))
    ensures Advanced(catalog, source, db, Effect(db, UpdateAt(catalog, source, t, k, c)))
    ensures Keyed(catalog[t], source[t][k].row) ==>
      Restored(source, Effect(db, UpdateAt(catalog, source, t, k, c)), t, k, c)
  {
    if !Keyed(catalog[t], source[t][k].row) {
      UpdateMissesAll(catalog, source, db, t, k, c);
      return;
    }
    UpdateRestores(catalog, source, db, t, k, c);
    var db' := Effect(db, UpdateAt(catalog, source, t, k, c));
    forall s, j: nat, d | s in catalog && j < |source[s]| && Restored(source, db, s, j, d)
      ensures Restored(source, db', s, j, d)
    {
    }
  }

  lemma AdvancedTransitive(catalog: Catalog, source: Source, a: Tables, b: Tables, c: Tables)
    requires Filled(catalog, source, a) && Filled(catalog, source, b) && Filled(catalog, source, c)
    requires Advanced(catalog, source, a, b) && Advanced(catalog, source, b, c)
    ensures Advanced(catalog, source, a, c)
  {
  }

  lemma GenuineAdvances(catalog: Catalog, source: Source, db: Tables, u: Statement)
    requires source.Keys == catalog.Keys && SchemaReady(catalog)
    requires SourceReady(catalog, source) && Filled(catalog, source, db)
    requires Genuine(catalog, source, u)
    ensures SelfContained(catalog, source) ==> Accepts(catalog, db, u)
    ensures Filled(catalog, source, Effect(db, u)) && Advanced(catalog, source, db, Effect(db, u))
  {
    hide SchemaReady, SourceReady, SelfContained, Filled, Advanced, Accepts, Effect;
    var t, k: nat, c :| IsCell(catalog, source, t, k, c) && u == UpdateAt(catalog, source, t, k, c);
    UpdateAdvances(catalog, source, db, t, k, c);
  }

  lemma StandsStill(catalog: Catalog, source: Source, db: Tables)
    requires Filled(catalog, source, db)
    ensures Advanced(catalog, source, db, db)
  {
  }

  lemma {:induction false} UpdatesRun(catalog: Catalog, source: Source, db: Tables, us: seq<Statement>)
    requires source.Keys == catalog.Keys && SchemaReady(catalog)
    requires SourceReady(catalog, source) && Filled(catalog, source, db)
    requires forall i :: 0 <= i < |us| ==> Genuine(catalog, source, us[i])
    ensures SelfContained(catalog, source) ==> BatchAccepted(catalog, db, us)
    ensures Filled(catalog, source, BatchEffect(db, us)) && Advanced(catalog, source, db, BatchEffect(db, us))
    decreases |us|
  {
    hide SchemaReady, SourceReady, SelfContained, Filled, Advanced, Accepts, Effect, Genuine;
    if us == [] {
      StandsStill(catalog, source, db);
    } else {
      assert Genuine(catalog, source, us[0]);
      GenuineAdvances(catalog, source, db, us[0]);
      var db' := Effect(db, us[0]);
      UpdatesRun(catalog, source, db', us[1..]);
      AdvancedTransitive(catalog, source, db, db', BatchEffect(db', us[1..]));
    }
  }

  // Once the update for a cell has run, the cell holds the source's value to the end.
  lemma {:induction false} UpdateLands(catalog: Catalog, source: Source, db: Tables, us: seq<Statement>, i: nat,
                                       t: string, k: nat, c: string)
    requires source.Keys == catalog.Keys && SchemaReady(catalog)
    requires SourceReady(catalog, source) && Filled(catalog, source, db)
    requires forall j :: 0 <= j < |us| ==> Genuine(catalog, source, us[j])
    requires IsCell(catalog, source, t, k, c) && Keyed(catalog[t], source[t][k].row)
    requires i < |us| && us[i] == UpdateAt(catalog, source, t, k, c)
    ensures Filled(catalog, source, BatchEffect(db, us)) && Restored(source, BatchEffect(db, us), t, k, c)
    decreases |us|
  {
    hide SchemaReady, SourceReady, Accepts, Effect, Genuine, PartialCopy;
    assert Genuine(catalog, source, us[0]);
    GenuineAdvances(catalog, source, db, us[0]);
    var db' := Effect(db, us[0]);
    if i == 0 {
      UpdateAdvances(catalog, source, db, t, k, c);
      UpdatesRun(catalog, source, db', us[1..]);
    } else {
      UpdateLands(catalog, source, db', us[1..], i - 1, t, k, c);
    }
  }

  // ----- the list the engine builds is exactly the non-null self-reference cells

  lemma {:induction false} RowUpdatesMember(t: string, pk: seq<string>, columns: seq<string>, row: Row, u: Statement)
    ensures u in RowUpdates(t, pk, columns, row) <==>
      exists i :: 0 <= i < |columns| && Cell(row, columns[i]) != Null && u == CellUpdate(t, pk, row, columns[i])
  {
    if columns != [] { RowUpdatesMember(t, pk, columns[..|columns| - 1], row, u); }
  }

  lemma {:induction false} RowsUpdatesMember(t: string, pk: seq<string>, columns: seq<string>, rows: seq<Row>,
                                             u: Statement)
    ensures u in RowsUpdates(t, pk, columns, rows) <==>
      exists k :: 0 <= k < |rows| && u in RowUpdates(t, pk, columns, rows[k])
  {
    hide RowUpdates;
    if rows != [] {
      var front, n := rows[..|rows| - 1], |rows| - 1;
      RowsUpdatesMember(t, pk, columns, front, u);
      assert RowsUpdates(t, pk, columns, rows)
        == RowsUpdates(t, pk, columns, front) + RowUpdates(t, pk, columns, rows[n]);
      if k :| 0 <= k < n && u in RowUpdates(t, pk, columns, rows[k]) {
        assert u in RowUpdates(t, pk, columns, front[k]);
      }
    }
  }

  lemma {:induction false} AllUpdatesGenuine(catalog: Catalog, source: Source, names: seq<string>)
    requires catalog.Keys == source.Keys && forall n :: n in names ==> n in catalog
    ensures forall i :: 0 <= i < |AllUpdates(catalog, source, names)| ==>
      Genuine(catalog, source, AllUpdates(catalog, source, names)[i])
  {
    if names != [] {
      var last := names[|names| - 1];
      var rows := RowsOf(source[last]);
      AllUpdatesGenuine(catalog, source, names[..|names| - 1]);
      var added := SelfRefUpdates(last, catalog[last].pk, SelfRefs(catalog, last), rows);
      forall i | 0 <= i < |added| ensures Genuine(catalog, source, added[i]) {
        var u := added[i];
        RowsUpdatesMember(last, catalog[last].pk, SelfRefs(catalog, last), rows, u);
        var k :| 0 <= k < |rows| && u in RowUpdates(last, catalog[last].pk, SelfRefs(catalog, last), rows[k]);
        RowUpdatesMember(last, catalog[last].pk, SelfRefs(catalog, last), rows[k], u);
        var j :| 0 <= j < |SelfRefs(catalog, last)| && Cell(rows[k], SelfRefs(catalog, last)[j]) != Null
          && u == CellUpdate(last, catalog[last].pk, rows[k], SelfRefs(catalog, last)[j]);
        assert IsCell(catalog, source, last, k, SelfRefs(catalog, last)[j]);
      }
    }
  }

  lemma {:induction false} AllUpdatesComplete(catalog: Catalog, source: Source, names: seq<string>, t: string, k: nat,
                                              c: string)
    requires catalog.Keys == source.Keys && forall n :: n in names ==> n in catalog
    requires IsCell(catalog, source, t, k, c) && t in names
    ensures UpdateAt(catalog, source, t, k, c) in AllUpdates(catalog, source, names)
  {
    var last := names[|names| - 1];
    if last == t {
      var rows, u := RowsOf(source[t]), UpdateAt(catalog, source, t, k, c);
      var i :| 0 <= i < |SelfRefs(catalog, t)| && SelfRefs(catalog, t)[i] == c;
      RowUpdatesMember(t, catalog[t].pk, SelfRefs(catalog, t), rows[k], u);
      RowsUpdatesMember(t, catalog[t].pk, SelfRefs(catalog, t), rows, u);
    } else {
      assert names == names[..|names| - 1] + [last];
      AllUpdatesComplete(catalog, source, names[..|names| - 1], t, k, c);
    }
  }

  // ----- the final state

  lemma LoadedIsFilled(catalog: Catalog, order: seq<string>, source: Source)
    requires source.Keys == catalog.Keys && SourceReady(catalog, source) && OrderReady(catalog, order)
    ensures Filled(catalog, source, LoadState(catalog, order, source, |order|, 0))
  {
    LoadStatePartial(catalog, order, source, |order|, 0);
    assert order[..|order|] == order;
    forall t | t in catalog ensures t in order { assert t in Elems(order); }
  }

  // The state after the second pass, all of whose statements are accepted from a self-contained source.
  ghost predicate Runs(catalog: Catalog, source: Source, db: Tables, us: seq<Statement>) {
    && (SelfContained(catalog, source) ==> BatchAccepted(catalog, db, us))
    && Filled(catalog, source, BatchEffect(db, us))
    && Filled(catalog, source, db) && Advanced(catalog, source, db, BatchEffect(db, us))
  }

  lemma LoadedRuns(catalog: Catalog, order: seq<string>, source: Source)
    requires source.Keys == catalog.Keys && SchemaReady(catalog)
    requires SourceReady(catalog, source) && OrderReady(catalog, order)
    requires forall n :: n in order ==> n in catalog
    ensures Runs(catalog, source, LoadState(catalog, order, source, |order|, 0), AllUpdates(catalog, source, order))
  {
    LoadedIsFilled(catalog, order, source);
    AllUpdatesGenuine(catalog, source, order);
    UpdatesRun(catalog, source, LoadState(catalog, order, source, |order|, 0), AllUpdates(catalog, source, order));
  }

  // The loaded destination after the whole second pass.
  function AfterUpdates(catalog: Catalog, order: seq<string>, source: Source): Tables
    requires source.Keys == catalog.Keys && forall n :: n in order ==> n in catalog
  {
    BatchEffect(LoadState(catalog, order, source, |order|, 0), AllUpdates(catalog, source, order))
  }

  ghost predicate CellBack(source: Source, end: Tables, t: string, k: nat, c: string) {
    t in end && t in source && k < |end[t]| && k < |source[t]| && Cell(end[t][k], c) == Cell(source[t][k].row, c)
  }

  lemma CellLands(catalog: Catalog, order: seq<string>, source: Source, t: string, k: nat, c: string)
    requires source.Keys == catalog.Keys && SchemaReady(catalog)
    requires SourceReady(catalog, source) && OrderReady(catalog, order)
    requires forall n :: n in order ==> n in catalog
    requires IsCell(catalog, source, t, k, c) && Keyed(catalog[t], source[t][k].row) && t in order
    ensures CellBack(source, AfterUpdates(catalog, order, source), t, k, c)
  {
    var us := AllUpdates(catalog, source, order);
    LoadedIsFilled(catalog, order, source);
    AllUpdatesGenuine(catalog, source, order);
    AllUpdatesComplete(catalog, source, order, t, k, c);
    hide SchemaReady, SourceReady, SelfContained, OrderReady, LoadState, AllUpdates;
    var i :| 0 <= i < |us| && us[i] == UpdateAt(catalog, source, t, k, c);
    UpdateLands(catalog, source, LoadState(catalog, order, source, |order|, 0), us, i, t, k, c);
  }

  // A row of a filled table whose self-references are all back is the source's row.
  lemma RowRestored(catalog: Catalog, source: Source, end: Tables, t: string, k: nat)
    requires source.Keys == catalog.Keys && Filled(catalog, source, end) && t in catalog && k < |source[t]|
    requires Keyed(catalog[t], source[t][k].row)
    requires forall c :: c in SelfRefs(catalog, t) && Cell(source[t][k].row, c) != Null ==>
      CellBack(source, end, t, k, c)
    ensures t in end && k < |end[t]| && end[t][k] == source[t][k].row
  {
    var full, part := source[t][k].row, end[t][k];
    assert PartialTable(catalog[t], SelfRefs(catalog, t), source[t], end[t]);
    assert PartialRow(SelfRefs(catalog, t), MirrorRow(catalog[t], SelfRefs(catalog, t), full), part);
    forall c | c in full ensures part[c] == full[c] {
      assert c in SelfRefs(catalog, t) && full[c] != Null ==> CellBack(source, end, t, k, c);
    }
    assert part == full;
  }

  ghost predicate RowMirrored(catalog: Catalog, source: Source, end: Tables, t: string, k: nat) {
    && t in catalog && t in source && t in end && k < |end[t]| == |source[t]|
    && end[t][k] == MirrorRow(catalog[t], SelfRefs(catalog, t), source[t][k].row)
  }

  // A row no UPDATE finds stays as it was loaded.
  lemma RowLeft(catalog: Catalog, order: seq<string>, source: Source, t: string, k: nat)
    requires source.Keys == catalog.Keys && SchemaReady(catalog) && SourceReady(catalog, source)
    requires OrderReady(catalog, order) && forall n :: n in order ==> n in catalog
    requires t in catalog && t in order && k < |source[t]| && !Keyed(catalog[t], source[t][k].row)
    ensures RowMirrored(catalog, source, AfterUpdates(catalog, order, source), t, k)
  {
    hide SchemaReady, SourceReady, SelfContained, OrderReady, AllUpdates, BatchEffect, BatchAccepted, Keyed,
         PartialTable;
    LoadedRuns(catalog, order, source);
    assert order[..|order|] == order;
    var db := LoadState(catalog, order, source, |order|, 0);
    assert db[t][k] == InsertRow(catalog[t].columns, SelfRefs(catalog, t), source[t][k].row);
  }

  lemma RowBack(catalog: Catalog, order: seq<string>, source: Source, t: string, k: nat)
    requires source.Keys == catalog.Keys && SchemaReady(catalog) && SourceReady(catalog, source)
    requires OrderReady(catalog, order) && forall n :: n in order ==> n in catalog
    requires t in catalog && t in order && k < |source[t]| && Keyed(catalog[t], source[t][k].row)
    ensures RowMirrored(catalog, source, AfterUpdates(catalog, order, source), t, k)
  {
    hide SchemaReady, SourceReady, SelfContained, OrderReady, LoadState, AllUpdates, BatchEffect, BatchAccepted,
         Advanced, CellBack, PartialCopy;
    LoadedRuns(catalog, order, source);
    var end := AfterUpdates(catalog, order, source);
    forall c | c in SelfRefs(catalog, t) && Cell(source[t][k].row, c) != Null ensures CellBack(source, end, t, k, c) {
      CellLands(catalog, order, source, t, k, c);
    }
    RowRestored(catalog, source, end, t, k);
  }

  lemma RowsMirrored(catalog: Catalog, source: Source, end: Tables, t: string)
    requires source.Keys == catalog.Keys && t in catalog && t in end && |end[t]| == |source[t]|
    requires forall k: nat :: k < |source[t]| ==> RowMirrored(catalog, source, end, t, k)
    ensures end[t] == Mirror(catalog, source)[t]
  {
    hide MirrorRow;
    forall k | 0 <= k < |source[t]| ensures end[t][k] == Mirror(catalog, source)[t][k] {
      assert RowMirrored(catalog, source, end, t, k);
    }
  }

  lemma InTheOrder(catalog: Catalog, order: seq<string>, t: string)
    requires OrderReady(catalog, order) && t in catalog
    ensures t in order
  {
    assert t in Elems(order);
  }

  // The second pass is accepted, and all tables and rows are still there after it.
  lemma RestoreFills(catalog: Catalog, order: seq<string>, source: Source, t: string)
    requires source.Keys == catalog.Keys && SchemaReady(catalog) && SourceReady(catalog, source)
    requires OrderReady(catalog, order) && forall n :: n in order ==> n in catalog
    requires t in catalog
    ensures t in AfterUpdates(catalog, order, source) && |AfterUpdates(catalog, order, source)[t]| == |source[t]|
  {
    hide SchemaReady, SourceReady, SelfContained, OrderReady, LoadState, AllUpdates, BatchEffect, BatchAccepted,
         PartialTable, Advanced;
    LoadedRuns(catalog, order, source);
  }

  lemma TableBack(catalog: Catalog, order: seq<string>, source: Source, t: string)
    requires source.Keys == catalog.Keys && SchemaReady(catalog) && SourceReady(catalog, source)
    requires OrderReady(catalog, order) && forall n :: n in order ==> n in catalog
    requires t in catalog && t in AfterUpdates(catalog, order, source)
    ensures AfterUpdates(catalog, order, source)[t] == Mirror(catalog, source)[t]
  {
    hide SchemaReady, SourceReady, SelfContained, OrderReady, AfterUpdates, Runs, MirrorRow, Keyed, RowMirrored, Mirror;
    InTheOrder(catalog, order, t);
    var end := AfterUpdates(catalog, order, source);
    assert |end[t]| == |source[t]| by { RestoreFills(catalog, order, source, t); }
    forall k | 0 <= k < |source[t]| ensures RowMirrored(catalog, source, end, t, k) {
      if Keyed(catalog[t], source[t][k].row) {
        RowBack(catalog, order, source, t, k);
      } else {
        RowLeft(catalog, order, source, t, k);
      }
    }
    RowsMirrored(catalog, source, end, t);
  }

  lemma RestoreRuns(catalog: Catalog, order: seq<string>, source: Source)
    requires source.Keys == catalog.Keys && SchemaReady(catalog) && SourceReady(catalog, source)
    requires OrderReady(catalog, order) && forall n :: n in order ==> n in catalog
    ensures SelfContained(catalog, source) ==>
      BatchAccepted(catalog, LoadState(catalog, order, source, |order|, 0), AllUpdates(catalog, source, order))
    ensures AfterUpdates(catalog, order, source).Keys == catalog.Keys
  {
    hide SchemaReady, SourceReady, SelfContained, OrderReady, LoadState, AllUpdates, BatchEffect, BatchAccepted,
         PartialTable, Advanced;
    LoadedRuns(catalog, order, source);
  }

  /** Restoring every self-reference of the loaded destination gives the mirror. */
  lemma RestoreGivesMirror(catalog: Catalog, order: seq<string>, source: Source)
    requires source.Keys == catalog.Keys && SchemaReady(catalog) && SourceReady(catalog, source)
    requires OrderReady(catalog, order) && forall n :: n in order ==> n in catalog
    ensures AfterUpdates(catalog, order, source) == Mirror(catalog, source)
  {
    hide *;
    RestoreRuns(catalog, order, source);
    var end, mirror := AfterUpdates(catalog, order, source), Mirror(catalog, source);
    forall t | t in mirror.Keys ensures end[t] == mirror[t] {
      TableBack(catalog, order, source, t);
    }
    assert end == mirror;
  }

  // ----- the whole list of a run

  // The INSERTs of the first `i` tables, `perStatement(t)` rows of a table at a time.
  function LoadScript(catalog: Catalog, order: seq<string>, source: Source, i: nat,
                      perStatement: string -> nat): seq<Statement>
    requires source.Keys == catalog.Keys && i <= |order| && forall n :: n in order ==> n in catalog
    requires forall t :: perStatement(t) > 0
  {
    if i == 0 then []
    else
      var t := order[i - 1];
      LoadScript(catalog, order, source, i - 1, perStatement)
      + PageStatements(catalog, order, source, i - 1, 0, |source[t]|, perStatement(t))
  }

  // The first `i` tables get loaded, and from a self-contained source every INSERT is accepted.
  ghost predicate ScriptLoads(catalog: Catalog, order: seq<string>, source: Source, i: nat,
                              perStatement: string -> nat)
    requires source.Keys == catalog.Keys && i <= |order| && forall n :: n in order ==> n in catalog
    requires forall t :: perStatement(t) > 0
  {
    var empty, ss := LoadState(catalog, order, source, 0, 0), LoadScript(catalog, order, source, i, perStatement);
    && BatchEffect(empty, ss) == LoadState(catalog, order, source, i, 0)
    && (SelfContained(catalog, source) ==> BatchAccepted(catalog, empty, ss))
  }

  lemma {:induction false} LoadScriptRuns(catalog: Catalog, order: seq<string>, source: Source, i: nat,
                                          perStatement: string -> nat)
    requires SchemaReady(catalog) && SourceReady(catalog, source) && OrderReady(catalog, order)
    requires i <= |order| && (forall n :: n in order ==> n in catalog) && forall t :: perStatement(t) > 0
    ensures ScriptLoads(catalog, order, source, i, perStatement)
  {
    hide SchemaReady, SelfContained, KeysUnique, OrderReady, LoadState, PageStatements, Accepts, Effect;
    if i > 0 {
      var t, empty := order[i - 1], LoadState(catalog, order, source, 0, 0);
      LoadScriptRuns(catalog, order, source, i - 1, perStatement);
      PageRuns(catalog, order, source, i - 1, 0, |source[t]|, perStatement(t));
      BatchConcat(catalog, empty, LoadScript(catalog, order, source, i - 1, perStatement),
                  PageStatements(catalog, order, source, i - 1, 0, |source[t]|, perStatement(t)));
      TableDone(catalog, order, source, i - 1);
    }
  }

  // Everything a run sends after the clear.
  function CopyScript(catalog: Catalog, order: seq<string>, source: Source, perStatement: string -> nat): seq<Statement>
    requires source.Keys == catalog.Keys && forall n :: n in order ==> n in catalog
    requires forall t :: perStatement(t) > 0
  {
    LoadScript(catalog, order, source, |order|, perStatement) + AllUpdates(catalog, source, order)
  }

  lemma EmptyIsSound(catalog: Catalog, order: seq<string>, source: Source)
    requires source.Keys == catalog.Keys
    ensures Sound(catalog, LoadState(catalog, order, source, 0, 0))
  {
  }

  /** The load and the second pass are accepted exactly when the rows to copy refer only to
      rows to copy; whether they are or not, they would leave the mirror. */
  lemma CopyAccepted(catalog: Catalog, order: seq<string>, source: Source, perStatement: string -> nat)
    requires SchemaReady(catalog) && SourceReady(catalog, source) && OrderReady(catalog, order)
    requires (forall n :: n in order ==> n in catalog) && forall t :: perStatement(t) > 0
    ensures var empty, ss := LoadState(catalog, order, source, 0, 0), CopyScript(catalog, order, source, perStatement);
      && (BatchAccepted(catalog, empty, ss) <==> SelfContained(catalog, source))
      && BatchEffect(empty, ss) == Mirror(catalog, source)
  {
    hide SchemaReady, SelfContained, KeysUnique, OrderReady, LoadState, BatchAccepted, BatchEffect, AllUpdates, Mirror,
         LoadScript;
    var empty, load, us := LoadState(catalog, order, source, 0, 0),
      LoadScript(catalog, order, source, |order|, perStatement), AllUpdates(catalog, source, order);
    LoadScriptRuns(catalog, order, source, |order|, perStatement);
    RestoreRuns(catalog, order, source);
    RestoreGivesMirror(catalog, order, source);
    BatchConcat(catalog, empty, load, us);
    if BatchAccepted(catalog, empty, load + us) {
      EmptyIsSound(catalog, order, source);
      AcceptedStaysSound(catalog, empty, load + us, |load + us|);
      assert (load + us)[..|load + us|] == load + us;
      MirrorIsSound(catalog, source);
    }
  }

  // ----- when the mirror is the source

  // No self-reference of the row is lost: an UPDATE can find it, or there is none to restore.
  ghost predicate Restorable(schema: TableSchema, selfRefs: seq<string>, row: Row) {
    Keyed(schema, row) || forall c :: c in selfRefs ==> Cell(row, c) == Null
  }

  lemma MirrorRowIs(schema: TableSchema, selfRefs: seq<string>, row: Row)
    requires row.Keys == Elems(schema.columns)
    ensures MirrorRow(schema, selfRefs, row) == row <==> Restorable(schema, selfRefs, row)
  {
    hide Keyed;
    var mirrored := MirrorRow(schema, selfRefs, row);
    if Restorable(schema, selfRefs, row) {
      forall c | c in row ensures mirrored[c] == row[c] {
        if c in selfRefs && !Keyed(schema, row) { assert Cell(row, c) == Null; }
      }
    } else {
      var c :| c in selfRefs && Cell(row, c) != Null;
      assert mirrored[c] == Null;
    }
  }

  /** The mirror is the source itself exactly when no row that an UPDATE cannot find, in a
      table without a primary key or under a key with a NULL, holds a self-reference. */
  lemma MirrorIsSource(catalog: Catalog, source: Source)
    requires source.Keys == catalog.Keys && SourceReady(catalog, source)
    ensures Mirror(catalog, source) == Contents(source) <==>
      forall t, k :: t in catalog && 0 <= k < |source[t]| ==>
        Restorable(catalog[t], SelfRefs(catalog, t), source[t][k].row)
  {
    hide MirrorRow, Restorable, Sound;
    var mirror, contents := Mirror(catalog, source), Contents(source);
    forall t, k | t in catalog && 0 <= k < |source[t]|
      ensures mirror[t][k] == contents[t][k] <==> Restorable(catalog[t], SelfRefs(catalog, t), source[t][k].row)
    {
      assert TableReady(catalog[t], source[t]);
      MirrorRowIs(catalog[t], SelfRefs(catalog, t), source[t][k].row);
    }
    if mirror != contents {
      var t :| t in catalog && mirror[t] != contents[t];
      var k :| 0 <= k < |source[t]| && mirror[t][k] != contents[t][k];
    }
  }
}
