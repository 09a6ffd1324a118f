/** The parent-first reload: every multi-row INSERT is accepted, and after any number of
    them the destination is exactly the source's prefix with self-references nulled. */
module CopyLoad {
  import opened Common
  import opened Database
  import opened CopySpec

  function InsertRows(columns: seq<string>, selfRefs: seq<string>, rows: seq<Row>): (r: seq<Row>)
    ensures |r| == |rows| && forall k :: 0 <= k < |r| ==> r[k] == InsertRow(columns, selfRefs, rows[k])
  {
    seq(|rows|, k requires 0 <= k < |rows| => InsertRow(columns, selfRefs, rows[k]))
  }

  // One INSERT per `perStatement` rows of a page.
  function InsertStatements(t: string, columns: seq<string>, selfRefs: seq<string>, rows: seq<Row>,
                            perStatement: nat): seq<Statement>
    requires perStatement > 0
  {
    if rows == [] then []
    else
      var n := if |rows| < perStatement then |rows| else perStatement;
      [Insert(t, InsertRows(columns, selfRefs, rows[..n]))]
      + InsertStatements(t, columns, selfRefs, rows[n..], perStatement)
  }

  function Loaded(order: seq<string>, stored: seq<Stored>, i: nat, m: nat, t: string): seq<Row>
    requires i <= |order| && (i < |order| && order[i] == t ==> m <= |stored|)
  {
    if t in order[..i] then RowsOf(stored)
    else if i < |order| && order[i] == t then RowsOf(stored)[..m]
    else []
  }

  // The tables before `order[i]` are loaded, and `m` rows of `order[i]`.
  function LoadState(catalog: Catalog, order: seq<string>, source: Source, i: nat, m: nat): (db: Tables)
    requires i <= |order| && source.Keys == catalog.Keys
    requires i < |order| && order[i] in catalog ==> m <= |source[order[i]]|
    ensures db.Keys == catalog.Keys
  {
    map t | t in catalog :: InsertRows(catalog[t].columns, SelfRefs(catalog, t), Loaded(order, source[t], i, m, t))
  }

  lemma InsertedIsPartial(schema: TableSchema, selfRefs: seq<string>, row: Row)
    requires row.Keys == Elems(schema.columns)
    ensures PartialRow(selfRefs, MirrorRow(schema, selfRefs, row), InsertRow(schema.columns, selfRefs, row))
  {
    hide Keyed;
  }

  lemma InsertedTableIsPartial(schema: TableSchema, selfRefs: seq<string>, stored: seq<Stored>, n: nat)
    requires TableReady(schema, stored) && n <= |stored|
    ensures PartialTable(schema, selfRefs, stored, InsertRows(schema.columns, selfRefs, RowsOf(stored)[..n]))
  {
    hide MirrorRow, PartialRow;
    var rows := InsertRows(schema.columns, selfRefs, RowsOf(stored)[..n]);
    forall k | 0 <= k < n ensures PartialRow(selfRefs, MirrorRow(schema, selfRefs, stored[k].row), rows[k]) {
      InsertedIsPartial(schema, selfRefs, stored[k].row);
    }
  }

  lemma LoadedIsPrefix(order: seq<string>, stored: seq<Stored>, i: nat, m: nat, t: string)
    requires i <= |order| && (i < |order| && order[i] == t ==> m <= |stored|)
    ensures |Loaded(order, stored, i, m, t)| <= |stored|
    ensures Loaded(order, stored, i, m, t) == RowsOf(stored)[..|Loaded(order, stored, i, m, t)|]
  {
  }

  lemma LoadStatePartial(catalog: Catalog, order: seq<string>, source: Source, i: nat, m: nat)
    requires source.Keys == catalog.Keys && SourceReady(catalog, source) && OrderReady(catalog, order) && i <= |order|
    requires i < |order| ==> order[i] in catalog && m <= |source[order[i]]|
    ensures PartialCopy(catalog, source, LoadState(catalog, order, source, i, m))
  {
    hide KeysUnique, PartialTable, InsertRows, Loaded;
    var db := LoadState(catalog, order, source, i, m);
    forall t | t in catalog ensures PartialTable(catalog[t], SelfRefs(catalog, t), source[t], db[t]) {
      assert TableReady(catalog[t], source[t]);
      LoadedIsPrefix(order, source[t], i, m, t);
      InsertedTableIsPartial(catalog[t], SelfRefs(catalog, t), source[t], |Loaded(order, source[t], i, m, t)|);
    }
  }

  lemma InsertedSelfKey(columns: seq<string>, selfRefs: seq<string>, row: Row, keyColumns: seq<string>)
    requires keyColumns != [] && forall c :: c in keyColumns ==> c in selfRefs
    ensures Vacuous(InsertRow(columns, selfRefs, row), keyColumns)
  {
    assert keyColumns[0] in keyColumns;
    assert Cell(InsertRow(columns, selfRefs, row), keyColumns[0]) == Null;
  }

  lemma LoadStateRooted(catalog: Catalog, order: seq<string>, source: Source, i: nat, m: nat)
    requires source.Keys == catalog.Keys && SchemaReady(catalog) && SourceReady(catalog, source)
    requires OrderReady(catalog, order) && i <= |order|
    requires i < |order| ==> order[i] in catalog && m <= |source[order[i]]|
    ensures Rooted(catalog, source, LoadState(catalog, order, source, i, m))
  {
    var db := LoadState(catalog, order, source, i, m);
    forall t, f | t in catalog && 0 <= f < |catalog[t].foreignKeys|
      ensures KeyRooted(source, db, t, catalog[t].foreignKeys[f])
    {
      var fk := catalog[t].foreignKeys[f];
      assert KeyReady(catalog, t, fk);
      if fk.parent == t {
        forall k | 0 <= k < |db[t]| ensures Vacuous(db[t][k], fk.columns) {
          InsertedSelfKey(catalog[t].columns, SelfRefs(catalog, t), Loaded(order, source[t], i, m, t)[k], fk.columns);
        }
      } else if db[t] != [] {
        assert t in order[..i] || (i < |order| && order[i] == t);
        var at :| 0 <= at <= i && at < |order| && order[at] == t;
        assert ParentPlaced(catalog, order, at, fk.parent);
        assert fk.parent in order[..at] ==> fk.parent in order[..i];
      }
    }
  }

  lemma LoadStateSound(catalog: Catalog, order: seq<string>, source: Source, i: nat, m: nat)
    requires source.Keys == catalog.Keys && SchemaReady(catalog) && SourceReady(catalog, source)
    requires SelfContained(catalog, source) && OrderReady(catalog, order) && i <= |order|
    requires i < |order| ==> order[i] in catalog && m <= |source[order[i]]|
    ensures Sound(catalog, LoadState(catalog, order, source, i, m))
  {
    LoadStatePartial(catalog, order, source, i, m);
    LoadStateRooted(catalog, order, source, i, m);
    PartialIsSound(catalog, source, LoadState(catalog, order, source, i, m));
  }

  // The statement for rows `[m, m + n)` of `order[i]`.
  function NextInsert(catalog: Catalog, order: seq<string>, source: Source, i: nat, m: nat, n: nat): Statement
    requires source.Keys == catalog.Keys && i < |order| && order[i] in catalog && m + n <= |source[order[i]]|
  {
    var t := order[i];
    Insert(t, InsertRows(catalog[t].columns, SelfRefs(catalog, t), RowsOf(source[t])[m..m + n]))
  }

  lemma LoadedElsewhere(order: seq<string>, stored: seq<Stored>, i: nat, m: nat, n: nat, u: string)
    requires i < |order| && u != order[i]
    ensures Loaded(order, stored, i, m, u) == Loaded(order, stored, i, n, u)
  {
  }

  lemma LoadedHere(columns: seq<string>, selfRefs: seq<string>, order: seq<string>, stored: seq<Stored>, i: nat,
                   m: nat, n: nat)
    requires Distinct(order) && i < |order| && m + n <= |stored|
    ensures InsertRows(columns, selfRefs, Loaded(order, stored, i, m, order[i]))
          + InsertRows(columns, selfRefs, RowsOf(stored)[m..m + n])
      == InsertRows(columns, selfRefs, Loaded(order, stored, i, m + n, order[i]))
  {
  }

  lemma InsertAdvances(catalog: Catalog, order: seq<string>, source: Source, i: nat, m: nat, n: nat)
    requires source.Keys == catalog.Keys && Distinct(order)
    requires i < |order| && order[i] in catalog && m + n <= |source[order[i]]|
    ensures Effect(LoadState(catalog, order, source, i, m), NextInsert(catalog, order, source, i, m, n))
      == LoadState(catalog, order, source, i, m + n)
  {
    hide InsertRows, RowsOf, Loaded;
    var t := order[i];
    var a, b := LoadState(catalog, order, source, i, m), LoadState(catalog, order, source, i, m + n);
    var a' := Effect(a, NextInsert(catalog, order, source, i, m, n));
    LoadedHere(catalog[t].columns, SelfRefs(catalog, t), order, source[t], i, m, n);
    assert a'[t] == b[t];
    forall u | u in catalog && u != t ensures a'[u] == b[u] {
      LoadedElsewhere(order, source[u], i, m, m + n, u);
    }
    assert a' == b;
  }

  lemma InsertAccepted(catalog: Catalog, order: seq<string>, source: Source, i: nat, m: nat, n: nat)
    requires source.Keys == catalog.Keys && SchemaReady(catalog)
    requires SourceReady(catalog, source) && SelfContained(catalog, source) && OrderReady(catalog, order)
    requires i < |order| && order[i] in catalog && m + n <= |source[order[i]]|
    ensures Accepts(catalog, LoadState(catalog, order, source, i, m), NextInsert(catalog, order, source, i, m, n))
  {
    hide LoadState, SchemaReady, SourceReady, SelfContained, InsertRows, RowsOf;
    assert Distinct(order);
    InsertAdvances(catalog, order, source, i, m, n);
    LoadStateSound(catalog, order, source, i, m + n);
  }

  function PageStatements(catalog: Catalog, order: seq<string>, source: Source, i: nat, m: nat, n: nat,
                          perStatement: nat): seq<Statement>
    requires source.Keys == catalog.Keys && i < |order| && order[i] in catalog
    requires m + n <= |source[order[i]]| && perStatement > 0
  {
    var t := order[i];
    InsertStatements(t, catalog[t].columns, SelfRefs(catalog, t), RowsOf(source[t])[m..m + n], perStatement)
  }

  // The INSERTs for rows `[m, m + n)` of `order[i]` load exactly those rows, and they are
  // accepted when the source is self-contained.
  ghost predicate PageLoads(catalog: Catalog, order: seq<string>, source: Source, i: nat, m: nat, n: nat,
                            perStatement: nat)
    requires source.Keys == catalog.Keys && i < |order| && order[i] in catalog
    requires m + n <= |source[order[i]]| && perStatement > 0
  {
    var db, ss := LoadState(catalog, order, source, i, m),
                  PageStatements(catalog, order, source, i, m, n, perStatement);
    && BatchEffect(db, ss) == LoadState(catalog, order, source, i, m + n)
    && (SelfContained(catalog, source) ==> BatchAccepted(catalog, db, ss))
  }

  lemma PageSplits(catalog: Catalog, order: seq<string>, source: Source, i: nat, m: nat, n: nat, perStatement: nat)
    requires source.Keys == catalog.Keys && i < |order| && order[i] in catalog
    requires 0 < n && m + n <= |source[order[i]]| && perStatement > 0
    ensures var step := if n < perStatement then n else perStatement;
      PageStatements(catalog, order, source, i, m, n, perStatement)
      == [NextInsert(catalog, order, source, i, m, step)]
         + PageStatements(catalog, order, source, i, m + step, n - step, perStatement)
  {
    var step := if n < perStatement then n else perStatement;
    var rows := RowsOf(source[order[i]]);
    assert rows[m..m + n][..step] == rows[m..m + step];
    assert rows[m..m + n][step..] == rows[m + step..m + n];
  }

  lemma PageStep(catalog: Catalog, order: seq<string>, source: Source, i: nat, m: nat, n: nat, perStatement: nat,
                 step: nat)
    requires source.Keys == catalog.Keys && SchemaReady(catalog)
    requires SourceReady(catalog, source) && OrderReady(catalog, order)
    requires i < |order| && order[i] in catalog && m + n <= |source[order[i]]| && perStatement > 0
    requires 0 < n && step == if n < perStatement then n else perStatement
    requires PageLoads(catalog, order, source, i, m + step, n - step, perStatement)
    ensures PageLoads(catalog, order, source, i, m, n, perStatement)
  {
    hide LoadState, SchemaReady, SourceReady, SelfContained, InsertRows, RowsOf, Accepts, Effect, PageStatements,
         NextInsert;
    assert Distinct(order);
    PageSplits(catalog, order, source, i, m, n, perStatement);
    if SelfContained(catalog, source) { InsertAccepted(catalog, order, source, i, m, step); }
    InsertAdvances(catalog, order, source, i, m, step);
    BatchCons(catalog, LoadState(catalog, order, source, i, m), NextInsert(catalog, order, source, i, m, step),
              PageStatements(catalog, order, source, i, m + step, n - step, perStatement));
  }

  lemma PageEmpty(catalog: Catalog, order: seq<string>, source: Source, i: nat, m: nat, perStatement: nat)
    requires source.Keys == catalog.Keys && i < |order| && order[i] in catalog
    requires m <= |source[order[i]]| && perStatement > 0
    ensures PageLoads(catalog, order, source, i, m, 0, perStatement)
  {
  }

  /** A whole page, in INSERTs of `perStatement` rows. */
  lemma {:induction false} PageRuns(catalog: Catalog, order: seq<string>, source: Source, i: nat, m: nat, n: nat,
                                    perStatement: nat)
    requires source.Keys == catalog.Keys && SchemaReady(catalog)
    requires SourceReady(catalog, source) && OrderReady(catalog, order)
    requires i < |order| && order[i] in catalog && m + n <= |source[order[i]]| && perStatement > 0
    ensures PageLoads(catalog, order, source, i, m, n, perStatement)
    decreases n
  {
    hide *;
    if n > 0 {
      var step := if n < perStatement then n else perStatement;
      PageRuns(catalog, order, source, i, m + step, n - step, perStatement);
      PageStep(catalog, order, source, i, m, n, perStatement, step);
    } else {
      PageEmpty(catalog, order, source, i, m, perStatement);
    }
  }

  lemma LoadStarts(catalog: Catalog, order: seq<string>, source: Source)
    requires source.Keys == catalog.Keys
    ensures LoadState(catalog, order, source, 0, 0) == map t | t in catalog :: []
  {
  }

  lemma TableDone(catalog: Catalog, order: seq<string>, source: Source, i: nat)
    requires source.Keys == catalog.Keys && i < |order| && order[i] in catalog
    ensures LoadState(catalog, order, source, i, |source[order[i]]|) == LoadState(catalog, order, source, i + 1, 0)
  {
    var rows := RowsOf(source[order[i]]);
    assert rows[..|rows|] == rows;
    forall t | t in catalog
      ensures Loaded(order, source[t], i, |rows|, t) == Loaded(order, source[t], i + 1, 0, t)
    {
      assert order[..i + 1] == order[..i] + [order[i]];
    }
  }
}
