/** `copyExecute`: clear the destination, reload it page by page, restore the
    self-references. Every exit leaves the destination sound, a statement can be rejected only
    if a copied row refers to one that is not copied, and a normal return leaves the mirror of
    the source at the counted query cost. */
module CopyEngine {
  import opened Common
  import opened Introspect
  import opened Database
  import opened CopySpec
  import opened CopyClear
  import opened CopyLoad
  import opened CopyRestore
  import opened CopySizing
  import opened CopyPages
  import opened CopyPacing

  class SourceDatabase {
    const catalog: Catalog
    const tables: Source
    var queries: nat
    // How often a read failed.
    ghost var faults: nat

    constructor (catalog: Catalog, tables: Source)
      ensures this.catalog == catalog && this.tables == tables && queries == faults == 0
    {
      this.catalog, this.tables, queries, faults := catalog, tables, 0, 0;
    }
  }

  datatype Schema = Schema(tablesByName: map<string, TableInfo>, insertOrder: seq<string>, deleteOrder: seq<string>)

  datatype Outcome = Done(inserted: nat, perTable: map<string, nat>) | Aborted(cause: Answer)

  // What keyset pagination from rowid 0 can see.
  function Visible(source: Source): (v: Source)
    ensures v.Keys == source.Keys && forall t :: t in v ==> v[t] == Beyond(source[t], 0)
  {
    map t | t in source :: Beyond(source[t], 0)
  }

  /** The assumptions on the two databases, in one place. */
  ghost predicate Ready(catalog: Catalog, source: Source, order: seq<string>) {
    && SchemaReady(catalog)
    && SourceReady(catalog, source)
    && OrderReady(catalog, order)
    && forall t :: t in source ==> ByRowid(source[t])
  }

  // What is visible of a well-keyed source is well keyed.
  lemma VisibleReady(catalog: Catalog, source: Source)
    requires SourceReady(catalog, source) && forall t :: t in source ==> ByRowid(source[t])
    ensures SourceReady(catalog, Visible(source))
  {
    hide SameKey;
    var visible := Visible(source);
    forall t, i, j | t in catalog && t in visible && 0 <= i < |visible[t]| && 0 <= j < |visible[t]| && i != j
      ensures !SameKey(Contents(visible)[t][i], Contents(visible)[t][j], catalog[t].pk)
    {
      var n := BeyondSplits(source[t], 0);
      assert !SameKey(Contents(source)[t][n + i], Contents(source)[t][n + j], catalog[t].pk);
    }
    forall t | t in visible ensures TableReady(catalog[t], visible[t]) {
      var n := BeyondSplits(source[t], 0);
      assert TableReady(catalog[t], source[t]);
    }
  }

  ghost predicate SchemaOf(schema: Schema, catalog: Catalog) {
    && schema.tablesByName.Keys == catalog.Keys
    && (forall t :: t in catalog ==> schema.tablesByName[t] == InfoOf(t, catalog[t]))
    && schema.deleteOrder == Reverse(schema.insertOrder)
  }

  // ----- building the statements

  // `for (const col of table.selfRefColumns) clear.push(…)`
  method NullStatements(name: string, columns: seq<string>) returns (ss: seq<Statement>)
    ensures ss == NullTable(name, columns)
  {
    ss := [];
    for j := 0 to |columns|
      invariant ss == NullTable(name, columns[..j])
    {
      ss := ss + [ClearColumn(name, columns[j])];
    }
    assert columns[..|columns|] == columns;
  }

  lemma NullAllStep(catalog: Catalog, names: seq<string>, i: nat)
    requires i < |names| && forall n :: n in names ==> n in catalog
    ensures NullAll(catalog, names[i..])
      == NullTable(names[i], SelfRefs(catalog, names[i])) + NullAll(catalog, names[i + 1..])
  {
  }

  lemma NullAllEnds(catalog: Catalog, names: seq<string>)
    requires names == []
    ensures NullAll(catalog, names) == []
  {
  }

  method DeleteStatements(names: seq<string>) returns (ss: seq<Statement>)
    ensures ss == DeleteList(names)
  {
    ss := [];
    for i := 0 to |names|
      invariant ss == DeleteList(names[..i])
    {
      ss := ss + [DeleteAll(names[i])];
    }
    assert names[..|names|] == names;
  }

  method BuildClear(schema: Schema, ghost catalog: Catalog) returns (clear: seq<Statement>)
    requires SchemaOf(schema, catalog) && forall n :: n in schema.deleteOrder ==> n in catalog
    ensures clear == ClearScript(catalog, schema.deleteOrder)
  {
    hide NullTable, NullAll, DeleteList;
    clear := [];
    var names := schema.deleteOrder;
    for i := 0 to |names|
      invariant clear + NullAll(catalog, names[i..]) == NullAll(catalog, names)
    {
      NullAllStep(catalog, names, i);
      var nulls := NullStatements(names[i], schema.tablesByName[names[i]].selfRefColumns);
      clear := clear + nulls;
    }
    NullAllEnds(catalog, names[|names|..]);
    var deletes := DeleteStatements(names);
    clear := clear + deletes;
  }

  lemma InsertStep(table: TableInfo, page: seq<Row>, i: nat, end: nat, perStatement: nat)
    requires i < |page| && perStatement > 0 && end == Min(i + perStatement, |page|)
    ensures InsertStatements(table.name, table.columns, table.selfRefColumns, page[i..], perStatement)
      == [Insert(table.name, InsertRows(table.columns, table.selfRefColumns, page[i..end]))]
         + InsertStatements(table.name, table.columns, table.selfRefColumns, page[end..], perStatement)
  {
    hide InsertRows;
    assert page[i..][..end - i] == page[i..end] && page[i..][end - i..] == page[end..];
  }

  lemma InsertEnds(table: TableInfo, page: seq<Row>, perStatement: nat)
    requires perStatement > 0 && page == []
    ensures InsertStatements(table.name, table.columns, table.selfRefColumns, page, perStatement) == []
  {
  }

  lemma {:induction false} InsertCount(t: string, columns: seq<string>, selfRefs: seq<string>, rows: seq<Row>,
                                       perStatement: nat)
    requires perStatement > 0
    ensures |InsertStatements(t, columns, selfRefs, rows, perStatement)| == CeilDiv(|rows|, perStatement)
  {
    if rows == [] {
      CeilDivUnique(0, perStatement, 0);
    } else if |rows| <= perStatement {
      CeilDivUnique(|rows|, perStatement, 1);
    } else {
      InsertCount(t, columns, selfRefs, rows[perStatement..], perStatement);
      CeilDivSplit(1, |rows| - perStatement, perStatement);
    }
  }

  method BuildInserts(table: TableInfo, page: seq<Row>, perStatement: nat) returns (statements: seq<Statement>)
    requires perStatement > 0
    ensures statements == InsertStatements(table.name, table.columns, table.selfRefColumns, page, perStatement)
    ensures |statements| == CeilDiv(|page|, perStatement)
  {
    hide InsertStatements, InsertRows, CeilDiv;
    statements := [];
    var i := 0;
    while i < |page|
      invariant 0 <= i <= |page|
      invariant statements + InsertStatements(table.name, table.columns, table.selfRefColumns, page[i..], perStatement)
        == InsertStatements(table.name, table.columns, table.selfRefColumns, page, perStatement)
    {
      var end := Min(i + perStatement, |page|);
      InsertStep(table, page, i, end, perStatement);
      statements := statements + [Insert(table.name, InsertRows(table.columns, table.selfRefColumns, page[i..end]))];
      i := end;
    }
    InsertEnds(table, page[i..], perStatement);
    InsertCount(table.name, table.columns, table.selfRefColumns, page, perStatement);
  }

  method BuildUpdates(table: TableInfo, rows: seq<Row>) returns (updates: seq<Statement>)
    ensures updates == SelfRefUpdates(table.name, table.pkColumns, table.selfRefColumns, rows)
  {
    if |table.selfRefColumns| == 0 || |table.pkColumns| == 0 {
      return [];
    }
    updates := [];
    var columns := table.selfRefColumns;
    for i := 0 to |rows|
      invariant updates == RowsUpdates(table.name, table.pkColumns, columns, rows[..i])
    {
      ghost var before := updates;
      for j := 0 to |columns|
        invariant updates == before + RowUpdates(table.name, table.pkColumns, columns[..j], rows[i])
      {
        assert columns[..j + 1][..j] == columns[..j];
        if Cell(rows[i], columns[j]) != Null {
          updates := updates + [CellUpdate(table.name, table.pkColumns, rows[i], columns[j])];
        }
      }
      assert columns[..|columns|] == columns;
      assert rows[..i + 1][..i] == rows[..i];
    }
    assert rows[..|rows|] == rows;
  }

  // ----- one page

  method CopyPage(dest: Destination, pacer: Pacer, ghost order: seq<string>, ghost source: Source, ghost i: nat,
                  ghost m: nat,
                  table: TableInfo, sizing: TablePlan, page: seq<Row>) returns (a: Answer)
    requires source.Keys == dest.catalog.Keys && SchemaReady(dest.catalog)
    requires SourceReady(dest.catalog, source) && OrderReady(dest.catalog, order)
    requires i < |order| && order[i] in dest.catalog && table == InfoOf(order[i], dest.catalog[order[i]])
    requires WellSized(sizing) && m + |page| <= |source[order[i]]| && page == RowsOf(source[order[i]])[m..m + |page|]
    requires Sound(dest.catalog, dest.tables) && dest.tables == LoadState(dest.catalog, order, source, i, m)
    modifies dest, pacer
    ensures Sound(dest.catalog, dest.tables) && dest.refusals >= old(dest.refusals)
    ensures dest.faults == old(dest.faults) + if a == Broken then 1 else 0
    ensures a == Overloaded ==> dest.refusals >= old(dest.refusals) + 6
    ensures a == Rejected ==> !SelfContained(dest.catalog, source)
    ensures a == Applied ==> dest.tables == LoadState(dest.catalog, order, source, i, m + |page|)
    ensures a == Applied ==>
      dest.queries == old(dest.queries)
        + CeilDiv(|page|, sizing.rowsPerStatement * sizing.statementsPerBatch) + (dest.refusals - old(dest.refusals))
    ensures dest.queries <= old(dest.queries)
      + CeilDiv(|page|, sizing.rowsPerStatement * sizing.statementsPerBatch) + (dest.refusals - old(dest.refusals))
  {
    hide Sound, SchemaReady, SourceReady, SelfContained, OrderReady, LoadState;
    PageRuns(dest.catalog, order, source, i, m, |page|, sizing.rowsPerStatement);
    var statements := BuildInserts(table, page, sizing.rowsPerStatement);
    assert statements == PageStatements(dest.catalog, order, source, i, m, |page|, sizing.rowsPerStatement);
    CeilDivNested(|page|, sizing.rowsPerStatement, sizing.statementsPerBatch);
    ghost var before := dest.tables;
    a := RunInBatches(dest, statements, sizing.statementsPerBatch, pacer);
    StoppedIsSound(dest.catalog, before, statements, dest.tables);
  }

  // ----- one table

  // The query counts after `m` rows, `pages` of them full so far.
  ghost predicate PageCount(sizing: TablePlan, m: nat, pages: nat, finished: bool)
    requires WellSized(sizing)
  {
    if finished then pages == Reads(m, sizing.readPage) else m == pages * sizing.readPage
  }

  lemma QuotientUnique(x: nat, b: nat, q: nat, r: nat)
    requires b > 0 && x == q * b + r && r < b
    ensures x / b == q
  {
    var d := x / b;
    assert x == d * b + x % b;
    if d < q { MulMonotone(d + 1, q, b); }
    if d > q { MulMonotone(q + 1, d, b); }
  }

  lemma PageCounted(sizing: TablePlan, m: nat, pages: nat, p: nat)
    requires WellSized(sizing) && PageCount(sizing, m, pages, false) && p <= sizing.readPage
    ensures PageCount(sizing, m + p, pages + 1, p < sizing.readPage)
    ensures var perBatch := sizing.rowsPerStatement * sizing.statementsPerBatch;
      CeilDiv(m + p, perBatch) == CeilDiv(m, perBatch) + CeilDiv(p, perBatch)
  {
    var perBatch := sizing.rowsPerStatement * sizing.statementsPerBatch;
    var k := sizing.readPage / perBatch;
    assert sizing.readPage == k * perBatch;
    assert m == (pages * k) * perBatch;
    CeilDivSplit(pages * k, p, perBatch);
    CeilDivSplit(pages * k, 0, perBatch);
    CeilDivUnique(0, perBatch, 0);
    if p < sizing.readPage {
      QuotientUnique(m + p, sizing.readPage, pages, p);
    } else {
      assert m + p == (pages + 1) * sizing.readPage;
    }
  }

  lemma QuotientAtLeast(x: nat, b: nat, q: nat)
    requires b > 0 && q * b <= x
    ensures q <= x / b
  {
    var d := x / b;
    assert x == d * b + x % b;
    if d < q { MulMonotone(d + 1, q, b); }
  }

  // Where the stream of table `order[i]` stands after `pages` queries and `copied` rows.
  ghost predicate Progress(catalog: Catalog, order: seq<string>, source: Source, i: nat, sizing: TablePlan,
                           db: Tables, after: int, finished: bool, copied: nat, updates: seq<Statement>, pages: nat)
    requires source.Keys == catalog.Keys && i < |order| && order[i] in catalog && WellSized(sizing)
  {
    var t, visible := order[i], Visible(source);
    && Delivered(source[t], sizing.readPage, after, finished, copied)
    && db == LoadState(catalog, order, visible, i, copied)
    && updates == SelfRefUpdates(t, catalog[t].pk, SelfRefs(catalog, t), RowsOf(visible[t])[..copied])
    && PageCount(sizing, copied, pages, finished)
  }

  lemma ProgressStarts(catalog: Catalog, order: seq<string>, source: Source, i: nat, sizing: TablePlan)
    requires source.Keys == catalog.Keys && i < |order| && order[i] in catalog && WellSized(sizing)
    ensures Progress(catalog, order, source, i, sizing, LoadState(catalog, order, Visible(source), i, 0),
                     0, false, 0, [], 0)
  {
    hide SourceReady, SchemaReady, OrderReady, LoadState;
    var t := order[i];
    assert SelfRefUpdates(t, catalog[t].pk, SelfRefs(catalog, t), RowsOf(Visible(source)[t])[..0]) == [];
  }

  lemma ProgressEnds(catalog: Catalog, order: seq<string>, source: Source, i: nat, sizing: TablePlan,
                     db: Tables, after: int, copied: nat, updates: seq<Statement>, pages: nat)
    requires source.Keys == catalog.Keys && i < |order| && order[i] in catalog && WellSized(sizing)
    requires Progress(catalog, order, source, i, sizing, db, after, true, copied, updates, pages)
    ensures db == LoadState(catalog, order, Visible(source), i + 1, 0)
    ensures copied == |Visible(source)[order[i]]| && pages == Reads(copied, sizing.readPage)
    ensures updates == SelfRefUpdates(order[i], catalog[order[i]].pk, SelfRefs(catalog, order[i]),
                                    RowsOf(Visible(source)[order[i]]))
  {
    hide SourceReady, SchemaReady, OrderReady, LoadState, SelfRefUpdates;
    var rows := RowsOf(Visible(source)[order[i]]);
    assert rows[..|rows|] == rows;
    TableDone(catalog, order, Visible(source), i);
  }

  lemma SizedPositive(sizing: TablePlan)
    requires WellSized(sizing)
    ensures sizing.readPage > 0
  {
  }

  lemma PageCosts(sizing: TablePlan, total: nat, copied: nat, pages: nat, p: nat)
    requires WellSized(sizing) && PageCount(sizing, copied, pages, false)
    requires p <= sizing.readPage && copied + p <= total
    ensures PageCount(sizing, copied + p, pages + 1, p < sizing.readPage)
    ensures sizing.readPage > 0 && sizing.rowsPerStatement * sizing.statementsPerBatch > 0
    ensures var perBatch := sizing.rowsPerStatement * sizing.statementsPerBatch;
      && CeilDiv(copied + p, perBatch) == CeilDiv(copied, perBatch) + CeilDiv(p, perBatch)
      && CeilDiv(copied + p, perBatch) <= CeilDiv(total, perBatch)
    ensures pages + 1 <= Reads(total, sizing.readPage)
  {
    hide CeilDiv;
    PageCounted(sizing, copied, pages, p);
    CeilDivMonotone(copied + p, total, sizing.rowsPerStatement * sizing.statementsPerBatch);
    QuotientAtLeast(total, sizing.readPage, pages);
  }

  // A page was read: it is the next stretch of the table, and what follows from writing it.
  lemma ProgressNext(catalog: Catalog, order: seq<string>, source: Source, i: nat, sizing: TablePlan,
                     db: Tables, after: int, copied: nat, updates: seq<Statement>, pages: nat, page: seq<Stored>)
    requires source.Keys == catalog.Keys && i < |order| && order[i] in catalog && WellSized(sizing)
    requires ByRowid(source[order[i]])
    requires Progress(catalog, order, source, i, sizing, db, after, false, copied, updates, pages)
    requires page == SelectPage(source[order[i]], after, sizing.readPage)
    ensures copied + |page| <= |Visible(source)[order[i]]|
    ensures RowsOf(page) == RowsOf(Visible(source)[order[i]])[copied..copied + |page|]
    ensures db == LoadState(catalog, order, Visible(source), i, copied)
    ensures page == [] ==> Progress(catalog, order, source, i, sizing, db, after, true, copied, updates, pages + 1)
    ensures page != [] ==>
      Progress(catalog, order, source, i, sizing, LoadState(catalog, order, Visible(source), i, copied + |page|),
               page[|page| - 1].rid, |page| < sizing.readPage, copied + |page|,
               updates + SelfRefUpdates(order[i], catalog[order[i]].pk, SelfRefs(catalog, order[i]), RowsOf(page)),
               pages + 1)
    ensures CeilDiv(copied + |page|, sizing.rowsPerStatement * sizing.statementsPerBatch)
      == CeilDiv(copied, sizing.rowsPerStatement * sizing.statementsPerBatch)
         + CeilDiv(|page|, sizing.rowsPerStatement * sizing.statementsPerBatch)
    ensures CeilDiv(copied + |page|, sizing.rowsPerStatement * sizing.statementsPerBatch)
      <= CeilDiv(|Visible(source)[order[i]]|, sizing.rowsPerStatement * sizing.statementsPerBatch)
    ensures pages + 1 <= Reads(|Visible(source)[order[i]]|, sizing.readPage)
  {
    hide SourceReady, SchemaReady, OrderReady, LoadState, SelfRefUpdates, CeilDiv, PageCount, Reads, Delivered,
         Beyond, WellSized;
    var t := order[i];
    assert ByRowid(source[t]);
    var rows := RowsOf(Visible(source)[t]);
    assert sizing.readPage > 0 by { SizedPositive(sizing); }
    PageDelivers(source[t], sizing.readPage, after, copied);
    PageCosts(sizing, |rows|, copied, pages, |page|);
    assert RowsOf(page) == rows[copied..copied + |page|];
    assert rows[..copied] + RowsOf(page) == rows[..copied + |page|];
    SelfRefUpdatesConcat(t, catalog[t].pk, SelfRefs(catalog, t), rows[..copied], RowsOf(page));
  }

  lemma StreamContext(catalog: Catalog, order: seq<string>, source: Source, i: nat, table: TableInfo, sizing: TablePlan)
    requires Ready(catalog, source, order) && WellSized(sizing)
    requires i < |order| && order[i] in catalog && table == InfoOf(order[i], catalog[order[i]])
    ensures SchemaReady(catalog) && SourceReady(catalog, Visible(source)) && OrderReady(catalog, order)
    ensures source.Keys == catalog.Keys && sizing.readPage > 0
    ensures table.name == order[i] && table.pkColumns == catalog[order[i]].pk
    ensures table.selfRefColumns == SelfRefs(catalog, order[i])
    ensures ByRowid(source[order[i]])
  {
    VisibleReady(catalog, source);
  }

  // One turn of `for await (const page of readPages(…))`. The read of a later page may fail.
  method CopyNext(source: SourceDatabase, dest: Destination, pacer: Pacer, reader: PageReader,
                  ghost order: seq<string>, ghost i: nat,
                  table: TableInfo, sizing: TablePlan, copied0: nat, updates0: seq<Statement>, ghost pages: nat)
    returns (a: Answer, copied: nat, updates: seq<Statement>)
    requires Ready(dest.catalog, source.tables, order) && Sound(dest.catalog, dest.tables)
    requires i < |order| && order[i] in dest.catalog && table == InfoOf(order[i], dest.catalog[order[i]])
    requires WellSized(sizing)
    requires reader.pageSize == sizing.readPage && !reader.finished
    requires Progress(dest.catalog, order, source.tables, i, sizing, dest.tables, reader.after, false,
                      copied0, updates0, pages)
    modifies source, dest, pacer, reader
    ensures Sound(dest.catalog, dest.tables) && dest.refusals >= old(dest.refusals)
    ensures source.faults + dest.faults == old(source.faults + dest.faults) + if a == Broken then 1 else 0
    ensures a == Overloaded ==> dest.refusals >= old(dest.refusals) + 6
    ensures a == Rejected ==> !SelfContained(dest.catalog, Visible(source.tables))
    ensures a == Applied ==>
      Progress(dest.catalog, order, source.tables, i, sizing, dest.tables, reader.after, reader.finished,
               copied, updates, pages + 1)
    ensures a == Applied ==> (reader.finished || copied > copied0) && copied <= |Visible(source.tables)[order[i]]|
    ensures source.queries == old(source.queries) + 1
    ensures a == Applied ==>
      var perBatch := sizing.rowsPerStatement * sizing.statementsPerBatch;
      dest.queries + CeilDiv(copied0, perBatch)
      == old(dest.queries) + CeilDiv(copied, perBatch) + (dest.refusals - old(dest.refusals))
    ensures pages + 1 <= Reads(|Visible(source.tables)[order[i]]|, sizing.readPage)
    ensures var perBatch := sizing.rowsPerStatement * sizing.statementsPerBatch;
      dest.queries + CeilDiv(copied0, perBatch)
        <= old(dest.queries) + CeilDiv(|Visible(source.tables)[order[i]]|, perBatch)
           + (dest.refusals - old(dest.refusals))
  {
    hide *;
    ghost var tables := source.tables;
    StreamContext(dest.catalog, order, tables, i, table, sizing);
    ghost var rows := SelectPage(tables[table.name], reader.after, sizing.readPage);
    ProgressNext(dest.catalog, order, tables, i, sizing, dest.tables, reader.after, copied0, updates0, pages, rows);
    a, copied, updates := Applied, copied0, updates0;
    source.queries := source.queries + 1;
    if reader.after != 0 {
      if * {
        source.faults := source.faults + 1;
        return Broken, copied, updates;
      }
    }
    var page, _ := reader.Next(source.tables[table.name]);
    if page.Some? {
      a := CopyPage(dest, pacer, order, Visible(tables), i, copied, table, sizing, RowsOf(page.value));
      if a != Applied {
        return;
      }
      var more := BuildUpdates(table, RowsOf(page.value));
      updates := updates + more;
      copied := copied + |page.value|;
    }
  }

  method CopyTable(source: SourceDatabase, dest: Destination, pacer: Pacer, ghost order: seq<string>, ghost i: nat,
                   table: TableInfo, sizing: TablePlan) returns (a: Answer, copied: nat, updates: seq<Statement>)
    requires Ready(dest.catalog, source.tables, order)
    requires i < |order| && order[i] in dest.catalog && table == InfoOf(order[i], dest.catalog[order[i]])
    requires WellSized(sizing) && Sound(dest.catalog, dest.tables)
    requires dest.tables == LoadState(dest.catalog, order, Visible(source.tables), i, 0)
    modifies source, dest, pacer
    ensures Sound(dest.catalog, dest.tables) && dest.refusals >= old(dest.refusals)
    ensures source.faults + dest.faults == old(source.faults + dest.faults) + if a == Broken then 1 else 0
    ensures a == Overloaded ==> dest.refusals >= old(dest.refusals) + 6
    ensures a == Rejected ==> !SelfContained(dest.catalog, Visible(source.tables))
    ensures a == Applied ==>
      dest.tables == LoadState(dest.catalog, order, Visible(source.tables), i + 1, 0)
    ensures a == Applied ==>
      copied == |Visible(source.tables)[order[i]]|
      && updates == SelfRefUpdates(order[i], dest.catalog[order[i]].pk, SelfRefs(dest.catalog, order[i]),
                                   RowsOf(Visible(source.tables)[order[i]]))
    ensures a == Applied ==>
      source.queries == old(source.queries) + Reads(copied, sizing.readPage)
      && dest.queries == old(dest.queries)
           + CeilDiv(copied, sizing.rowsPerStatement * sizing.statementsPerBatch) + (dest.refusals - old(dest.refusals))
    ensures source.queries <= old(source.queries) + Reads(|Visible(source.tables)[order[i]]|, sizing.readPage)
    ensures dest.queries <= old(dest.queries)
      + CeilDiv(|Visible(source.tables)[order[i]]|, sizing.rowsPerStatement * sizing.statementsPerBatch)
      + (dest.refusals - old(dest.refusals))
  {
    ghost var catalog, tables := dest.catalog, source.tables;
    ProgressStarts(catalog, order, tables, i, sizing);
    CeilDivUnique(0, sizing.rowsPerStatement * sizing.statementsPerBatch, 0);
    hide Progress, Sound, SourceReady, SchemaReady, OrderReady, LoadState, SelfRefUpdates, CeilDiv, SelectPage;
    var reader := new PageReader(sizing.readPage);
    a, copied, updates := Applied, 0, [];
    ghost var pages := 0;
    while !reader.finished
      invariant fresh(reader) && reader.pageSize == sizing.readPage
      invariant a == Applied && Sound(catalog, dest.tables) && dest.refusals >= old(dest.refusals)
      invariant source.faults + dest.faults == old(source.faults + dest.faults)
      invariant Progress(catalog, order, tables, i, sizing, dest.tables, reader.after, reader.finished,
                         copied, updates, pages)
      invariant copied <= |Visible(tables)[order[i]]|
      invariant source.queries == old(source.queries) + pages
      invariant dest.queries == old(dest.queries)
        + CeilDiv(copied, sizing.rowsPerStatement * sizing.statementsPerBatch) + (dest.refusals - old(dest.refusals))
      decreases !reader.finished, |Visible(tables)[order[i]]| - copied
    {
      a, copied, updates := CopyNext(source, dest, pacer, reader, order, i, table, sizing, copied, updates, pages);
      if a != Applied {
        return;
      }
      pages := pages + 1;
    }
    ProgressEnds(catalog, order, tables, i, sizing, dest.tables, reader.after, copied, updates, pages);
  }

  // ----- the whole run

  ghost predicate PlansFor(plans: seq<TablePlan>, order: seq<string>) {
    |plans| == |order| && forall i :: 0 <= i < |plans| ==> plans[i].table == order[i] && WellSized(plans[i])
  }

  function TableCost(plan: TablePlan, n: nat): nat
    requires plan.readPage > 0 && plan.rowsPerStatement * plan.statementsPerBatch > 0
  {
    Reads(n, plan.readPage) + CeilDiv(n, plan.rowsPerStatement * plan.statementsPerBatch)
  }

  // The reads and insert batches of the first tables of the plan.
  ghost function LoadCost(plans: seq<TablePlan>, visible: Source): nat
    requires forall i :: 0 <= i < |plans| ==> WellSized(plans[i]) && plans[i].table in visible
  {
    if plans == [] then 0
    else
      var last := plans[|plans| - 1];
      assert WellSized(last);
      LoadCost(plans[..|plans| - 1], visible) + TableCost(last, |visible[last.table]|)
  }

  ghost function RowCount(order: seq<string>, visible: Source): nat
    requires forall n :: n in order ==> n in visible
  {
    if order == [] then 0 else RowCount(order[..|order| - 1], visible) + |visible[order[|order| - 1]]|
  }

  // What the loop over `plan.tables` has established before table `i`.
  ghost predicate LoadedTo(catalog: Catalog, order: seq<string>, source: Source, i: nat, db: Tables,
                           updates: seq<Statement>, inserted: nat, perTable: map<string, nat>)
    requires source.Keys == catalog.Keys && i <= |order|
  {
    && (forall n :: n in order ==> n in catalog)
    && db == LoadState(catalog, order, Visible(source), i, 0)
    && updates == AllUpdates(catalog, Visible(source), order[..i])
    && inserted == RowCount(order[..i], Visible(source))
    && perTable == map t | t in catalog && t in order[..i] :: |Visible(source)[t]|
  }

  lemma OrderKnown(catalog: Catalog, order: seq<string>)
    requires OrderReady(catalog, order)
    ensures forall n :: n in order ==> n in catalog
  {
  }

  lemma NothingLoaded(catalog: Catalog, order: seq<string>, source: Source)
    requires source.Keys == catalog.Keys && forall n :: n in order ==> n in catalog
    ensures LoadedTo(catalog, order, source, 0, map t | t in catalog :: [], [], 0, map[])
  {
    hide LoadState;
    LoadStarts(catalog, order, Visible(source));
  }

  lemma OneMoreLoaded(catalog: Catalog, order: seq<string>, source: Source, i: nat, db: Tables,
                      updates: seq<Statement>, inserted: nat, perTable: map<string, nat>, more: seq<Statement>)
    requires source.Keys == catalog.Keys && i < |order| && order[i] in catalog
    requires LoadedTo(catalog, order, source, i, db, updates, inserted, perTable)
    requires more == SelfRefUpdates(order[i], catalog[order[i]].pk, SelfRefs(catalog, order[i]),
                                  RowsOf(Visible(source)[order[i]]))
    ensures LoadedTo(catalog, order, source, i + 1, LoadState(catalog, order, Visible(source), i + 1, 0),
                     updates + more,
                     inserted + |Visible(source)[order[i]]|, perTable[order[i] := |Visible(source)[order[i]]|])
  {
    hide SourceReady, SchemaReady, OrderReady, LoadState, SelfRefUpdates, Beyond;
    assert order[..i + 1][..i] == order[..i];
    assert order[..i + 1] == order[..i] + [order[i]];
    var n := |Visible(source)[order[i]]|;
    assert perTable[order[i] := n] == map t | t in catalog && t in order[..i + 1] :: |Visible(source)[t]|;
  }

  lemma ReloadEnds(catalog: Catalog, order: seq<string>, source: Source, db: Tables,
                   updates: seq<Statement>, inserted: nat, perTable: map<string, nat>)
    requires Ready(catalog, source, order)
    requires source.Keys == catalog.Keys && LoadedTo(catalog, order, source, |order|, db, updates, inserted, perTable)
    ensures SelfContained(catalog, Visible(source)) ==> BatchAccepted(catalog, db, updates)
    ensures BatchEffect(db, updates) == Mirror(catalog, Visible(source))
    ensures Sound(catalog, Mirror(catalog, Visible(source))) ==> SelfContained(catalog, Visible(source))
    ensures forall n :: n in order ==> n in catalog
    ensures updates == AllUpdates(catalog, Visible(source), order)
  {
    hide KeysUnique, SchemaReady, OrderReady, SelfContained, LoadState, AllUpdates, Sound, BatchAccepted, BatchEffect,
         Mirror;
    assert order[..|order|] == order;
    VisibleReady(catalog, source);
    RestoreRuns(catalog, order, Visible(source));
    RestoreGivesMirror(catalog, order, Visible(source));
    MirrorIsSound(catalog, Visible(source));
  }

  lemma ReadyParts(catalog: Catalog, source: Source, schema: Schema)
    requires Ready(catalog, source, schema.insertOrder) && SchemaOf(schema, catalog)
    ensures SchemaReady(catalog) && OrderReady(catalog, schema.insertOrder)
    ensures schema.deleteOrder == Reverse(schema.insertOrder)
  {
  }

  lemma BatchKeepsSound(catalog: Catalog, db: Tables, ss: seq<Statement>)
    requires Sound(catalog, db) && BatchAccepted(catalog, db, ss)
    ensures Sound(catalog, BatchEffect(db, ss))
  {
  }

  // The clear as one paced batch, and the rest after it.
  method ClearDestination(dest: Destination, pacer: Pacer, schema: Schema, ghost source: Source) returns (a: Answer)
    requires Ready(dest.catalog, source, schema.insertOrder) && SchemaOf(schema, dest.catalog)
    requires Sound(dest.catalog, dest.tables)
    modifies dest, pacer
    ensures a != Rejected && Sound(dest.catalog, dest.tables) && dest.refusals >= old(dest.refusals)
    ensures dest.faults == old(dest.faults) + if a == Broken then 1 else 0
    ensures a == Overloaded ==> dest.refusals >= old(dest.refusals) + 6
    ensures a == Applied ==> dest.tables == map t | t in dest.catalog :: []
    ensures a == Applied ==> dest.queries == old(dest.queries) + 1 + (dest.refusals - old(dest.refusals))
    ensures dest.queries <= old(dest.queries) + 1 + (dest.refusals - old(dest.refusals))
    ensures dest.refusals - old(dest.refusals) <= if a == Overloaded then 6 else 5
    ensures var retries := dest.refusals - old(dest.refusals) - if a == Overloaded then 1 else 0;
      pacer.slept == old(pacer.slept) + [0, 2_000, 7_000, 17_000, 27_000, 40_000][retries]
                     + if a == Applied then Min(10_000, pacer.took) + 10_000 else 0
  {
    hide Ready, Sound, SchemaReady, OrderReady, SchemaOf, BatchAccepted, BatchEffect, NullAll, DeleteList, Reverse;
    ReadyParts(dest.catalog, source, schema);
    ClearRuns(dest.catalog, schema.insertOrder, dest.tables);
    var clear := BuildClear(schema, dest.catalog);
    ghost var before := dest.tables;
    a := PacedWrite(dest, clear, pacer);
    BatchKeepsSound(dest.catalog, before, clear);
    if a == Applied {
      pacer.Sleep(OVERLOAD_WINDOW_MS);
    }
  }

  lemma PlanTables(catalog: Catalog, source: Source, schema: Schema, plans: seq<TablePlan>)
    requires Ready(catalog, source, schema.insertOrder) && SchemaOf(schema, catalog)
    requires PlansFor(plans, schema.insertOrder)
    ensures forall n :: n in schema.insertOrder ==> n in catalog
    ensures Visible(source).Keys == source.Keys == catalog.Keys == schema.tablesByName.Keys
    ensures forall i :: 0 <= i < |plans| ==> WellSized(plans[i]) && plans[i].table in source
    ensures forall t :: t in catalog ==> schema.tablesByName[t] == InfoOf(t, catalog[t])
  {
  }

  lemma LoadedIs(catalog: Catalog, order: seq<string>, source: Source, i: nat, db: Tables,
                 updates: seq<Statement>, inserted: nat, perTable: map<string, nat>)
    requires source.Keys == catalog.Keys && i <= |order|
    requires LoadedTo(catalog, order, source, i, db, updates, inserted, perTable)
    ensures db == LoadState(catalog, order, Visible(source), i, 0)
  {
  }

  lemma NoLoadCost(visible: Source)
    ensures LoadCost([], visible) == 0
  {
  }

  lemma {:induction false} LoadCostPrefix(plans: seq<TablePlan>, visible: Source, i: nat)
    requires i <= |plans| && forall j :: 0 <= j < |plans| ==> WellSized(plans[j]) && plans[j].table in visible
    ensures LoadCost(plans[..i], visible) <= LoadCost(plans, visible)
  {
    if i == |plans| {
      assert plans[..i] == plans;
    } else {
      assert plans[..|plans| - 1][..i] == plans[..i];
      LoadCostPrefix(plans[..|plans| - 1], visible, i);
    }
  }

  lemma NextLoadCost(plans: seq<TablePlan>, visible: Source, i: nat)
    requires i < |plans| && forall j :: 0 <= j < |plans| ==> WellSized(plans[j]) && plans[j].table in visible
    ensures LoadCost(plans[..i + 1], visible)
      == LoadCost(plans[..i], visible) + Reads(|visible[plans[i].table]|, plans[i].readPage)
      + CeilDiv(|visible[plans[i].table]|, plans[i].rowsPerStatement * plans[i].statementsPerBatch)
  {
    assert plans[..i + 1][..i] == plans[..i];
  }

  // `for (const sizing of plan.tables) { … }`
  method Reload(source: SourceDatabase, dest: Destination, pacer: Pacer, schema: Schema, plans: seq<TablePlan>)
    returns (a: Answer, deferred: seq<Statement>, inserted: nat, perTable: map<string, nat>)
    requires Ready(dest.catalog, source.tables, schema.insertOrder) && SchemaOf(schema, dest.catalog)
    requires PlansFor(plans, schema.insertOrder) && Sound(dest.catalog, dest.tables)
    requires dest.tables == map t | t in dest.catalog :: []
    requires forall i :: 0 <= i < |plans| ==> WellSized(plans[i]) && plans[i].table in source.tables
    modifies source, dest, pacer
    ensures Sound(dest.catalog, dest.tables) && dest.refusals >= old(dest.refusals)
    ensures source.faults + dest.faults == old(source.faults + dest.faults) + if a == Broken then 1 else 0
    ensures a == Overloaded ==> dest.refusals >= old(dest.refusals) + 6
    ensures a == Rejected ==> !SelfContained(dest.catalog, Visible(source.tables))
    ensures a == Applied ==>
      LoadedTo(dest.catalog, schema.insertOrder, source.tables, |schema.insertOrder|,
               dest.tables, deferred, inserted, perTable)
    ensures a == Applied ==>
      source.queries - old(source.queries) + dest.queries - old(dest.queries)
      == LoadCost(plans, Visible(source.tables)) + (dest.refusals - old(dest.refusals))
    ensures source.queries - old(source.queries) + dest.queries - old(dest.queries)
      <= LoadCost(plans, Visible(source.tables)) + (dest.refusals - old(dest.refusals))
  {
    hide Ready, SourceReady, SchemaReady, OrderReady, SelfContained, LoadState, Sound, SelfRefUpdates, CeilDiv, Reads,
         Visible, LoadedTo, LoadCost, SchemaOf, InfoOf, SelfRefs, WellSized;
    ghost var tables, order := source.tables, schema.insertOrder;
    PlanTables(dest.catalog, tables, schema, plans);
    NothingLoaded(dest.catalog, order, tables);
    NoLoadCost(Visible(tables));
    a, deferred, inserted, perTable := Applied, [], 0, map[];
    assert plans[..0] == [];
    for i := 0 to |plans|
      invariant a == Applied
      invariant LoadedTo(dest.catalog, order, tables, i, dest.tables, deferred, inserted, perTable)
      invariant Sound(dest.catalog, dest.tables) && dest.refusals >= old(dest.refusals)
      invariant source.faults + dest.faults == old(source.faults + dest.faults)
      invariant source.queries - old(source.queries) + dest.queries - old(dest.queries)
        == LoadCost(plans[..i], Visible(tables)) + (dest.refusals - old(dest.refusals))
    {
      LoadedIs(dest.catalog, order, tables, i, dest.tables, deferred, inserted, perTable);
      NextLoadCost(plans, Visible(tables), i);
      LoadCostPrefix(plans, Visible(tables), i + 1);
      var copied, updates;
      ghost var before := dest.tables;
      a, copied, updates := CopyTable(source, dest, pacer, order, i, schema.tablesByName[plans[i].table], plans[i]);
      if a != Applied {
        return;
      }
      OneMoreLoaded(dest.catalog, order, tables, i, before, deferred, inserted, perTable, updates);
      deferred := deferred + updates;
      perTable := perTable[plans[i].table := copied];
      inserted := inserted + copied;
    }
    assert plans[..|plans|] == plans;
  }

  lemma OrderIsCatalog(catalog: Catalog, source: Source, order: seq<string>)
    requires Ready(catalog, source, order)
    ensures source.Keys == catalog.Keys == Elems(order)
  {
  }

  lemma TotalsEnd(catalog: Catalog, order: seq<string>, source: Source, db: Tables,
                  updates: seq<Statement>, inserted: nat, perTable: map<string, nat>)
    requires source.Keys == catalog.Keys && Elems(order) == catalog.Keys
    requires LoadedTo(catalog, order, source, |order|, db, updates, inserted, perTable)
    ensures forall n :: n in order ==> n in catalog
    ensures inserted == RowCount(order, Visible(source))
    ensures perTable == map t | t in catalog :: |Visible(source)[t]|
  {
    hide SourceReady, SchemaReady, LoadState, AllUpdates;
    assert order[..|order|] == order;
    assert forall t :: t in catalog ==> t in Elems(order);
  }

  /** `copyExecute`. From any sound destination every exit is sound, and a normal return leaves
      the mirror of the source, at the counted number of queries plus one per overload refusal.
      A run can return only if no copied row refers to one that is not copied, and a statement
      is rejected only if one does; it breaks off only for that, a failed query or six refusals
      of one batch. */
  method CopyExecute(source: SourceDatabase, dest: Destination, pacer: Pacer, schema: Schema, plans: seq<TablePlan>)
    returns (outcome: Outcome)
    requires Ready(dest.catalog, source.tables, schema.insertOrder) && SchemaOf(schema, dest.catalog)
    requires PlansFor(plans, schema.insertOrder) && Sound(dest.catalog, dest.tables)
    modifies source, dest, pacer
    ensures Sound(dest.catalog, dest.tables) && dest.refusals >= old(dest.refusals)
    ensures source.faults + dest.faults
      == old(source.faults + dest.faults) + if outcome == Aborted(Broken) then 1 else 0
    ensures outcome == Aborted(Overloaded) ==> dest.refusals >= old(dest.refusals) + 6
    ensures outcome.Aborted? ==> outcome.cause != Applied
    ensures outcome.Aborted? && outcome.cause == Rejected ==> !SelfContained(dest.catalog, Visible(source.tables))
    ensures outcome.Done? ==> SelfContained(dest.catalog, Visible(source.tables))
    ensures forall n :: n in schema.insertOrder ==> n in dest.catalog
    ensures outcome.Done? ==>
      && dest.tables == Mirror(dest.catalog, Visible(source.tables))
      && outcome.inserted == RowCount(schema.insertOrder, Visible(source.tables))
      && outcome.perTable == map t | t in dest.catalog :: |Visible(source.tables)[t]|
    ensures forall i :: 0 <= i < |plans| ==> WellSized(plans[i]) && plans[i].table in source.tables
    ensures outcome.Done? ==>
      source.queries - old(source.queries) + dest.queries - old(dest.queries)
      == 1 + LoadCost(plans, Visible(source.tables))
         + CeilDiv(|AllUpdates(dest.catalog, Visible(source.tables), schema.insertOrder)|, MAX_BATCH_STATEMENTS)
         + (dest.refusals - old(dest.refusals))
    ensures source.queries - old(source.queries) + dest.queries - old(dest.queries)
      <= 1 + LoadCost(plans, Visible(source.tables))
         + CeilDiv(|AllUpdates(dest.catalog, Visible(source.tables), schema.insertOrder)|, MAX_BATCH_STATEMENTS)
         + (dest.refusals - old(dest.refusals))
  {
    hide Ready, SourceReady, SchemaReady, OrderReady, SelfContained, LoadState, Sound, Mirror, BatchAccepted,
         BatchEffect, AllUpdates, SelfRefUpdates, CeilDiv, Visible, LoadedTo, LoadCost, RowCount, StoppedWithin;
    ghost var tables, order := source.tables, schema.insertOrder;
    PlanTables(dest.catalog, tables, schema, plans);
    var a := ClearDestination(dest, pacer, schema, tables);
    if a != Applied {
      return Aborted(a);
    }
    var deferred, inserted, perTable;
    a, deferred, inserted, perTable := Reload(source, dest, pacer, schema, plans);
    if a != Applied {
      return Aborted(a);
    }
    ReloadEnds(dest.catalog, order, tables, dest.tables, deferred, inserted, perTable);
    OrderIsCatalog(dest.catalog, tables, order);
    TotalsEnd(dest.catalog, order, tables, dest.tables, deferred, inserted, perTable);
    ghost var loaded := dest.tables;
    a := RunInBatches(dest, deferred, MAX_BATCH_STATEMENTS, pacer);
    StoppedIsSound(dest.catalog, loaded, deferred, dest.tables);
    if a != Applied {
      return Aborted(a);
    }
    return Done(inserted, perTable);
  }
}
