/** `POST /api/copy`: introspect both databases, compare, estimate, gate, execute. */
module CopyRoute {
  import opened Common
  import opened ReferenceGraph
  import opened Introspect
  import opened Database
  import opened CopySpec
  import opened CopyClear
  import opened CopyLoad
  import opened CopyRestore
  import opened CopySizing
  import opened CopyPages
  import opened CopyPacing
  import opened CopyEngine
  import opened SchemaCompare

  // ----- introspect

  function TableInfos(catalog: Catalog, names: seq<string>): (r: seq<TableInfo>)
    requires forall n :: n in names ==> n in catalog
    ensures |r| == |names| && forall i :: 0 <= i < |r| ==> r[i] == InfoOf(names[i], catalog[names[i]])
  {
    seq(|names|, i requires 0 <= i < |names| => InfoOf(names[i], catalog[names[i]]))
  }

  /** The cross-table references form no cycle (self-references are not edges). */
  ghost predicate AcyclicCatalog(catalog: Catalog) {
    forall names :: Ascending(names) && Elems(names) == catalog.Keys ==>
      Acyclic(ParentGraph(TableInfos(catalog, names)))
  }

  lemma MultisetDistinct(a: seq<string>, b: seq<string>)
    requires multiset(a) == multiset(b) && Distinct(b)
    ensures Distinct(a)
  {
    forall i, j | 0 <= i < j < |a| ensures a[i] != a[j] {
      if a[i] == a[j] {
        assert a == a[..i] + [a[i]] + a[i + 1..j] + [a[j]] + a[j + 1..];
        CountDistinct(b, a[i]);
        assert false;
      }
    }
  }

  lemma ParentComesFirst(catalog: Catalog, names: seq<string>, order: seq<string>, i: nat, f: nat)
    requires Elems(names) == catalog.Keys && forall n :: n in names ==> n in catalog
    requires ParentsFirst(ParentGraph(TableInfos(catalog, names)), order) && IsTableMap(TableInfos(catalog, names))
    requires i < |order| && order[i] in catalog && f < |catalog[order[i]].foreignKeys|
    ensures ParentPlaced(catalog, order, i, catalog[order[i]].foreignKeys[f].parent)
  {
    var tables, parent := TableInfos(catalog, names), catalog[order[i]].foreignKeys[f].parent;
    if parent != order[i] && parent in catalog {
      assert order[i] in Elems(names) && parent in Elems(names);
      var j :| 0 <= j < |names| && names[j] == order[i];
      var k :| 0 <= k < |names| && names[k] == parent;
      assert Names(tables)[k] == parent;
      ParentGraphEdge(tables, j, parent);
      assert AfterItsParents(ParentGraph(tables), order, i);
    }
  }

  lemma TopologicalOrderIsReady(catalog: Catalog, names: seq<string>, order: seq<string>)
    requires Ascending(names) && Elems(names) == catalog.Keys && forall n :: n in names ==> n in catalog
    requires multiset(order) == multiset(Names(TableInfos(catalog, names)))
    requires ParentsFirst(ParentGraph(TableInfos(catalog, names)), order) && IsTableMap(TableInfos(catalog, names))
    ensures OrderReady(catalog, order)
  {
    var tables := TableInfos(catalog, names);
    assert Names(tables) == names;
    AscendingDistinct(names);
    MultisetDistinct(order, names);
    SameElements(order, names);
    forall i, f | 0 <= i < |order| && order[i] in catalog && 0 <= f < |catalog[order[i]].foreignKeys|
      ensures ParentPlaced(catalog, order, i, catalog[order[i]].foreignKeys[f].parent)
    {
      ParentComesFirst(catalog, names, order, i, f);
    }
    forall i | 0 <= i < |order| ensures order[i] in catalog { assert order[i] in Elems(order); }
  }

  lemma AcyclicOrderIsReady(catalog: Catalog, names: seq<string>, order: seq<string>)
    requires AcyclicCatalog(catalog) && Ascending(names) && Elems(names) == catalog.Keys
    requires forall n :: n in names ==> n in catalog
    requires var tables := TableInfos(catalog, names);
      && IsTableMap(tables) && multiset(order) == multiset(Names(tables))
      && forall i :: 0 <= i < |order| && !BelowCycle(ParentGraph(tables), order[i]) ==>
           AfterItsParents(ParentGraph(tables), order, i)
    ensures OrderReady(catalog, order)
  {
    hide ParentGraph, BelowCycle, AfterItsParents, OrderReady, Acyclic, ParentsFirst;
    AcyclicOrder(TableInfos(catalog, names), order);
    TopologicalOrderIsReady(catalog, names, order);
  }

  method IntrospectDatabase(catalog: Catalog) returns (tables: seq<TableInfo>, schema: Schema)
    ensures SchemaOf(schema, catalog)
    ensures AcyclicCatalog(catalog) ==> OrderReady(catalog, schema.insertOrder)
    ensures multiset(schema.insertOrder) == multiset(Names(tables)) && IsTableMap(tables)
    ensures Elems(Names(tables)) == catalog.Keys && Distinct(Names(tables))
    ensures forall i :: 0 <= i < |tables| ==>
      tables[i].name in catalog && tables[i] == InfoOf(tables[i].name, catalog[tables[i].name])
  {
    hide AcyclicCatalog, OrderReady, ParentGraph, BelowCycle, AfterItsParents, ParentNames, SelfColumns;
    var names := SortedElements(catalog.Keys);
    forall n | n in names ensures n in catalog { assert n in Elems(names); }
    tables := TableInfos(catalog, names);
    AscendingDistinct(names);
    assert Names(tables) == names;
    var order := TopoSort(tables);
    var byName := map t | t in catalog :: InfoOf(t, catalog[t]);
    schema := Schema(byName, order, Reverse(order));
    if AcyclicCatalog(catalog) { AcyclicOrderIsReady(catalog, names, order); }
  }

  // ----- copyDryRun

  datatype CopyDryRun =
    | SchemaMismatch(messages: seq<Mismatch>)
    | Plan(schema: Schema, tables: seq<TablePlan>, totalSourceRows: nat, totalDestRows: nat,
           estimatedQueries: nat, queryBudget: nat)

  function InfoMap(catalog: Catalog): (m: map<string, TableInfo>)
    ensures m.Keys == catalog.Keys && forall t :: t in m ==> m[t] == InfoOf(t, catalog[t])
  {
    map t | t in catalog :: InfoOf(t, catalog[t])
  }

  // Two databases of one migration history: equal tables and columns mean equal keys too.
  ghost predicate SameLineage(source: Catalog, dest: Catalog) {
    SameShape(InfoMap(source), InfoMap(dest)) ==> source == dest
  }

  function QuerySum(plans: seq<TablePlan>): nat {
    if plans == [] then 0 else QuerySum(plans[..|plans| - 1]) + plans[|plans| - 1].queries
  }

  // The two row totals of a plan: what will be copied, and what will be replaced.
  function RowTotals(plans: seq<TablePlan>): (nat, nat) {
    if plans == [] then (0, 0)
    else
      var before, last := RowTotals(plans[..|plans| - 1]), plans[|plans| - 1];
      (before.0 + last.sourceRows, before.1 + last.destRows)
  }

  ghost predicate SizedFrom(plan: TablePlan, catalog: Catalog, source: Source, dest: Tables) {
    && plan.table in catalog && plan.table in source && plan.table in dest
    && exists bytes: nat ::
         plan == SizeTable(InfoOf(plan.table, catalog[plan.table]), |source[plan.table]|, |dest[plan.table]|, bytes)
  }

  // ----- the estimate of a pair of databases

  function TableQueries(catalog: Catalog, source: Source, dest: Tables, bytes: map<string, nat>, t: string): nat
    requires t in catalog && t in source && t in dest && t in bytes
  {
    SizeTable(InfoOf(t, catalog[t]), |source[t]|, |dest[t]|, bytes[t]).queries
  }

  ghost predicate Sizable(catalog: Catalog, source: Source, dest: Tables, bytes: map<string, nat>) {
    source.Keys == catalog.Keys == dest.Keys == bytes.Keys
  }

  ghost function QueriesOf(catalog: Catalog, source: Source, dest: Tables, bytes: map<string, nat>,
                           names: seq<string>): nat
    requires Sizable(catalog, source, dest, bytes) && forall n :: n in names ==> n in catalog
  {
    if names == [] then 0
    else
      var init, last := names[..|names| - 1], names[|names| - 1];
      QueriesOf(catalog, source, dest, bytes, init) + TableQueries(catalog, source, dest, bytes, last)
  }

  ghost predicate Lists(names: seq<string>, all: set<string>) {
    Distinct(names) && Elems(names) == all
  }

  lemma {:induction false} SomeOrder(all: set<string>)
    ensures exists names :: Lists(names, all)
  {
    if all == {} {
      assert Lists([], all);
    } else {
      var n :| n in all;
      SomeOrder(all - {n});
      var names :| Lists(names, all - {n});
      assert n !in Elems(names);
      assert Elems(names + [n]) == Elems(names) + {n};
      assert all == all - {n} + {n};
      assert Lists(names + [n], all);
    }
  }

  // The whole estimate; the order of the tables does not matter.
  ghost function Estimate(catalog: Catalog, source: Source, dest: Tables, bytes: map<string, nat>): nat
    requires Sizable(catalog, source, dest, bytes)
  {
    SomeOrder(catalog.Keys);
    var names :| Lists(names, catalog.Keys);
    FIXED_QUERIES + QueriesOf(catalog, source, dest, bytes, names)
  }

  lemma {:induction false} QueriesMove(catalog: Catalog, source: Source, dest: Tables, bytes: map<string, nat>,
                                       names: seq<string>, i: nat)
    requires Sizable(catalog, source, dest, bytes) && (forall n :: n in names ==> n in catalog) && i < |names|
    ensures QueriesOf(catalog, source, dest, bytes, names)
         == QueriesOf(catalog, source, dest, bytes, names[..i] + names[i + 1..])
            + TableQueries(catalog, source, dest, bytes, names[i])
    decreases |names|
  {
    hide TableQueries;
    var init := names[..|names| - 1];
    if i == |init| {
      assert names[..i] + names[i + 1..] == init;
    } else {
      QueriesMove(catalog, source, dest, bytes, init, i);
      var rest := names[..i] + names[i + 1..];
      assert rest[..|rest| - 1] == init[..i] + init[i + 1..];
    }
  }

  lemma ListsWithout(names: seq<string>, i: nat, all: set<string>)
    requires Lists(names, all) && i < |names|
    ensures Lists(names[..i] + names[i + 1..], all - {names[i]})
  {
    var rest := names[..i] + names[i + 1..];
    forall n ensures n in Elems(rest) <==> n in all && n != names[i] {
      if n in all && n != names[i] {
        assert n in Elems(names);
        var k :| 0 <= k < |names| && names[k] == n;
        assert rest[if k < i then k else k - 1] == n;
      }
    }
  }

  lemma {:induction false} AnyOrder(catalog: Catalog, source: Source, dest: Tables, bytes: map<string, nat>,
                                    a: seq<string>, b: seq<string>, all: set<string>)
    requires Sizable(catalog, source, dest, bytes) && all <= catalog.Keys && Lists(a, all) && Lists(b, all)
    requires (forall n :: n in a ==> n in catalog) && forall n :: n in b ==> n in catalog
    ensures QueriesOf(catalog, source, dest, bytes, a) == QueriesOf(catalog, source, dest, bytes, b)
    decreases |a|
  {
    hide TableQueries;
    if a == [] {
      assert all == {};
      assert forall k :: 0 <= k < |b| ==> b[k] in Elems(b);
    } else {
      var init, last := a[..|a| - 1], a[|a| - 1];
      assert last in Elems(a);
      var i :| 0 <= i < |b| && b[i] == last;
      var rest := b[..i] + b[i + 1..];
      ListsWithout(a, |a| - 1, all);
      ListsWithout(b, i, all);
      assert a[..|a| - 1] + a[|a|..] == init;
      AnyOrder(catalog, source, dest, bytes, init, rest, all - {last});
      QueriesMove(catalog, source, dest, bytes, b, i);
    }
  }

  lemma EstimateIs(catalog: Catalog, source: Source, dest: Tables, bytes: map<string, nat>, order: seq<string>)
    requires Sizable(catalog, source, dest, bytes) && Lists(order, catalog.Keys)
    requires forall n :: n in order ==> n in catalog
    ensures Estimate(catalog, source, dest, bytes) == FIXED_QUERIES + QueriesOf(catalog, source, dest, bytes, order)
  {
    hide QueriesOf;
    SomeOrder(catalog.Keys);
    var names :| Lists(names, catalog.Keys) &&
      Estimate(catalog, source, dest, bytes) == FIXED_QUERIES + QueriesOf(catalog, source, dest, bytes, names);
    AnyOrder(catalog, source, dest, bytes, names, order, catalog.Keys);
  }

  // The preflight queries of one database: the table list, one batch of pragmas, one of counts.
  function IntrospectQueries(catalog: Catalog): nat { if catalog.Keys == {} then 1 else 2 }
  function MeasureQueries(catalog: Catalog): nat { if catalog.Keys == {} then 0 else 1 }

  lemma TableSized(catalog: Catalog, source: Source, dest: Tables, t: string, bytes: nat)
    requires t in catalog && t in source && t in dest
    ensures var plan := SizeTable(InfoOf(t, catalog[t]), |source[t]|, |dest[t]|, bytes);
      plan.table == t && WellSized(plan) && SizedFrom(plan, catalog, source, dest)
  {
    SizeTableWellSized(InfoOf(t, catalog[t]), |source[t]|, |dest[t]|, bytes);
  }

  lemma SumsStart(catalog: Catalog, source: Source, dest: Tables, bytes: map<string, nat>)
    requires Sizable(catalog, source, dest, bytes)
    ensures QuerySum([]) == 0 && RowTotals([]) == (0, 0) && QueriesOf(catalog, source, dest, bytes, []) == 0
  {
  }

  lemma QuerySumGrows(plans: seq<TablePlan>, plan: TablePlan)
    ensures QuerySum(plans + [plan]) == QuerySum(plans) + plan.queries
  {
    var more := plans + [plan];
    assert more[..|more| - 1] == plans;
  }

  lemma RowTotalsGrow(plans: seq<TablePlan>, plan: TablePlan)
    ensures RowTotals(plans + [plan]) == (RowTotals(plans).0 + plan.sourceRows, RowTotals(plans).1 + plan.destRows)
  {
    var more := plans + [plan];
    assert more[..|more| - 1] == plans;
  }

  lemma QueriesGrow(catalog: Catalog, source: Source, dest: Tables, bytes: map<string, nat>, names: seq<string>,
                    t: string)
    requires Sizable(catalog, source, dest, bytes) && t in catalog && forall n :: n in names ==> n in catalog
    ensures QueriesOf(catalog, source, dest, bytes, names + [t])
         == QueriesOf(catalog, source, dest, bytes, names) + TableQueries(catalog, source, dest, bytes, t)
  {
    hide TableQueries;
    assert (names + [t])[..|names|] == names;
  }

  method SizeTables(schema: Schema, catalog: Catalog, source: Source, dest: Tables, bytes: map<string, nat>)
    returns (plans: seq<TablePlan>, sourceRows: nat, destRows: nat, estimated: nat)
    requires SchemaOf(schema, catalog) && forall n :: n in schema.insertOrder ==> n in catalog
    requires source.Keys == catalog.Keys == dest.Keys == bytes.Keys
    ensures PlansFor(plans, schema.insertOrder)
    ensures forall i :: 0 <= i < |plans| ==> SizedFrom(plans[i], catalog, source, dest)
    ensures QuerySum(plans) == QueriesOf(catalog, source, dest, bytes, schema.insertOrder)
    ensures estimated == FIXED_QUERIES + QuerySum(plans) && (sourceRows, destRows) == RowTotals(plans)
  {
    hide SizedFrom, WellSized, SizeTable, InfoOf, QuerySum, QueriesOf, RowTotals;
    SumsStart(catalog, source, dest, bytes);
    assert schema.insertOrder[..0] == [];
    plans, sourceRows, destRows, estimated := [], 0, 0, FIXED_QUERIES;
    var order := schema.insertOrder;
    for i := 0 to |order|
      invariant PlansFor(plans, order[..i])
      invariant forall j :: 0 <= j < |plans| ==> SizedFrom(plans[j], catalog, source, dest)
      invariant QuerySum(plans) == QueriesOf(catalog, source, dest, bytes, order[..i])
      invariant estimated == FIXED_QUERIES + QuerySum(plans) && (sourceRows, destRows) == RowTotals(plans)
    {
      var t := order[i];
      assert order[..i + 1] == order[..i] + [t] && order[..i + 1][..i] == order[..i];
      var plan := SizeTable(schema.tablesByName[t], |source[t]|, |dest[t]|, bytes[t]);
      TableSized(catalog, source, dest, t, bytes[t]);
      QuerySumGrows(plans, plan);
      RowTotalsGrow(plans, plan);
      QueriesGrow(catalog, source, dest, bytes, order[..i], t);
      plans := plans + [plan];
      sourceRows, destRows := sourceRows + plan.sourceRows, destRows + plan.destRows;
      estimated := estimated + plan.queries;
    }
    assert order[..|order|] == order;
  }

  lemma ReadyLists(catalog: Catalog, order: seq<string>)
    requires OrderReady(catalog, order)
    ensures Lists(order, catalog.Keys)
  {
  }

  lemma TablesAreInfoMap(schema: Schema, catalog: Catalog)
    requires SchemaOf(schema, catalog)
    ensures schema.tablesByName == InfoMap(catalog)
  {
    assert schema.tablesByName.Keys == InfoMap(catalog).Keys;
  }

  /** `copyDryRun`: no writes, at most the six preflight queries, and a plan whose estimate is
      the fixed queries plus every table's. */
  method PlanCopy(source: SourceDatabase, dest: Destination, bytes: map<string, nat>) returns (plan: CopyDryRun)
    requires source.tables.Keys == source.catalog.Keys == bytes.Keys && dest.tables.Keys == dest.catalog.Keys
    requires SameLineage(source.catalog, dest.catalog) && AcyclicCatalog(source.catalog)
    modifies source`queries, dest`queries
    ensures source.queries - old(source.queries) + dest.queries - old(dest.queries) <= 6
    ensures old(source.queries) <= source.queries && old(dest.queries) <= dest.queries
    ensures plan.SchemaMismatch? <==> !SameShape(InfoMap(source.catalog), InfoMap(dest.catalog))
    ensures plan.SchemaMismatch? ==>
      plan.messages != [] && Reports(InfoMap(source.catalog), InfoMap(dest.catalog), plan.messages)
    ensures plan.Plan? ==>
      source.queries - old(source.queries) + dest.queries - old(dest.queries)
      == if source.catalog.Keys == {} then 2 else 6
    ensures plan.Plan? ==>
      && dest.catalog == source.catalog && SchemaOf(plan.schema, source.catalog)
      && OrderReady(source.catalog, plan.schema.insertOrder) && PlansFor(plan.tables, plan.schema.insertOrder)
      && (forall i :: 0 <= i < |plan.tables| ==> SizedFrom(plan.tables[i], source.catalog, source.tables, dest.tables))
      && plan.estimatedQueries == 7 + QuerySum(plan.tables)
      && plan.estimatedQueries == Estimate(source.catalog, source.tables, dest.tables, bytes)
      && (plan.totalSourceRows, plan.totalDestRows) == RowTotals(plan.tables)
      && plan.queryBudget == 900
  {
    hide SizedFrom, WellSized, OrderReady, InfoOf, AcyclicCatalog, QuerySum, RowTotals, SameShape, Elems, Names,
         QueriesOf, Lists, Estimate, Reports, Distinct, InfoMap;
    var sourceInfos, sourceSchema := IntrospectDatabase(source.catalog);
    source.queries := source.queries + IntrospectQueries(source.catalog);
    var destInfos, destSchema := IntrospectDatabase(dest.catalog);
    dest.queries := dest.queries + IntrospectQueries(dest.catalog);
    var messages := CompareSchemas(Names(sourceInfos), sourceSchema.tablesByName,
                                   Names(destInfos), destSchema.tablesByName);
    TablesAreInfoMap(sourceSchema, source.catalog);
    TablesAreInfoMap(destSchema, dest.catalog);
    ReportsTell(InfoMap(source.catalog), InfoMap(dest.catalog), messages);
    if messages != [] {
      return SchemaMismatch(messages);
    }
    source.queries := source.queries + MeasureQueries(source.catalog);
    dest.queries := dest.queries + MeasureQueries(dest.catalog);
    OrderKnown(source.catalog, sourceSchema.insertOrder);
    var plans, sourceRows, destRows, estimated :=
      SizeTables(sourceSchema, source.catalog, source.tables, dest.tables, bytes);
    assert Lists(sourceSchema.insertOrder, source.catalog.Keys) by {
      ReadyLists(source.catalog, sourceSchema.insertOrder);
    }
    EstimateIs(source.catalog, source.tables, dest.tables, bytes, sourceSchema.insertOrder);
    return Plan(sourceSchema, plans, sourceRows, destRows, estimated, QUERY_BUDGET - REFRESH_RESERVE);
  }

  // ----- the estimate

  ghost function SelfRefSum(plans: seq<TablePlan>, catalog: Catalog): nat
    requires forall i :: 0 <= i < |plans| ==> plans[i].table in catalog
  {
    if plans == [] then 0
    else
      var last := plans[|plans| - 1];
      SelfRefSum(plans[..|plans| - 1], catalog)
      + SelfRefBatches(last.sourceRows, |SelfRefs(catalog, last.table)|, |catalog[last.table].pk|)
  }

  // With every rowid positive, reads and inserts cost exactly what the estimate says.
  lemma {:induction false} EstimateParts(plans: seq<TablePlan>, catalog: Catalog, source: Source, dest: Tables)
    requires forall i :: 0 <= i < |plans| ==> SizedFrom(plans[i], catalog, source, dest) && WellSized(plans[i])
    requires forall i :: 0 <= i < |plans| ==> plans[i].table in source && plans[i].table in catalog
    ensures LoadCost(plans, source) + SelfRefSum(plans, catalog) == QuerySum(plans)
  {
    if plans != [] {
      var last := plans[|plans| - 1];
      assert SizedFrom(last, catalog, source, dest) && WellSized(last);
      var bytes: nat :| last == SizeTable(InfoOf(last.table, catalog[last.table]),
                                          |source[last.table]|, |dest[last.table]|, bytes);
      EstimateParts(plans[..|plans| - 1], catalog, source, dest);
    }
  }

  lemma FewerRowsCostLess(plan: TablePlan, v: nat, n: nat)
    requires WellSized(plan) && v <= n
    ensures TableCost(plan, v) <= TableCost(plan, n)
  {
    hide CeilDiv;
    CeilDivMonotone(v, n, plan.rowsPerStatement * plan.statementsPerBatch);
    assert v == (v / plan.readPage) * plan.readPage + v % plan.readPage;
    QuotientAtLeast(n, plan.readPage, v / plan.readPage);
  }

  lemma {:induction false} BeyondShorter(table: seq<Stored>, after: int)
    ensures |Beyond(table, after)| <= |table|
  {
    if table != [] { BeyondShorter(table[1..], after); }
  }

  lemma {:induction false} VisibleCostsLess(plans: seq<TablePlan>, source: Source)
    requires forall i :: 0 <= i < |plans| ==> WellSized(plans[i]) && plans[i].table in source
    ensures LoadCost(plans, Visible(source)) <= LoadCost(plans, source)
  {
    hide TableCost, WellSized, Beyond;
    if plans != [] {
      var last := plans[|plans| - 1];
      assert WellSized(last);
      VisibleCostsLess(plans[..|plans| - 1], source);
      BeyondShorter(source[last.table], 0);
      FewerRowsCostLess(last, |Visible(source)[last.table]|, |source[last.table]|);
    }
  }

  // One table's restore statements fit its share of the estimate.
  lemma UpdatesFitShare(catalog: Catalog, visible: Source, t: string, n: nat)
    requires t in catalog && t in visible && |visible[t]| <= n
    ensures CeilDiv(|SelfRefUpdates(t, catalog[t].pk, SelfRefs(catalog, t), RowsOf(visible[t]))|, MAX_BATCH_STATEMENTS)
      <= SelfRefBatches(n, |SelfRefs(catalog, t)|, |catalog[t].pk|)
  {
    var refs, pk, rows := SelfRefs(catalog, t), catalog[t].pk, RowsOf(visible[t]);
    if refs == [] || pk == [] {
      CeilDivUnique(0, MAX_BATCH_STATEMENTS, 0);
    } else {
      RowsUpdatesBound(t, pk, refs, rows);
      MulMonotone(|rows|, n, |refs|);
      CeilDivMonotone(|RowsUpdates(t, pk, refs, rows)|, n * |refs|, MAX_BATCH_STATEMENTS);
    }
  }

  /** A table's share for the second pass is not a batch too large: rows of positive rowid with no
      self-reference NULL take all of it. */
  lemma ShareIsTight(catalog: Catalog, source: Source, t: string)
    requires t in catalog && t in source
    requires forall k, c :: 0 <= k < |source[t]| && c in SelfRefs(catalog, t) ==> Cell(source[t][k].row, c) != Null
    ensures CeilDiv(|SelfRefUpdates(t, catalog[t].pk, SelfRefs(catalog, t), RowsOf(source[t]))|, MAX_BATCH_STATEMENTS)
      == SelfRefBatches(|source[t]|, |SelfRefs(catalog, t)|, |catalog[t].pk|)
  {
    var refs, pk := SelfRefs(catalog, t), catalog[t].pk;
    if refs == [] || pk == [] {
      CeilDivUnique(0, MAX_BATCH_STATEMENTS, 0);
    } else {
      RowsUpdatesFull(t, pk, refs, RowsOf(source[t]));
    }
  }

  lemma {:induction false} UpdatesFit(plans: seq<TablePlan>, order: seq<string>, catalog: Catalog, source: Source,
                                      dest: Tables)
    requires PlansFor(plans, order) && source.Keys == catalog.Keys
    requires forall i :: 0 <= i < |plans| ==> SizedFrom(plans[i], catalog, source, dest)
    requires forall n :: n in order ==> n in catalog
    ensures CeilDiv(|AllUpdates(catalog, Visible(source), order)|, MAX_BATCH_STATEMENTS) <= SelfRefSum(plans, catalog)
  {
    if plans == [] {
      CeilDivUnique(0, MAX_BATCH_STATEMENTS, 0);
    } else {
      var k := |plans| - 1;
      assert PlansFor(plans[..k], order[..k]) && plans[k].table == order[k];
      assert SizedFrom(plans[k], catalog, source, dest);
      UpdatesFit(plans[..k], order[..k], catalog, source, dest);
      BeyondShorter(source[order[k]], 0);
      UpdatesFitShare(catalog, Visible(source), order[k], |source[order[k]]|);
      var added := SelfRefUpdates(order[k], catalog[order[k]].pk, SelfRefs(catalog, order[k]),
                                  RowsOf(Visible(source)[order[k]]));
      CeilDivSum(|AllUpdates(catalog, Visible(source), order[..k])|, |added|, MAX_BATCH_STATEMENTS);
    }
  }

  /** The estimate covers the run: preflight, clear, reads, inserts and self-reference batches. */
  lemma EstimateCovers(plans: seq<TablePlan>, order: seq<string>, catalog: Catalog, source: Source, dest: Tables)
    requires PlansFor(plans, order) && source.Keys == catalog.Keys
    requires forall i :: 0 <= i < |plans| ==> SizedFrom(plans[i], catalog, source, dest)
    requires forall n :: n in order ==> n in catalog
    ensures forall i :: 0 <= i < |plans| ==> WellSized(plans[i]) && plans[i].table in source
    ensures LoadCost(plans, Visible(source))
          + CeilDiv(|AllUpdates(catalog, Visible(source), order)|, MAX_BATCH_STATEMENTS)
      <= QuerySum(plans)
  {
    EstimateParts(plans, catalog, source, dest);
    VisibleCostsLess(plans, source);
    UpdatesFit(plans, order, catalog, source, dest);
  }

  // Some table, all rowids positive, and no self-reference column.
  ghost predicate Unadorned(catalog: Catalog, source: Source) {
    && catalog.Keys == source.Keys != {}
    && (forall t :: t in catalog ==> SelfRefs(catalog, t) == [])
    && (forall t :: t in source ==> ByRowid(source[t]))
    && forall t, k :: t in source && 0 <= k < |source[t]| ==> source[t][k].rid > 0
  }

  lemma AllVisible(source: Source)
    requires forall t, k :: t in source && 0 <= k < |source[t]| ==> source[t][k].rid > 0
    requires forall t :: t in source ==> ByRowid(source[t])
    ensures Visible(source) == source
  {
    hide Beyond;
    forall t | t in source ensures Visible(source)[t] == source[t] { StreamsWholeTable(source[t]); }
  }

  lemma {:induction false} NoUpdates(catalog: Catalog, source: Source, names: seq<string>)
    requires catalog.Keys == source.Keys && forall n :: n in names ==> n in catalog
    requires forall t :: t in catalog ==> SelfRefs(catalog, t) == []
    ensures AllUpdates(catalog, source, names) == []
  {
    if names != [] { NoUpdates(catalog, source, names[..|names| - 1]); }
  }

  lemma {:induction false} NoSelfRefShare(plans: seq<TablePlan>, catalog: Catalog)
    requires forall i :: 0 <= i < |plans| ==> plans[i].table in catalog
    requires forall t :: t in catalog ==> SelfRefs(catalog, t) == []
    ensures SelfRefSum(plans, catalog) == 0
  {
    if plans != [] { NoSelfRefShare(plans[..|plans| - 1], catalog); }
  }

  /** Without self-references, and with positive rowids, the estimate is not a query too high. */
  lemma EstimateExact(plans: seq<TablePlan>, order: seq<string>, catalog: Catalog, source: Source, dest: Tables)
    requires PlansFor(plans, order) && Unadorned(catalog, source)
    requires forall i :: 0 <= i < |plans| ==> SizedFrom(plans[i], catalog, source, dest)
    requires forall n :: n in order ==> n in catalog
    ensures catalog.Keys != {}
    ensures forall i :: 0 <= i < |plans| ==> WellSized(plans[i]) && plans[i].table in source
    ensures LoadCost(plans, Visible(source))
          + CeilDiv(|AllUpdates(catalog, Visible(source), order)|, MAX_BATCH_STATEMENTS)
      == QuerySum(plans)
  {
    hide LoadCost, AllUpdates, QuerySum, SelfRefSum, Visible, Beyond, ByRowid;
    AllVisible(source);
    EstimateParts(plans, catalog, source, dest);
    NoUpdates(catalog, source, order);
    NoSelfRefShare(plans, catalog);
    CeilDivUnique(0, MAX_BATCH_STATEMENTS, 0);
  }

  // ----- the route

  datatype RouteResult =
    | Refused(messages: seq<Mismatch>)
    | DryRun(plan: CopyDryRun)
    | NotConfirmed
    | TooLarge(estimatedQueries: nat)
    | Executed(outcome: Outcome)

  /** `POST /api/copy`. Nothing is written unless the plan fits the budget, and a run that
      starts spends at most the budget plus one query per overload refusal. */
  method CopyDatabase(source: SourceDatabase, dest: Destination, pacer: Pacer, bytes: map<string, nat>, dryRun: bool,
                      confirmed: bool)
    returns (result: RouteResult)
    requires source.tables.Keys == source.catalog.Keys == bytes.Keys
    requires SameLineage(source.catalog, dest.catalog) && AcyclicCatalog(source.catalog)
    requires SchemaReady(source.catalog) && SourceReady(source.catalog, source.tables)
    requires forall t :: t in source.tables ==> ByRowid(source.tables[t])
    requires Sound(dest.catalog, dest.tables)
    modifies source, dest, pacer
    ensures Sound(dest.catalog, dest.tables)
    ensures !result.Executed? ==> dest.tables == old(dest.tables)
    ensures result.Refused? <==> !SameShape(InfoMap(source.catalog), InfoMap(dest.catalog))
    ensures result.Refused? ==> Reports(InfoMap(source.catalog), InfoMap(dest.catalog), result.messages)
    ensures !result.Refused? ==> (result.DryRun? <==> dryRun) && (result.NotConfirmed? <==> !dryRun && !confirmed)
    ensures !result.Refused? ==> source.catalog == dest.catalog
    ensures !result.Refused? && !dryRun && confirmed ==>
      var estimate := Estimate(source.catalog, source.tables, old(dest.tables), bytes);
      && (result.TooLarge? <==> estimate > 900)
      && (result.TooLarge? ==> result.estimatedQueries == estimate)
    ensures result.DryRun? ==>
      && result.plan.Plan?
      && result.plan.estimatedQueries == Estimate(source.catalog, source.tables, old(dest.tables), bytes)
    ensures result.Executed? && result.outcome.Done? ==>
      && dest.tables == Mirror(source.catalog, Visible(source.tables))
      && result.outcome.perTable == (map t | t in source.catalog :: |Visible(source.tables)[t]|)
      && exists order :: Lists(order, source.catalog.Keys) && (forall n :: n in order ==> n in source.tables)
           && result.outcome.inserted == RowCount(order, Visible(source.tables))
    ensures result.Executed? && result.outcome.Done? ==> SelfContained(source.catalog, Visible(source.tables))
    ensures result.Executed? && result.outcome.Aborted? && result.outcome.cause == Rejected ==>
      !SelfContained(source.catalog, Visible(source.tables))
    ensures source.faults + dest.faults
      == old(source.faults + dest.faults) + if result == Executed(Aborted(Broken)) then 1 else 0
    ensures result == Executed(Aborted(Overloaded)) ==> dest.refusals >= old(dest.refusals) + 6
    ensures source.queries - old(source.queries) + dest.queries - old(dest.queries)
      <= 900 + (dest.refusals - old(dest.refusals))
    ensures result.Executed? && result.outcome.Done? && Unadorned(source.catalog, source.tables) ==>
      source.queries - old(source.queries) + dest.queries - old(dest.queries)
      == Estimate(source.catalog, source.tables, old(dest.tables), bytes) + (dest.refusals - old(dest.refusals))
  {
    hide SameShape, InfoMap, Estimate, Reports, Mirror, RowCount, AllUpdates, LoadCost, QuerySum, Unadorned;
    var plan := PlanCopy(source, dest, bytes);
    if plan.SchemaMismatch? {
      return Refused(plan.messages);
    }
    if dryRun {
      return DryRun(plan);
    }
    if !confirmed {
      return NotConfirmed;
    }
    if plan.estimatedQueries > plan.queryBudget {
      return TooLarge(plan.estimatedQueries);
    }
    OrderKnown(source.catalog, plan.schema.insertOrder);
    EstimateCovers(plan.tables, plan.schema.insertOrder, source.catalog, source.tables, dest.tables);
    ghost var planned := dest.tables;
    var outcome := CopyExecute(source, dest, pacer, plan.schema, plan.tables);
    ReadyLists(source.catalog, plan.schema.insertOrder);
    if Unadorned(source.catalog, source.tables) {
      EstimateExact(plan.tables, plan.schema.insertOrder, source.catalog, source.tables, planned);
    }
    return Executed(outcome);
  }

  /** Re-run safety: whatever a first run left behind, a second one that returns normally
      still ends with the mirror; neither returns if a copied row refers to one that is not. */
  method CopyTwice(source: SourceDatabase, dest: Destination, pacer: Pacer, schema: Schema, plans: seq<TablePlan>)
    returns (first: Outcome, second: Outcome)
    requires Ready(dest.catalog, source.tables, schema.insertOrder) && SchemaOf(schema, dest.catalog)
    requires PlansFor(plans, schema.insertOrder) && Sound(dest.catalog, dest.tables)
    modifies source, dest, pacer
    ensures second.Done? ==> dest.tables == Mirror(dest.catalog, Visible(source.tables))
    ensures !SelfContained(dest.catalog, Visible(source.tables)) ==> first.Aborted? && second.Aborted?
    ensures Sound(dest.catalog, dest.tables)
  {
    first := CopyExecute(source, dest, pacer, schema, plans);
    second := CopyExecute(source, dest, pacer, schema, plans);
  }

  // ----- when a run copies the source

  /** For a source whose rowids are all positive and whose self-referencing rows all have a
      full primary key, the mirror is the source: row for row, in rowid order; and if its
      references resolve, nothing is rejected. */
  lemma PlainSourceIsMirrored(catalog: Catalog, source: Source)
    requires SourceReady(catalog, source)
    requires forall t, k :: t in source && 0 <= k < |source[t]| ==> source[t][k].rid > 0
    requires forall t :: t in source ==> ByRowid(source[t])
    requires forall t, k :: t in catalog && 0 <= k < |source[t]| ==>
      Restorable(catalog[t], SelfRefs(catalog, t), source[t][k].row)
    ensures Mirror(catalog, Visible(source)) == Contents(source)
    ensures Sound(catalog, Contents(source)) ==> SelfContained(catalog, Visible(source))
  {
    hide Mirror, KeysUnique, Restorable, Beyond, SelfContained, ReferencesHold;
    AllVisible(source);
    MirrorIsSource(catalog, source);
    if Sound(catalog, Contents(source)) { SoundIsSelfContained(catalog, source); }
  }

  // A parent table and a child table whose one row refers to the parent's one row.
  function ParentAndChild(): Catalog {
    map["p" := TableSchema(["id"], ["id"], []),
        "c" := TableSchema(["id", "pid"], ["id"], [ForeignKey(["pid"], "p", ["id"])])]
  }

  function ParentAtRowidZero(): Source {
    map["p" := [Stored(0, map["id" := Number(7)])],
        "c" := [Stored(1, map["id" := Number(1), "pid" := Number(7)])]]
  }

  lemma NoSelfReferences()
    ensures forall t, c :: t in ParentAndChild() ==> c !in SelfRefs(ParentAndChild(), t)
  {
  }

  lemma ParentAndChildReady()
    ensures SchemaReady(ParentAndChild()) && OrderReady(ParentAndChild(), ["p", "c"])
  {
    hide SelfRefs;
    NoSelfReferences();
  }

  lemma RowidZeroReady()
    ensures SourceReady(ParentAndChild(), ParentAtRowidZero())
    ensures forall t :: t in ParentAtRowidZero() ==> ByRowid(ParentAtRowidZero()[t])
  {
  }

  lemma RowidZeroIsSound()
    ensures Sound(ParentAndChild(), Contents(ParentAtRowidZero()))
  {
    var catalog, db := ParentAndChild(), Contents(ParentAtRowidZero());
    RowidZeroReady();
    assert Key(db["p"][0], ["id"]) == [Number(7)] == Key(db["c"][0], ["pid"]);
    assert Finds(db["p"], ["id"], [Number(7)]);
    assert Resolves(db, catalog["c"].foreignKeys[0], db["c"][0]);
  }

  lemma ChildIsNotAnchored()
    ensures !SelfContained(ParentAndChild(), Visible(ParentAtRowidZero()))
  {
    hide SelfRefs;
    var catalog, visible := ParentAndChild(), Visible(ParentAtRowidZero());
    NoSelfReferences();
    assert visible["p"] == [] && visible["c"] == ParentAtRowidZero()["c"];
    var row := MirrorRow(catalog["c"], SelfRefs(catalog, "c"), ParentAtRowidZero()["c"][0].row);
    assert Cell(row, "pid") == Number(7);
    assert !Vacuous(row, ["pid"]);
    assert !Finds(Contents(visible)["p"], ["id"], Key(row, ["pid"]));
    assert !Anchored(catalog, visible, "c", 0, 0);
  }

  /** A foreign-key sound source may not be copied at all: a parent at rowid 0 is never read, so
      the INSERT of its child is rejected in every run. */
  lemma HiddenParentIsRejected(perStatement: string -> nat)
    requires forall t :: perStatement(t) > 0
    ensures var catalog, source, order := ParentAndChild(), ParentAtRowidZero(), ["p", "c"];
      && Ready(catalog, source, order) && Sound(catalog, Contents(source))
      && !SelfContained(catalog, Visible(source))
      && (forall n :: n in order ==> n in catalog)
      && !BatchAccepted(catalog, LoadState(catalog, order, Visible(source), 0, 0),
                        CopyScript(catalog, order, Visible(source), perStatement))
  {
    hide SchemaReady, SourceReady, OrderReady, SelfContained, BatchAccepted, LoadState, CopyScript, Sound;
    var catalog, source, order := ParentAndChild(), ParentAtRowidZero(), ["p", "c"];
    ParentAndChildReady();
    RowidZeroReady();
    RowidZeroIsSound();
    ChildIsNotAnchored();
    VisibleReady(catalog, source);
    CopyAccepted(catalog, order, Visible(source), perStatement);
  }
}
