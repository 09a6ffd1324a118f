/** What the clone is meant to do: the assumptions on the schema and on the source, the
    states the destination passes through, and when they are sound. */
module CopySpec {
  import opened Common
  import opened Database

  datatype Stored = Stored(rid: int, row: Row)
  type Source = map<string, seq<Stored>>

  function RowsOf(stored: seq<Stored>): (r: seq<Row>)
    ensures |r| == |stored| && forall k :: 0 <= k < |r| ==> r[k] == stored[k].row
  {
    seq(|stored|, k requires 0 <= k < |stored| => stored[k].row)
  }

  function Contents(source: Source): (db: Tables)
    ensures db.Keys == source.Keys && forall t :: t in db ==> db[t] == RowsOf(source[t])
  {
    map t | t in source :: RowsOf(source[t])
  }

  function SelfRefs(catalog: Catalog, t: string): (r: seq<string>)
    requires t in catalog
  {
    SelfColumns(t, catalog[t].foreignKeys)
  }

  ghost predicate KeyOffSelfRefs(catalog: Catalog, t: string)
    requires t in catalog
  {
    forall c :: c in catalog[t].pk ==> c !in SelfRefs(catalog, t)
  }

  ghost predicate KeyReady(catalog: Catalog, t: string, fk: ForeignKey)
    requires t in catalog
  {
    && fk.columns != []
    && (fk.parent in catalog ==> forall c :: c in fk.parentColumns ==> c !in SelfRefs(catalog, fk.parent))
  }

  // Schema assumptions: usable keys, and no key that the null-then-restore detour touches.
  ghost predicate SchemaReady(catalog: Catalog) {
    && (forall t, f {:trigger KeyReady(catalog, t, catalog[t].foreignKeys[f])} ::
         t in catalog && 0 <= f < |catalog[t].foreignKeys| ==> KeyReady(catalog, t, catalog[t].foreignKeys[f]))
    && (forall t {:trigger KeyOffSelfRefs(catalog, t)} :: t in catalog ==> KeyOffSelfRefs(catalog, t))
  }

  ghost predicate TableReady(schema: TableSchema, stored: seq<Stored>) {
    forall k :: 0 <= k < |stored| ==> stored[k].row.Keys == Elems(schema.columns)
  }

  // Source assumptions: unique primary keys, full rows.
  ghost predicate SourceReady(catalog: Catalog, source: Source) {
    && source.Keys == catalog.Keys && KeysUnique(catalog, Contents(source))
    && (forall t {:trigger TableReady(catalog[t], source[t])} :: t in source ==> TableReady(catalog[t], source[t]))
  }

  ghost predicate ParentPlaced(catalog: Catalog, order: seq<string>, i: nat, parent: string)
    requires i < |order|
  {
    parent == order[i] || parent !in catalog || parent in order[..i]
  }

  ghost predicate OrderReady(catalog: Catalog, order: seq<string>) {
    && Distinct(order) && Elems(order) == catalog.Keys
    && forall i, f {:trigger ParentPlaced(catalog, order, i, catalog[order[i]].foreignKeys[f].parent)} ::
      0 <= i < |order| && 0 <= f < |catalog[order[i]].foreignKeys| ==>
      ParentPlaced(catalog, order, i, catalog[order[i]].foreignKeys[f].parent)
  }

  // ----- what a row can come to

  // A row the WHERE clause of its UPDATE can find: SQLite lets a key column be NULL.
  predicate Keyed(schema: TableSchema, row: Row) {
    schema.pk != [] && !Vacuous(row, schema.pk)
  }

  // A row as its INSERT writes it.
  function InsertRow(columns: seq<string>, selfRefs: seq<string>, row: Row): (r: Row)
    ensures r.Keys == Elems(columns)
    ensures forall c :: c in r ==> r[c] == if c in selfRefs then Null else Cell(row, c)
  {
    map c | c in columns :: if c in selfRefs then Null else Cell(row, c)
  }

  /** What a finished run leaves of a row: the row itself, but without its self-references
      where no UPDATE can find it, in a table without a primary key or under a key with a NULL. */
  function MirrorRow(schema: TableSchema, selfRefs: seq<string>, row: Row): Row {
    if Keyed(schema, row) then row else InsertRow(schema.columns, selfRefs, row)
  }

  function MirrorRows(schema: TableSchema, selfRefs: seq<string>, stored: seq<Stored>): (rows: seq<Row>)
    ensures |rows| == |stored|
    ensures forall k :: 0 <= k < |rows| ==> rows[k] == MirrorRow(schema, selfRefs, stored[k].row)
  {
    seq(|stored|, k requires 0 <= k < |stored| => MirrorRow(schema, selfRefs, stored[k].row))
  }

  /** What a finished run leaves: every table's rows in rowid order. */
  function Mirror(catalog: Catalog, source: Source): (db: Tables)
    requires catalog.Keys == source.Keys
    ensures db.Keys == catalog.Keys
  {
    map t | t in catalog :: MirrorRows(catalog[t], SelfRefs(catalog, t), source[t])
  }

  // A reference of a row, as it is copied, finds its parent among the rows of `source`.
  predicate Anchored(catalog: Catalog, source: Source, t: string, f: nat, k: nat)
    requires t in catalog && t in source && f < |catalog[t].foreignKeys| && k < |source[t]|
  {
    Resolves(Contents(source), catalog[t].foreignKeys[f],
             MirrorRow(catalog[t], SelfRefs(catalog, t), source[t][k].row))
  }

  /** No row that is copied refers to one that is not. */
  ghost predicate SelfContained(catalog: Catalog, source: Source) {
    forall t, f: nat, k: nat {:trigger Anchored(catalog, source, t, f, k)} ::
      t in catalog && t in source && f < |catalog[t].foreignKeys| && k < |source[t]| ==>
      Anchored(catalog, source, t, f, k)
  }

  // ----- partial copies are sound

  // `part` is `full` with some self-reference cells still NULL.
  ghost predicate PartialRow(selfRefs: seq<string>, full: Row, part: Row) {
    && part.Keys == full.Keys
    && forall c :: c in full ==> part[c] == full[c] || (c in selfRefs && part[c] == Null)
  }

  ghost predicate PartialTable(schema: TableSchema, selfRefs: seq<string>, stored: seq<Stored>, rows: seq<Row>) {
    && |rows| <= |stored|
    && forall k {:trigger PartialRow(selfRefs, MirrorRow(schema, selfRefs, stored[k].row), rows[k])} ::
      0 <= k < |rows| ==> PartialRow(selfRefs, MirrorRow(schema, selfRefs, stored[k].row), rows[k])
  }

  ghost predicate PartialCopy(catalog: Catalog, source: Source, db: Tables) {
    && db.Keys == catalog.Keys == source.Keys
    && forall t {:trigger PartialTable(catalog[t], SelfRefs(catalog, t), source[t], db[t])} ::
      t in catalog ==> PartialTable(catalog[t], SelfRefs(catalog, t), source[t], db[t])
  }

  ghost predicate KeyRooted(source: Source, db: Tables, t: string, fk: ForeignKey)
    requires t in db && db.Keys == source.Keys
  {
    || db[t] == []
    || fk.parent !in db
    || |db[fk.parent]| == |source[fk.parent]|
    || forall k :: 0 <= k < |db[t]| ==> Vacuous(db[t][k], fk.columns)
  }

  // A table with rows has its parents complete, or its own keys to them empty.
  ghost predicate Rooted(catalog: Catalog, source: Source, db: Tables) {
    && db.Keys == catalog.Keys == source.Keys
    && forall t, f {:trigger KeyRooted(source, db, t, catalog[t].foreignKeys[f])} ::
      t in catalog && 0 <= f < |catalog[t].foreignKeys| ==> KeyRooted(source, db, t, catalog[t].foreignKeys[f])
  }

  lemma PartialKey(selfRefs: seq<string>, full: Row, part: Row, columns: seq<string>)
    requires PartialRow(selfRefs, full, part)
    requires (forall c :: c in columns ==> c !in selfRefs) || !Vacuous(part, columns)
    ensures Key(part, columns) == Key(full, columns)
    ensures Vacuous(part, columns) <==> Vacuous(full, columns)
  {
  }

  lemma MirrorRowIsPartial(schema: TableSchema, selfRefs: seq<string>, row: Row)
    requires row.Keys == Elems(schema.columns)
    ensures PartialRow(selfRefs, row, MirrorRow(schema, selfRefs, row))
  {
  }

  // Columns that are no self-reference hold the source's values in every partial form.
  lemma PartialColumns(catalog: Catalog, source: Source, db: Tables, t: string, k: nat, columns: seq<string>)
    requires SourceReady(catalog, source) && PartialCopy(catalog, source, db)
    requires t in catalog && k < |db[t]| && forall c :: c in columns ==> c !in SelfRefs(catalog, t)
    ensures k < |source[t]| && Key(db[t][k], columns) == Key(source[t][k].row, columns)
    ensures Vacuous(db[t][k], columns) <==> Vacuous(source[t][k].row, columns)
  {
    hide KeysUnique, MirrorRow;
    assert TableReady(catalog[t], source[t]);
    assert PartialTable(catalog[t], SelfRefs(catalog, t), source[t], db[t]);
    var row, mirrored := source[t][k].row, MirrorRow(catalog[t], SelfRefs(catalog, t), source[t][k].row);
    assert PartialRow(SelfRefs(catalog, t), mirrored, db[t][k]);
    MirrorRowIsPartial(catalog[t], SelfRefs(catalog, t), row);
    PartialKey(SelfRefs(catalog, t), row, mirrored, columns);
    PartialKey(SelfRefs(catalog, t), mirrored, db[t][k], columns);
  }

  lemma PartialResolves(catalog: Catalog, source: Source, db: Tables, t: string, f: nat, k: nat)
    requires SchemaReady(catalog) && SourceReady(catalog, source) && SelfContained(catalog, source)
    requires PartialCopy(catalog, source, db) && Rooted(catalog, source, db)
    requires t in catalog && f < |catalog[t].foreignKeys| && k < |db[t]|
    ensures Resolves(db, catalog[t].foreignKeys[f], db[t][k])
  {
    hide KeysUnique, MirrorRow;
    var fk, row := catalog[t].foreignKeys[f], db[t][k];
    assert KeyReady(catalog, t, fk) && KeyRooted(source, db, t, fk);
    if !Vacuous(row, fk.columns) {
      assert PartialTable(catalog[t], SelfRefs(catalog, t), source[t], db[t]);
      var mirrored := MirrorRow(catalog[t], SelfRefs(catalog, t), source[t][k].row);
      assert PartialRow(SelfRefs(catalog, t), mirrored, row);
      PartialKey(SelfRefs(catalog, t), mirrored, row, fk.columns);
      assert Anchored(catalog, source, t, f, k);
      var p := fk.parent;
      var m :| 0 <= m < |Contents(source)[p]| && Key(Contents(source)[p][m], fk.parentColumns) == Key(row, fk.columns);
      PartialColumns(catalog, source, db, p, m, fk.parentColumns);
    }
  }

  lemma PartialUnique(catalog: Catalog, source: Source, db: Tables, t: string, i: nat, j: nat)
    requires SchemaReady(catalog) && SourceReady(catalog, source) && PartialCopy(catalog, source, db)
    requires t in catalog && i < |db[t]| && j < |db[t]| && i != j
    ensures !SameKey(db[t][i], db[t][j], catalog[t].pk)
  {
    var pk := catalog[t].pk;
    assert KeyOffSelfRefs(catalog, t);
    PartialColumns(catalog, source, db, t, i, pk);
    PartialColumns(catalog, source, db, t, j, pk);
    assert !SameKey(Contents(source)[t][i], Contents(source)[t][j], pk);
  }

  lemma PartialKeysUnique(catalog: Catalog, source: Source, db: Tables)
    requires SchemaReady(catalog) && SourceReady(catalog, source) && PartialCopy(catalog, source, db)
    ensures KeysUnique(catalog, db)
  {
    forall t, i, j | t in catalog && t in db && 0 <= i < |db[t]| && 0 <= j < |db[t]| && i != j
      ensures !SameKey(db[t][i], db[t][j], catalog[t].pk)
    {
      PartialUnique(catalog, source, db, t, i, j);
    }
  }

  /** A rooted partial copy of a self-contained source is sound. */
  lemma PartialIsSound(catalog: Catalog, source: Source, db: Tables)
    requires SchemaReady(catalog) && SourceReady(catalog, source) && SelfContained(catalog, source)
    requires PartialCopy(catalog, source, db) && Rooted(catalog, source, db)
    ensures Sound(catalog, db)
  {
    hide SchemaReady, SourceReady, SelfContained, Rooted, KeysUnique;
    forall t, f, k | t in catalog && t in db && 0 <= f < |catalog[t].foreignKeys| && 0 <= k < |db[t]|
      ensures Resolves(db, catalog[t].foreignKeys[f], db[t][k])
    {
      PartialResolves(catalog, source, db, t, f, k);
    }
    PartialKeysUnique(catalog, source, db);
  }

  lemma MirrorIsPartial(catalog: Catalog, source: Source)
    requires SourceReady(catalog, source)
    ensures PartialCopy(catalog, source, Mirror(catalog, source))
    ensures Rooted(catalog, source, Mirror(catalog, source))
  {
    hide MirrorRow, KeysUnique;
    var mirror := Mirror(catalog, source);
    forall t | t in catalog ensures PartialTable(catalog[t], SelfRefs(catalog, t), source[t], mirror[t]) {
    }
    forall t, f | t in catalog && 0 <= f < |catalog[t].foreignKeys|
      ensures KeyRooted(source, mirror, t, catalog[t].foreignKeys[f])
    {
    }
  }

  lemma SoundMirrorAnchors(catalog: Catalog, source: Source, t: string, f: nat, k: nat)
    requires SchemaReady(catalog) && SourceReady(catalog, source) && Sound(catalog, Mirror(catalog, source))
    requires t in catalog && t in source && f < |catalog[t].foreignKeys| && k < |source[t]|
    ensures Anchored(catalog, source, t, f, k)
  {
    hide MirrorRow, KeysUnique;
    var mirror, fk := Mirror(catalog, source), catalog[t].foreignKeys[f];
    assert KeyReady(catalog, t, fk);
    assert Resolves(mirror, fk, mirror[t][k]);
    if !Vacuous(mirror[t][k], fk.columns) {
      var p := fk.parent;
      var m :| 0 <= m < |mirror[p]| && Key(mirror[p][m], fk.parentColumns) == Key(mirror[t][k], fk.columns);
      MirrorIsPartial(catalog, source);
      PartialColumns(catalog, source, mirror, p, m, fk.parentColumns);
      assert Key(Contents(source)[p][m], fk.parentColumns) == Key(mirror[t][k], fk.columns);
    }
  }

  /** The mirror is sound exactly when the source is self-contained. */
  lemma MirrorIsSound(catalog: Catalog, source: Source)
    requires SchemaReady(catalog) && SourceReady(catalog, source)
    ensures Sound(catalog, Mirror(catalog, source)) <==> SelfContained(catalog, source)
  {
    hide SchemaReady, SourceReady, MirrorRow, Rooted, KeysUnique, Sound, Mirror;
    MirrorIsPartial(catalog, source);
    if SelfContained(catalog, source) {
      PartialIsSound(catalog, source, Mirror(catalog, source));
    }
    if Sound(catalog, Mirror(catalog, source)) {
      forall t, f: nat, k: nat |
        t in catalog && t in source && f < |catalog[t].foreignKeys| && k < |source[t]|
        ensures Anchored(catalog, source, t, f, k)
      {
        SoundMirrorAnchors(catalog, source, t, f, k);
      }
    }
  }

  /** A source whose references all resolve is self-contained. */
  lemma SoundIsSelfContained(catalog: Catalog, source: Source)
    requires SourceReady(catalog, source) && ReferencesHold(catalog, Contents(source))
    ensures SelfContained(catalog, source)
  {
    hide MirrorRow, KeysUnique;
    forall t, f: nat, k: nat | t in catalog && t in source && f < |catalog[t].foreignKeys| && k < |source[t]|
      ensures Anchored(catalog, source, t, f, k)
    {
      var fk, row := catalog[t].foreignKeys[f], source[t][k].row;
      var mirrored := MirrorRow(catalog[t], SelfRefs(catalog, t), row);
      assert TableReady(catalog[t], source[t]);
      MirrorRowIsPartial(catalog[t], SelfRefs(catalog, t), row);
      assert Resolves(Contents(source), fk, Contents(source)[t][k]);
      if !Vacuous(mirrored, fk.columns) { PartialKey(SelfRefs(catalog, t), row, mirrored, fk.columns); }
    }
  }
}
