/** The destination database as the copy engine sees it: rows, immediate foreign keys,
    primary keys, and the four statement shapes the engine sends. A statement is a state
    transformer; `Accepts` says when SQLite lets it commit. */
module Database {
  import opened Common
  import opened Introspect

  datatype Value = Null | Number(n: int) | Text(s: string)

  type Row = map<string, Value>
  type Tables = map<string, seq<Row>>

  datatype ForeignKey = ForeignKey(columns: seq<string>, parent: string, parentColumns: seq<string>)
  datatype TableSchema = TableSchema(columns: seq<string>, pk: seq<string>, foreignKeys: seq<ForeignKey>)
  type Catalog = map<string, TableSchema>

  datatype Statement =
    | Insert(table: string, rows: seq<Row>)
    | ClearColumn(table: string, column: string)
    | DeleteAll(table: string)
    | SetCell(table: string, column: string, value: Value, pk: seq<string>, key: seq<Value>)

  function Cell(row: Row, column: string): Value {
    if column in row then row[column] else Null
  }

  function Key(row: Row, columns: seq<string>): (k: seq<Value>)
    ensures |k| == |columns| && forall i :: 0 <= i < |k| ==> k[i] == Cell(row, columns[i])
  {
    seq(|columns|, i requires 0 <= i < |columns| => Cell(row, columns[i]))
  }

  // A key with a NULL in it refers to nothing and clashes with nothing.
  predicate Vacuous(row: Row, columns: seq<string>) {
    exists i | 0 <= i < |columns| :: Cell(row, columns[i]) == Null
  }

  predicate Finds(rows: seq<Row>, columns: seq<string>, key: seq<Value>) {
    exists m | 0 <= m < |rows| :: Key(rows[m], columns) == key
  }

  predicate Resolves(db: Tables, fk: ForeignKey, row: Row) {
    Vacuous(row, fk.columns) || (fk.parent in db && Finds(db[fk.parent], fk.parentColumns, Key(row, fk.columns)))
  }

  predicate ReferencesHold(catalog: Catalog, db: Tables) {
    forall t, f, k {:trigger Resolves(db, catalog[t].foreignKeys[f], db[t][k])}
      | t in catalog && t in db && 0 <= f < |catalog[t].foreignKeys| && 0 <= k < |db[t]| ::
      Resolves(db, catalog[t].foreignKeys[f], db[t][k])
  }

  predicate SameKey(a: Row, b: Row, pk: seq<string>) {
    pk != [] && !Vacuous(a, pk) && Key(a, pk) == Key(b, pk)
  }

  predicate KeysUnique(catalog: Catalog, db: Tables) {
    forall t, i, j {:trigger SameKey(db[t][i], db[t][j], catalog[t].pk)}
      | t in catalog && t in db && 0 <= i < |db[t]| && 0 <= j < |db[t]| && i != j ::
      !SameKey(db[t][i], db[t][j], catalog[t].pk)
  }

  /** Every reference resolves and every primary key is unique. */
  predicate Sound(catalog: Catalog, db: Tables) {
    db.Keys == catalog.Keys && ReferencesHold(catalog, db) && KeysUnique(catalog, db)
  }

  predicate MatchesKey(row: Row, pk: seq<string>, key: seq<Value>) {
    !Vacuous(row, pk) && Key(row, pk) == key
  }

  function MapRows(rows: seq<Row>, column: string, value: Value): (r: seq<Row>)
    ensures |r| == |rows| && forall k :: 0 <= k < |r| ==> r[k] == rows[k][column := value]
  {
    seq(|rows|, k requires 0 <= k < |rows| => rows[k][column := value])
  }

  function SetRows(rows: seq<Row>, column: string, value: Value, pk: seq<string>, key: seq<Value>): (r: seq<Row>)
    ensures |r| == |rows|
    ensures forall k :: 0 <= k < |r| ==>
      r[k] == if MatchesKey(rows[k], pk, key) then rows[k][column := value] else rows[k]
  {
    seq(|rows|, k requires 0 <= k < |rows| =>
        if MatchesKey(rows[k], pk, key) then rows[k][column := value] else rows[k])
  }

  function Effect(db: Tables, s: Statement): Tables {
    if s.table !in db then db
    else match s
      case Insert(t, rows) => db[t := db[t] + rows]
      case ClearColumn(t, c) => db[t := MapRows(db[t], c, Null)]
      case DeleteAll(t) => db[t := []]
      case SetCell(t, c, v, pk, key) => db[t := SetRows(db[t], c, v, pk, key)]
  }

  // No row anywhere still points into `table`, so no ON DELETE action of any kind fires.
  predicate NobodyReferences(catalog: Catalog, db: Tables, table: string) {
    forall t, f, k {:trigger Vacuous(db[t][k], catalog[t].foreignKeys[f].columns)}
      | t in catalog && t in db && 0 <= f < |catalog[t].foreignKeys| && 0 <= k < |db[t]| ::
      catalog[t].foreignKeys[f].parent == table ==> Vacuous(db[t][k], catalog[t].foreignKeys[f].columns)
  }

  predicate Accepts(catalog: Catalog, db: Tables, s: Statement) {
    && s.table in db
    && (s.DeleteAll? ==> NobodyReferences(catalog, db, s.table))
    && Sound(catalog, Effect(db, s))
  }

  /** What the database refuses: a statement on a table it does not have, one that would leave a
      reference unresolved or a key twice, and a DELETE of a table some row still refers to. */
  lemma Refuses(catalog: Catalog, db: Tables, s: Statement)
    ensures s.table !in db ==> !Accepts(catalog, db, s)
    ensures !Sound(catalog, Effect(db, s)) ==> !Accepts(catalog, db, s)
    ensures forall t, f, k ::
      && s.DeleteAll? && t in catalog && t in db && 0 <= f < |catalog[t].foreignKeys| && 0 <= k < |db[t]|
      && catalog[t].foreignKeys[f].parent == s.table && !Vacuous(db[t][k], catalog[t].foreignKeys[f].columns)
      ==> !Accepts(catalog, db, s)
  {
    hide Sound, Vacuous, Effect;
  }

  function BatchEffect(db: Tables, ss: seq<Statement>): Tables {
    if ss == [] then db else BatchEffect(Effect(db, ss[0]), ss[1..])
  }

  /** Every statement of the list is accepted in turn. */
  predicate BatchAccepted(catalog: Catalog, db: Tables, ss: seq<Statement>) {
    ss == [] || (Accepts(catalog, db, ss[0]) && BatchAccepted(catalog, Effect(db, ss[0]), ss[1..]))
  }

  lemma BatchCons(catalog: Catalog, db: Tables, s: Statement, rest: seq<Statement>)
    ensures BatchEffect(db, [s] + rest) == BatchEffect(Effect(db, s), rest)
    ensures BatchAccepted(catalog, db, [s] + rest) <==>
      Accepts(catalog, db, s) && BatchAccepted(catalog, Effect(db, s), rest)
  {
  }

  lemma {:induction false} BatchConcat(catalog: Catalog, db: Tables, a: seq<Statement>, b: seq<Statement>)
    ensures BatchEffect(db, a + b) == BatchEffect(BatchEffect(db, a), b)
    ensures BatchAccepted(catalog, db, a + b) <==>
      BatchAccepted(catalog, db, a) && BatchAccepted(catalog, BatchEffect(db, a), b)
  {
    if a == [] {
      assert a + b == b;
    } else {
      assert (a + b)[1..] == a[1..] + b;
      BatchConcat(catalog, Effect(db, a[0]), a[1..], b);
    }
  }

  /** An accepted list of statements never leaves the database unsound, wherever it stops. */
  lemma {:induction false} AcceptedStaysSound(catalog: Catalog, db: Tables, ss: seq<Statement>, k: nat)
    requires Sound(catalog, db) && BatchAccepted(catalog, db, ss) && k <= |ss|
    ensures Sound(catalog, BatchEffect(db, ss[..k]))
  {
    if k > 0 {
      assert ss[..k][1..] == ss[1..][..k - 1] && ss[..k][0] == ss[0];
      AcceptedStaysSound(catalog, Effect(db, ss[0]), ss[1..], k - 1);
    }
  }

  function ParentList(name: string, fks: seq<ForeignKey>): (r: seq<string>)
    ensures forall p :: p in r <==> p != name && exists f :: 0 <= f < |fks| && fks[f].parent == p
  {
    if fks == [] then []
    else
      var rest := ParentList(name, fks[1..]);
      assert fks == [fks[0]] + fks[1..];
      if fks[0].parent == name then rest else [fks[0].parent] + rest
  }

  function Dedupe(s: seq<string>): (r: seq<string>)
    ensures Distinct(r) && forall x :: x in r <==> x in s
  {
    if s == [] then []
    else
      var front := Dedupe(s[..|s| - 1]);
      assert s == s[..|s| - 1] + [s[|s| - 1]];
      if s[|s| - 1] in front then front else front + [s[|s| - 1]]
  }

  function ParentNames(name: string, fks: seq<ForeignKey>): (r: seq<string>)
    ensures Distinct(r) && forall p :: p in r <==> p != name && exists f :: 0 <= f < |fks| && fks[f].parent == p
  {
    Dedupe(ParentList(name, fks))
  }

  function SelfColumnList(name: string, fks: seq<ForeignKey>): (r: seq<string>)
    ensures forall c :: c in r <==> exists f :: 0 <= f < |fks| && fks[f].parent == name && c in fks[f].columns
  {
    if fks == [] then []
    else
      var rest := SelfColumnList(name, fks[1..]);
      assert fks == [fks[0]] + fks[1..];
      if fks[0].parent == name then fks[0].columns + rest else rest
  }

  function SelfColumns(name: string, fks: seq<ForeignKey>): (r: seq<string>)
    ensures Distinct(r)
    ensures forall c :: c in r <==> exists f :: 0 <= f < |fks| && fks[f].parent == name && c in fks[f].columns
  {
    Dedupe(SelfColumnList(name, fks))
  }

  // readTableInfos: what the pragmas say about one table.
  function InfoOf(name: string, t: TableSchema): TableInfo {
    TableInfo(name, t.columns, t.pk, ParentNames(name, t.foreignKeys), SelfColumns(name, t.foreignKeys))
  }
}
