/** The destination clear: self-references nulled first, then children deleted before
    parents. From any sound destination every statement is accepted, and no DELETE finds a
    row still pointing at the table it empties. */
module CopyClear {
  import opened Common
  import opened Database
  import opened CopySpec

  function Reverse(order: seq<string>): (r: seq<string>)
    ensures |r| == |order| && forall i :: 0 <= i < |r| ==> r[i] == order[|order| - 1 - i]
  {
    seq(|order|, i requires 0 <= i < |order| => order[|order| - 1 - i])
  }

  function NullTable(t: string, columns: seq<string>): (r: seq<Statement>)
    ensures |r| == |columns| && forall i :: 0 <= i < |r| ==> r[i] == ClearColumn(t, columns[i])
  {
    seq(|columns|, i requires 0 <= i < |columns| => ClearColumn(t, columns[i]))
  }

  function NullAll(catalog: Catalog, names: seq<string>): seq<Statement>
    requires forall n :: n in names ==> n in catalog
  {
    if names == [] then []
    else
      NullTable(names[0], SelfRefs(catalog, names[0])) + NullAll(catalog, names[1..])
  }

  function DeleteList(names: seq<string>): (r: seq<Statement>)
    ensures |r| == |names| && forall i :: 0 <= i < |r| ==> r[i] == DeleteAll(names[i])
  {
    seq(|names|, i requires 0 <= i < |names| => DeleteAll(names[i]))
  }

  function ClearScript(catalog: Catalog, deleteOrder: seq<string>): seq<Statement>
    requires forall n :: n in deleteOrder ==> n in catalog
  {
    NullAll(catalog, deleteOrder) + DeleteList(deleteOrder)
  }

  ghost predicate Blank(db: Tables, t: string, c: string)
    requires t in db
  {
    forall k :: 0 <= k < |db[t]| ==> Cell(db[t][k], c) == Null
  }

  lemma KeyWithout(row: Row, c: string, v: Value, columns: seq<string>)
    requires c !in columns
    ensures Key(row[c := v], columns) == Key(row, columns)
    ensures Vacuous(row[c := v], columns) <==> Vacuous(row, columns)
  {
  }

  lemma NulledKey(row: Row, c: string, columns: seq<string>)
    requires c in columns || Vacuous(row, columns)
    ensures Vacuous(row[c := Null], columns)
  {
  }

  lemma ClearColumnResolves(catalog: Catalog, db: Tables, t: string, c: string, u: string, f: nat, k: nat)
    requires SchemaReady(catalog) && Sound(catalog, db) && t in catalog && c in SelfRefs(catalog, t)
    requires u in catalog && f < |catalog[u].foreignKeys| && k < |db[u]|
    ensures Resolves(Effect(db, ClearColumn(t, c)), catalog[u].foreignKeys[f], Effect(db, ClearColumn(t, c))[u][k])
  {
    var db', fk := Effect(db, ClearColumn(t, c)), catalog[u].foreignKeys[f];
    var row, row' := db[u][k], db'[u][k];
    assert Resolves(db, fk, row) && KeyReady(catalog, u, fk);
    if u == t && (c in fk.columns || Vacuous(row, fk.columns)) {
      NulledKey(row, c, fk.columns);
    } else if !Vacuous(row, fk.columns) {
      if u == t { KeyWithout(row, c, Null, fk.columns); }
      var p := fk.parent;
      var m :| 0 <= m < |db[p]| && Key(db[p][m], fk.parentColumns) == Key(row, fk.columns);
      if p == t { KeyWithout(db[p][m], c, Null, fk.parentColumns); }
      assert Key(db'[p][m], fk.parentColumns) == Key(row', fk.columns);
    }
  }

  lemma ClearColumnAccepted(catalog: Catalog, db: Tables, t: string, c: string)
    requires SchemaReady(catalog) && Sound(catalog, db) && t in catalog && c in SelfRefs(catalog, t)
    ensures Accepts(catalog, db, ClearColumn(t, c))
  {
    var db' := Effect(db, ClearColumn(t, c));
    forall u, f, k | u in catalog && u in db' && 0 <= f < |catalog[u].foreignKeys| && 0 <= k < |db'[u]|
      ensures Resolves(db', catalog[u].foreignKeys[f], db'[u][k])
    {
      ClearColumnResolves(catalog, db, t, c, u, f, k);
    }
    forall u, i, j | u in catalog && u in db' && 0 <= i < |db'[u]| && 0 <= j < |db'[u]| && i != j
      ensures !SameKey(db'[u][i], db'[u][j], catalog[u].pk)
    {
      assert !SameKey(db[u][i], db[u][j], catalog[u].pk);
      if u == t {
        assert KeyOffSelfRefs(catalog, t);
        KeyWithout(db[u][i], c, Null, catalog[u].pk);
        KeyWithout(db[u][j], c, Null, catalog[u].pk);
      }
    }
  }

  // Nulling a column blanks it and un-blanks nothing.
  lemma ClearColumnBlanks(db: Tables, t: string, c: string, u: string, d: string)
    requires t in db && u in db && ((u == t && d == c) || Blank(db, u, d))
    ensures Blank(Effect(db, ClearColumn(t, c)), u, d)
  {
  }

  lemma {:induction false} NullTableRun(catalog: Catalog, db: Tables, t: string, columns: seq<string>)
    requires SchemaReady(catalog) && Sound(catalog, db) && t in catalog
    requires forall c :: c in columns ==> c in SelfRefs(catalog, t)
    ensures BatchAccepted(catalog, db, NullTable(t, columns))
    ensures Sound(catalog, BatchEffect(db, NullTable(t, columns)))
    ensures forall u, d :: u in catalog && ((u == t && d in columns) || Blank(db, u, d)) ==>
      Blank(BatchEffect(db, NullTable(t, columns)), u, d)
  {
    if columns != [] {
      var s := NullTable(t, columns);
      assert s[1..] == NullTable(t, columns[1..]);
      var db' := Effect(db, s[0]);
      ClearColumnAccepted(catalog, db, t, columns[0]);
      NullTableRun(catalog, db', t, columns[1..]);
      forall u, d | u in catalog && ((u == t && d in columns) || Blank(db, u, d))
        ensures Blank(BatchEffect(db, s), u, d)
      {
        if u == t && d in columns[1..] {
        } else {
          ClearColumnBlanks(db, t, columns[0], u, d);
        }
      }
    }
  }

  lemma {:induction false} NullAllRun(catalog: Catalog, db: Tables, names: seq<string>)
    requires SchemaReady(catalog) && Sound(catalog, db)
    requires forall n :: n in names ==> n in catalog
    ensures BatchAccepted(catalog, db, NullAll(catalog, names))
    ensures Sound(catalog, BatchEffect(db, NullAll(catalog, names)))
    ensures forall u, d :: u in catalog && ((u in names && d in SelfRefs(catalog, u)) || Blank(db, u, d)) ==>
      Blank(BatchEffect(db, NullAll(catalog, names)), u, d)
  {
    if names != [] {
      var head := NullTable(names[0], SelfRefs(catalog, names[0]));
      NullTableRun(catalog, db, names[0], SelfRefs(catalog, names[0]));
      var db' := BatchEffect(db, head);
      NullAllRun(catalog, db', names[1..]);
      BatchConcat(catalog, db, head, NullAll(catalog, names[1..]));
      forall u, d | u in catalog && ((u in names && d in SelfRefs(catalog, u)) || Blank(db, u, d))
        ensures Blank(BatchEffect(db, NullAll(catalog, names)), u, d)
      {
        assert u in names ==> u == names[0] || u in names[1..];
      }
    }
  }

  // ----- child-first deletes

  ghost predicate SelfBlank(catalog: Catalog, db: Tables) {
    db.Keys == catalog.Keys && forall t, c :: t in catalog && c in SelfRefs(catalog, t) ==> Blank(db, t, c)
  }

  lemma SelfKeyVacuous(catalog: Catalog, db: Tables, t: string, f: nat, k: nat)
    requires SchemaReady(catalog) && SelfBlank(catalog, db)
    requires t in catalog && f < |catalog[t].foreignKeys| && k < |db[t]| && catalog[t].foreignKeys[f].parent == t
    ensures Vacuous(db[t][k], catalog[t].foreignKeys[f].columns)
  {
    var fk := catalog[t].foreignKeys[f];
    assert KeyReady(catalog, t, fk);
    assert fk.columns[0] in fk.columns;
    assert fk.columns[0] in SelfRefs(catalog, t);
    assert Blank(db, t, fk.columns[0]) && Cell(db[t][k], fk.columns[0]) == Null;
  }

  // In `order`, everything from `at` on is already empty.
  ghost predicate TailEmpty(db: Tables, order: seq<string>, at: nat) {
    forall j :: at <= j < |order| ==> order[j] in db && db[order[j]] == []
  }

  lemma ReferrerVacuous(catalog: Catalog, order: seq<string>, db: Tables, at: nat, u: string, f: nat, k: nat)
    requires SchemaReady(catalog) && OrderReady(catalog, order) && SelfBlank(catalog, db)
    requires at < |order| && TailEmpty(db, order, at + 1)
    requires u in catalog && f < |catalog[u].foreignKeys|
    requires k < |db[u]| && catalog[u].foreignKeys[f].parent == order[at]
    ensures Vacuous(db[u][k], catalog[u].foreignKeys[f].columns)
  {
    assert u in Elems(order) && order[at] in Elems(order);
    var i :| 0 <= i < |order| && order[i] == u;
    assert ParentPlaced(catalog, order, i, order[at]);
    // A later table is already empty and an earlier one cannot have this parent.
    if i == at {
      SelfKeyVacuous(catalog, db, u, f, k);
    }
  }

  lemma DeleteAccepted(catalog: Catalog, order: seq<string>, db: Tables, at: nat)
    requires SchemaReady(catalog) && OrderReady(catalog, order) && Sound(catalog, db) && SelfBlank(catalog, db)
    requires at < |order| && TailEmpty(db, order, at + 1)
    ensures order[at] in catalog && Accepts(catalog, db, DeleteAll(order[at]))
  {
    var t := order[at];
    assert t in Elems(order);
    var db' := Effect(db, DeleteAll(t));
    forall u, f, k | u in catalog && u in db && 0 <= f < |catalog[u].foreignKeys| && 0 <= k < |db[u]|
      && catalog[u].foreignKeys[f].parent == t
      ensures Vacuous(db[u][k], catalog[u].foreignKeys[f].columns)
    {
      ReferrerVacuous(catalog, order, db, at, u, f, k);
    }
    forall u, f, k | u in catalog && u in db' && 0 <= f < |catalog[u].foreignKeys| && 0 <= k < |db'[u]|
      ensures Resolves(db', catalog[u].foreignKeys[f], db'[u][k])
    {
      assert Resolves(db, catalog[u].foreignKeys[f], db[u][k]);
    }
    forall u, i, j | u in catalog && u in db' && 0 <= i < |db'[u]| && 0 <= j < |db'[u]| && i != j
      ensures !SameKey(db'[u][i], db'[u][j], catalog[u].pk)
    {
      assert !SameKey(db[u][i], db[u][j], catalog[u].pk);
    }
  }

  lemma DeleteKeepsBlank(catalog: Catalog, db: Tables, t: string)
    requires SelfBlank(catalog, db) && t in catalog
    ensures SelfBlank(catalog, Effect(db, DeleteAll(t)))
  {
  }

  // Deleting order[at - 1], order[at - 2], …, order[0].
  lemma {:induction false} DeletesRun(catalog: Catalog, order: seq<string>, db: Tables, at: nat)
    requires SchemaReady(catalog) && OrderReady(catalog, order) && Sound(catalog, db) && SelfBlank(catalog, db)
    requires at <= |order| && TailEmpty(db, order, at)
    ensures BatchAccepted(catalog, db, DeleteList(Reverse(order[..at])))
    ensures BatchEffect(db, DeleteList(Reverse(order[..at]))) == map t | t in catalog :: []
  {
    var ss := DeleteList(Reverse(order[..at]));
    if at == 0 {
      forall t | t in catalog ensures db[t] == [] {
        assert t in Elems(order);
        var i :| 0 <= i < |order| && order[i] == t;
        assert db[order[i]] == [];
      }
      assert db == map t | t in catalog :: [];
    } else {
      var t := order[at - 1];
      DeleteAccepted(catalog, order, db, at - 1);
      DeleteKeepsBlank(catalog, db, t);
      var db' := Effect(db, DeleteAll(t));
      assert ss[0] == DeleteAll(t);
      assert ss[1..] == DeleteList(Reverse(order[..at - 1]));
      assert TailEmpty(db', order, at - 1);
      DeletesRun(catalog, order, db', at - 1);
    }
  }

  /** The whole clear, from any sound destination: accepted statement by statement, and it
      leaves every table empty. */
  lemma ClearRuns(catalog: Catalog, order: seq<string>, db: Tables)
    requires SchemaReady(catalog) && OrderReady(catalog, order) && Sound(catalog, db)
    ensures forall n :: n in Reverse(order) ==> n in catalog
    ensures BatchAccepted(catalog, db, ClearScript(catalog, Reverse(order)))
    ensures BatchEffect(db, ClearScript(catalog, Reverse(order))) == map t | t in catalog :: []
  {
    var names := Reverse(order);
    forall n | n in names ensures n in catalog {
      assert n in Elems(order);
    }
    NullAllRun(catalog, db, names);
    var db' := BatchEffect(db, NullAll(catalog, names));
    forall t, c | t in catalog && c in SelfRefs(catalog, t) ensures Blank(db', t, c) {
      assert t in Elems(order);
      var i :| 0 <= i < |order| && order[i] == t;
      assert names[|order| - 1 - i] == t;
    }
    assert order[..|order|] == order;
    DeletesRun(catalog, order, db', |order|);
    BatchConcat(catalog, db, NullAll(catalog, names), DeleteList(names));
  }
}
