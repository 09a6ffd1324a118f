/** Schema comparison before a copy (`compareSchemas`): which differences in tables and
    ordered columns it reports, and which it cannot see. */
module SchemaCompare {
  import opened Common
  import opened Introspect

  datatype Mismatch =
    | MissingInDestination(name: string)
    | MissingInSource(name: string)
    | ColumnsDiffer(name: string, source: string, dest: string)

  function Join(columns: seq<string>): string {
    if columns == [] then ""
    else if |columns| == 1 then columns[0]
    else columns[0] + "," + Join(columns[1..])
  }

  ghost predicate SameShape(source: map<string, TableInfo>, dest: map<string, TableInfo>) {
    source.Keys == dest.Keys && forall n :: n in source ==> Join(source[n].columns) == Join(dest[n].columns)
  }

  ghost predicate Differs(source: map<string, TableInfo>, dest: map<string, TableInfo>, m: Mismatch)
    requires m.ColumnsDiffer?
  {
    && m.name in source && m.name in dest
    && m.source == Join(source[m.name].columns) && m.dest == Join(dest[m.name].columns) && m.source != m.dest
  }

  // The messages are exactly the differences, each reported once.
  ghost predicate Reports(source: map<string, TableInfo>, dest: map<string, TableInfo>, messages: seq<Mismatch>) {
    && (forall n :: MissingInDestination(n) in messages <==> n in source && n !in dest)
    && (forall n :: MissingInSource(n) in messages <==> n in dest && n !in source)
    && (forall n, a, b :: ColumnsDiffer(n, a, b) in messages <==> Differs(source, dest, ColumnsDiffer(n, a, b)))
    && Distinct(messages)
  }

  lemma SomethingDiffers(s: map<string, TableInfo>, d: map<string, TableInfo>, messages: seq<Mismatch>)
    requires Reports(s, d, messages) && messages != []
    ensures !SameShape(s, d)
  {
    hide Join, Distinct;
    assert messages[0] in messages;
    match messages[0]
    case MissingInDestination(n) =>
    case MissingInSource(n) =>
    case ColumnsDiffer(n, a, b) => assert Differs(s, d, ColumnsDiffer(n, a, b));
  }

  lemma NothingDiffers(s: map<string, TableInfo>, d: map<string, TableInfo>)
    requires Reports(s, d, [])
    ensures SameShape(s, d)
  {
    hide Join, Distinct;
    forall n ensures n in s <==> n in d {
      assert MissingInDestination(n) !in [] && MissingInSource(n) !in [];
    }
    forall n | n in s ensures Join(s[n].columns) == Join(d[n].columns) {
      assert ColumnsDiffer(n, Join(s[n].columns), Join(d[n].columns)) !in [];
    }
  }

  // Nothing is reported exactly if both have the same tables with the same joined columns.
  lemma ReportsTell(s: map<string, TableInfo>, d: map<string, TableInfo>, messages: seq<Mismatch>)
    requires Reports(s, d, messages)
    ensures messages == [] <==> SameShape(s, d)
  {
    hide Reports, SameShape;
    if messages == [] { NothingDiffers(s, d); } else { SomethingDiffers(s, d, messages); }
  }

  lemma DiffersOnce(source: map<string, TableInfo>, dest: map<string, TableInfo>, n: string)
    requires n in source
    ensures forall m: Mismatch :: m.ColumnsDiffer? && m.name == n ==>
      (Differs(source, dest, m) <==>
         n in dest && Join(source[n].columns) != Join(dest[n].columns)
         && m == ColumnsDiffer(n, Join(source[n].columns), Join(dest[n].columns)))
  {
  }

  lemma DiffersNames(source: map<string, TableInfo>, dest: map<string, TableInfo>)
    ensures forall m: Mismatch :: m.ColumnsDiffer? && Differs(source, dest, m) ==> m.name in source && m.name in dest
  {
  }

  // The first loop: tables the destination lacks.
  method MissingThere(sourceNames: seq<string>, dest: map<string, TableInfo>) returns (messages: seq<Mismatch>)
    requires Distinct(sourceNames)
    ensures forall m :: m in messages <==> m.MissingInDestination? && m.name in sourceNames && m.name !in dest
    ensures Distinct(messages)
  {
    messages := [];
    for i := 0 to |sourceNames|
      invariant forall m :: m in messages <==>
        m.MissingInDestination? && m.name in sourceNames[..i] && m.name !in dest
      invariant Distinct(messages)
    {
      assert sourceNames[..i + 1] == sourceNames[..i] + [sourceNames[i]];
      if sourceNames[i] !in dest { messages := messages + [MissingInDestination(sourceNames[i])]; }
    }
    assert sourceNames[..|sourceNames|] == sourceNames;
  }

  // The second: tables the source lacks.
  method MissingHere(destNames: seq<string>, source: map<string, TableInfo>) returns (messages: seq<Mismatch>)
    requires Distinct(destNames)
    ensures forall m :: m in messages <==> m.MissingInSource? && m.name in destNames && m.name !in source
    ensures Distinct(messages)
  {
    messages := [];
    for i := 0 to |destNames|
      invariant forall m :: m in messages <==>
        m.MissingInSource? && m.name in destNames[..i] && m.name !in source
      invariant Distinct(messages)
    {
      assert destNames[..i + 1] == destNames[..i] + [destNames[i]];
      if destNames[i] !in source { messages := messages + [MissingInSource(destNames[i])]; }
    }
    assert destNames[..|destNames|] == destNames;
  }

  // The third: common tables whose joined columns differ.
  method ColumnsApart(sourceNames: seq<string>, source: map<string, TableInfo>, dest: map<string, TableInfo>)
    returns (messages: seq<Mismatch>)
    requires Distinct(sourceNames) && forall n :: n in sourceNames ==> n in source
    ensures forall m :: m in messages <==> m.ColumnsDiffer? && m.name in sourceNames && Differs(source, dest, m)
    ensures Distinct(messages)
  {
    hide Join, Differs;
    messages := [];
    for i := 0 to |sourceNames|
      invariant forall m :: m in messages <==>
        m.ColumnsDiffer? && m.name in sourceNames[..i] && Differs(source, dest, m)
      invariant Distinct(messages)
    {
      assert sourceNames[..i + 1] == sourceNames[..i] + [sourceNames[i]];
      var n := sourceNames[i];
      DiffersOnce(source, dest, n);
      if n in dest {
        var a, b := Join(source[n].columns), Join(dest[n].columns);
        if a != b { messages := messages + [ColumnsDiffer(n, a, b)]; }
      }
    }
    assert sourceNames[..|sourceNames|] == sourceNames;
  }

  lemma PartsReport(source: map<string, TableInfo>, dest: map<string, TableInfo>, there: seq<Mismatch>,
                    here: seq<Mismatch>, apart: seq<Mismatch>)
    requires Distinct(there) && Distinct(here) && Distinct(apart)
    requires forall m :: m in there <==> m.MissingInDestination? && m.name in source && m.name !in dest
    requires forall m :: m in here <==> m.MissingInSource? && m.name in dest && m.name !in source
    requires forall m :: m in apart <==> m.ColumnsDiffer? && Differs(source, dest, m)
    ensures Reports(source, dest, there + here + apart)
  {
    hide Join, Differs, Distinct;
    var messages := there + here + apart;
    DistinctConcat(there, here);
    DistinctConcat(there + here, apart);
    assert forall m :: m in messages <==> m in there || m in here || m in apart;
  }

  /** `compareSchemas`: the messages are exactly the differences in tables and joined columns,
      each reported once. */
  method CompareSchemas(sourceNames: seq<string>, source: map<string, TableInfo>, destNames: seq<string>,
                        dest: map<string, TableInfo>)
    returns (messages: seq<Mismatch>)
    requires Elems(sourceNames) == source.Keys && Elems(destNames) == dest.Keys
    requires Distinct(sourceNames) && Distinct(destNames)
    ensures Reports(source, dest, messages)
  {
    hide Join, Differs, Distinct, Reports;
    forall n ensures (n in source <==> n in sourceNames) && (n in dest <==> n in destNames) {
      assert n in sourceNames <==> n in Elems(sourceNames);
      assert n in destNames <==> n in Elems(destNames);
    }
    DiffersNames(source, dest);
    var there := MissingThere(sourceNames, dest);
    var here := MissingHere(destNames, source);
    var apart := ColumnsApart(sourceNames, source, dest);
    PartsReport(source, dest, there, here, apart);
    messages := there + here + apart;
  }

  // A column difference the comparison does not report.
  ghost predicate Hidden(a: seq<string>, b: seq<string>) {
    a != b && Join(a) == Join(b)
  }

  // A name that cannot be mistaken for a list of names: not empty, no separator.
  ghost predicate Plain(name: string) {
    name != "" && ',' !in name
  }

  ghost predicate SomeComma(columns: seq<string>) {
    exists i :: 0 <= i < |columns| && ',' in columns[i]
  }

  lemma JoinStep(columns: seq<string>)
    requires |columns| >= 2
    ensures Join(columns) == columns[0] + "," + Join(columns[1..])
  {
  }

  lemma FirstComma(x: string, r: string, y: string, s: string)
    requires ',' !in x && ',' !in y && x + "," + r == y + "," + s
    ensures x == y && r == s
  {
    var a, b := x + "," + r, y + "," + s;
    assert a[|x|] == ',' && b[|y|] == ',';
    assert forall k :: 0 <= k < |x| ==> a[k] == x[k];
    assert forall k :: 0 <= k < |y| ==> b[k] == y[k];
    assert x == a[..|x|] && y == b[..|y|] && r == a[|x| + 1..] && s == b[|y| + 1..];
  }

  // ----- lists of one length

  lemma CountConcat(a: string, b: string, c: char)
    ensures Count(a + b, c) == Count(a, c) + Count(b, c)
    decreases |b|
  {
    if b == "" {
      assert a + b == a;
    } else {
      assert (a + b)[..|a + b| - 1] == a + b[..|b| - 1];
      CountConcat(a, b[..|b| - 1], c);
    }
  }

  lemma OneComma()
    ensures Count(",", ',') == 1
  {
    assert ","[..0] == "";
  }

  // The joined text holds its separators, and one comma more per comma in a name.
  lemma {:induction false} CommasJoined(columns: seq<string>)
    requires columns != []
    ensures Count(Join(columns), ',') >= |columns| - 1
    ensures Count(Join(columns), ',') == |columns| - 1 <==> !SomeComma(columns)
  {
    hide Count;
    CountMember(columns[0], ',');
    if |columns| >= 2 {
      CommasJoined(columns[1..]);
      CountConcat(columns[0] + ",", Join(columns[1..]), ',');
      CountConcat(columns[0], ",", ',');
      OneComma();
      assert columns == [columns[0]] + columns[1..];
      if !SomeComma(columns) {
        assert forall i :: 0 <= i < |columns[1..]| ==> columns[1..][i] == columns[i + 1];
      } else if ',' !in columns[0] {
        var i :| 0 <= i < |columns| && ',' in columns[i];
        assert ',' in columns[1..][i - 1];
      }
    } else if SomeComma(columns) {
      var i :| 0 <= i < |columns| && ',' in columns[i];
      assert i == 0;
    }
  }

  lemma {:induction false} CommaFreeSeparates(a: seq<string>, b: seq<string>)
    requires |a| == |b| && !SomeComma(a) && !SomeComma(b) && Join(a) == Join(b)
    ensures a == b
  {
    if |a| >= 2 {
      FirstComma(a[0], Join(a[1..]), b[0], Join(b[1..]));
      assert forall i :: 0 <= i < |a[1..]| ==> a[1..][i] == a[i + 1] && b[1..][i] == b[i + 1];
      CommaFreeSeparates(a[1..], b[1..]);
      assert a == [a[0]] + a[1..] && b == [b[0]] + b[1..];
    } else if |a| == 1 {
      assert a == [a[0]] && b == [b[0]];
    }
  }

  // The list with a comma of one name taken for the separator beside it.
  function Shifted(columns: seq<string>, i: nat, k: nat): (b: seq<string>)
    requires |columns| >= 2 && i < |columns| && k < |columns[i]|
    ensures |b| == |columns|
  {
    var before, after := columns[i][..k], columns[i][k + 1..];
    if i + 1 < |columns| then columns[i := before][i + 1 := after + "," + columns[i + 1]]
    else columns[i := after][i - 1 := columns[i - 1] + "," + before]
  }

  // Text put before the first name is text put before the joined list.
  lemma JoinPrefixed(a: seq<string>, b: seq<string>, prefix: string)
    requires a != [] && |b| == |a| && b[0] == prefix + a[0] && b[1..] == a[1..]
    ensures Join(b) == prefix + Join(a)
  {
    if |a| >= 2 {
      JoinStep(a);
      JoinStep(b);
    }
  }

  lemma ShiftedHead(columns: seq<string>, k: nat)
    requires |columns| >= 2 && k < |columns[0]| && columns[0][k] == ','
    ensures Join(Shifted(columns, 0, k)) == Join(columns)
  {
    hide Join;
    var b, name := Shifted(columns, 0, k), columns[0];
    var before, after := name[..k], name[k + 1..];
    assert name == before + "," + after;
    JoinStep(columns);
    JoinStep(b);
    JoinPrefixed(columns[1..], b[1..], after + ",");
    assert before + "," + (after + "," + Join(columns[1..])) == name + "," + Join(columns[1..]);
  }

  lemma {:induction false} ShiftedJoins(columns: seq<string>, i: nat, k: nat)
    requires |columns| >= 2 && i < |columns| && k < |columns[i]| && columns[i][k] == ','
    ensures Join(Shifted(columns, i, k)) == Join(columns)
    decreases |columns|
  {
    var b := Shifted(columns, i, k);
    var name := columns[i];
    assert name == name[..k] + "," + name[k + 1..];
    JoinStep(columns);
    JoinStep(b);
    if i == 0 {
      ShiftedHead(columns, k);
    } else if |columns| == 2 {
      assert columns[1..] == [name] && b[1..] == [name[k + 1..]];
      assert Join(columns[1..]) == name && Join(b[1..]) == name[k + 1..];
      assert columns[0] + "," + name == columns[0] + "," + name[..k] + "," + name[k + 1..];
    } else {
      ShiftedTail(columns, i, k);
    }
  }

  lemma ShiftedTail(columns: seq<string>, i: nat, k: nat)
    requires |columns| >= 3 && 1 <= i < |columns| && k < |columns[i]| && columns[i][k] == ','
    ensures Join(Shifted(columns, i, k)) == Join(columns)
    decreases |columns|, 0
  {
    hide Join;
    var b := Shifted(columns, i, k);
    JoinStep(columns);
    JoinStep(b);
    assert b[1..] == Shifted(columns[1..], i - 1, k);
    ShiftedJoins(columns[1..], i - 1, k);
  }

  /** For a list of at least two columns, a different list of as many columns that the
      comparison takes for it exists exactly when some name holds a comma. */
  lemma CommaHidesDifference(a: seq<string>)
    requires |a| >= 2
    ensures SomeComma(a) <==> exists b :: |b| == |a| && Hidden(a, b)
  {
    if SomeComma(a) {
      var i :| 0 <= i < |a| && ',' in a[i];
      var k :| 0 <= k < |a[i]| && a[i][k] == ',';
      ShiftedJoins(a, i, k);
      var b := Shifted(a, i, k);
      assert |b[i]| < |a[i]|;
      assert |b| == |a| && Hidden(a, b);
    } else if b :| |b| == |a| && Hidden(a, b) {
      CommasJoined(a);
      CommasJoined(b);
      CommaFreeSeparates(a, b);
    }
  }

  // ----- lists of any length

  lemma ListsHoldCommas(b: seq<string>)
    requires |b| >= 2
    ensures ',' in Join(b)
  {
    assert Join(b)[|b[0]|] == ',';
  }

  lemma PlainIsAlone(name: string, b: seq<string>)
    requires Plain(name) && Join(b) == name
    ensures b == [name]
  {
    if |b| >= 2 {
      ListsHoldCommas(b);
    } else if |b| == 1 {
      assert b == [b[0]];
    }
  }

  /** Among lists of any length only a single ordinary name is never taken for another list. */
  lemma OneNameIsSafe(a: seq<string>)
    ensures (exists b :: Hidden(a, b)) <==> !(|a| == 1 && Plain(a[0]))
  {
    if |a| >= 2 {
      assert Hidden(a, [Join(a)]);
    } else if a == [] {
      assert Hidden(a, [""]);
    } else if a[0] == "" {
      assert Hidden(a, []);
    } else if ',' in a[0] {
      var k :| 0 <= k < |a[0]| && a[0][k] == ',';
      var b := [a[0][..k], a[0][k + 1..]];
      JoinStep(b);
      assert b[1..] == [a[0][k + 1..]];
      assert a[0] == a[0][..k] + "," + a[0][k + 1..];
      assert Hidden(a, b);
    } else if b :| Hidden(a, b) {
      PlainIsAlone(a[0], b);
    }
  }

  ghost predicate AllPlain(columns: seq<string>) {
    forall i :: 0 <= i < |columns| ==> Plain(columns[i])
  }

  lemma JoinTells(a: seq<string>)
    requires AllPlain(a)
    ensures Join(a) == "" <==> a == []
  {
  }

  /** Between lists of ordinary names, whatever their lengths, every difference is reported. */
  lemma JoinSeparates(a: seq<string>, b: seq<string>)
    requires AllPlain(a) && AllPlain(b)
    ensures !Hidden(a, b)
  {
    if Join(a) == Join(b) {
      if |a| == 0 || |b| == 0 {
        JoinTells(a);
        JoinTells(b);
      } else {
        CommasJoined(a);
        CommasJoined(b);
        CommaFreeSeparates(a, b);
      }
    }
  }
}
