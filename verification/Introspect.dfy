/** Schema introspection: the table order and the schema comparison
    (apps/datatool/src/introspect.ts). */
module Introspect {
  import opened Common
  import opened ReferenceGraph

  datatype TableInfo = TableInfo(
    name: string,
    columns: seq<string>,
    pkColumns: seq<string>,
    references: seq<string>,
    selfRefColumns: seq<string>)

  // A JavaScript `Map` from name to info, as the list of its values in insertion order.
  ghost predicate IsTableMap(tables: seq<TableInfo>) {
    forall i, j :: 0 <= i < j < |tables| ==> tables[i].name != tables[j].name
  }

  function Names(tables: seq<TableInfo>): (r: seq<string>)
    ensures |r| == |tables| && forall i :: 0 <= i < |r| ==> r[i] == tables[i].name
  {
    seq(|tables|, i requires 0 <= i < |tables| => tables[i].name)
  }

  // The references `topoSort` counts: not the table itself, and present in the map.
  function KnownParents(all: set<string>, self: string, references: seq<string>): seq<string> {
    if references == [] then []
    else
      var last := references[|references| - 1];
      KnownParents(all, self, references[..|references| - 1])
      + if last == self || last !in all then [] else [last]
  }

  lemma {:induction false} KnownParentsMember(all: set<string>, self: string, references: seq<string>, p: string)
    ensures p in KnownParents(all, self, references) <==> p in references && p != self && p in all
  {
    if references != [] {
      KnownParentsMember(all, self, references[..|references| - 1], p);
      assert references == references[..|references| - 1] + [references[|references| - 1]];
    }
  }

  function ParentsIn(all: set<string>, tables: seq<TableInfo>): Graph {
    if tables == [] then map[]
    else
      var last := tables[|tables| - 1];
      ParentsIn(all, tables[..|tables| - 1])[last.name := KnownParents(all, last.name, last.references)]
  }

  lemma {:induction false} ParentsInKeys(all: set<string>, tables: seq<TableInfo>, n: string)
    ensures n in ParentsIn(all, tables) <==> exists i :: 0 <= i < |tables| && tables[i].name == n
  {
    if tables != [] { ParentsInKeys(all, tables[..|tables| - 1], n); }
  }

  /** The foreign-key graph `topoSort` walks. */
  function ParentGraph(tables: seq<TableInfo>): Graph {
    ParentsIn(Elems(Names(tables)), tables)
  }

  lemma {:induction false} ParentsInAt(all: set<string>, tables: seq<TableInfo>, i: nat)
    requires IsTableMap(tables) && i < |tables|
    ensures tables[i].name in ParentsIn(all, tables)
    ensures ParentsIn(all, tables)[tables[i].name] == KnownParents(all, tables[i].name, tables[i].references)
  {
    if i < |tables| - 1 {
      ParentsInAt(all, tables[..|tables| - 1], i);
    }
  }

  /** What the graph's edges mean: `p` is a parent of a table exactly when that table
      references the other, existing table `p`. */
  lemma ParentGraphEdge(tables: seq<TableInfo>, i: nat, p: string)
    requires IsTableMap(tables) && i < |tables|
    ensures tables[i].name in ParentGraph(tables)
    ensures p in ParentGraph(tables)[tables[i].name] <==>
      p in tables[i].references && p != tables[i].name && p in Names(tables)
  {
    var all := Elems(Names(tables));
    ParentsInAt(all, tables, i);
    KnownParentsMember(all, tables[i].name, tables[i].references, p);
    assert p in all <==> p in Names(tables);
  }

  lemma ParentGraphKeys(tables: seq<TableInfo>)
    requires IsTableMap(tables)
    ensures ParentGraph(tables).Keys == Elems(Names(tables)) && Closed(ParentGraph(tables))
  {
    var all := Elems(Names(tables));
    var g := ParentGraph(tables);
    forall n ensures n in g <==> n in all {
      ParentsInKeys(all, tables, n);
      if n in g {
        var i :| 0 <= i < |tables| && tables[i].name == n;
        assert Names(tables)[i] == n;
      }
    }
    forall c, p | c in g && p in g[c] ensures p in g {
      ParentsInKeys(all, tables, c);
      var i :| 0 <= i < |tables| && tables[i].name == c;
      ParentGraphEdge(tables, i, p);
    }
  }

  // How many entries of `parents` are still outside `done`: the in-degree during the run.
  function Waiting(parents: seq<string>, done: set<string>): nat {
    if parents == [] then 0
    else Waiting(parents[..|parents| - 1], done) + if parents[|parents| - 1] in done then 0 else 1
  }

  lemma {:induction false} WaitingStep(parents: seq<string>, done: set<string>, n: string)
    requires n !in done
    ensures Waiting(parents, done + {n}) == Waiting(parents, done) - Count(parents, n)
  {
    if parents != [] { WaitingStep(parents[..|parents| - 1], done, n); }
  }

  lemma {:induction false} WaitingNone(parents: seq<string>, done: set<string>)
    ensures Waiting(parents, done) == 0 <==> forall p :: p in parents ==> p in done
  {
    if parents != [] {
      WaitingNone(parents[..|parents| - 1], done);
      assert parents == parents[..|parents| - 1] + [parents[|parents| - 1]];
    }
  }

  lemma {:induction false} WaitingAll(parents: seq<string>)
    ensures Waiting(parents, {}) == |parents|
  {
    if parents != [] { WaitingAll(parents[..|parents| - 1]); }
  }

  // `children` lists `c` under `n` once per reference of `c` to `n`.
  ghost predicate ListsEdge(g: Graph, children: map<string, seq<string>>, n: string, c: string)
    requires n in children
  {
    Count(children[n], c) == if c in g then Count(g[c], n) else 0
  }

  // The two maps agree with the graph.
  ghost predicate Mirrors(g: Graph, all: set<string>, indegree: map<string, int>, children: map<string, seq<string>>) {
    && indegree.Keys == all && children.Keys == all
    && (forall c :: c in all ==> indegree[c] == if c in g then |g[c]| else 0)
    && (forall n, c {:trigger ListsEdge(g, children, n, c)} :: n in all ==> ListsEdge(g, children, n, c))
  }

  // One reference from `self` to the known parent `parent`, on both maps.
  lemma EdgeCounted(g: Graph, all: set<string>, self: string, part: seq<string>, parent: string,
                    indegree: map<string, int>, children: map<string, seq<string>>)
    requires self in all && parent in all && Mirrors(g[self := part], all, indegree, children)
    ensures Mirrors(g[self := part + [parent]], all, indegree[self := indegree[self] + 1],
                    children[parent := children[parent] + [self]])
  {
    var g', children' := g[self := part + [parent]], children[parent := children[parent] + [self]];
    forall n, c | n in all ensures ListsEdge(g', children', n, c) {
      assert ListsEdge(g[self := part], children, n, c);
      CountSnoc(part, parent, n);
      CountSnoc(children[parent], self, c);
    }
  }

  lemma NoEdgesYet(g: Graph, all: set<string>, self: string, indegree: map<string, int>, children: map<string,
                   seq<string>>)
    requires Mirrors(g, all, indegree, children) && self !in g
    ensures Mirrors(g[self := []], all, indegree, children)
  {
    var g' := g[self := []];
    forall n, c | n in all ensures ListsEdge(g', children, n, c) {
      assert ListsEdge(g, children, n, c);
    }
  }

  // The inner loop of the counting pass: the references of one table.
  method CountReferences(ghost g: Graph, ghost all: set<string>, names: seq<string>, table: TableInfo,
                         indegree0: map<string, int>, children0: map<string, seq<string>>)
    returns (indegree: map<string, int>, children: map<string, seq<string>>)
    requires all == Elems(names) && table.name in all && table.name !in g
    requires Mirrors(g, all, indegree0, children0)
    ensures Mirrors(g[table.name := KnownParents(all, table.name, table.references)], all, indegree, children)
  {
    indegree, children := indegree0, children0;
    var refs := table.references;
    NoEdgesYet(g, all, table.name, indegree, children);
    for j := 0 to |refs|
      invariant Mirrors(g[table.name := KnownParents(all, table.name, refs[..j])], all, indegree, children)
    {
      var parent := refs[j];
      assert refs[..j + 1][..j] == refs[..j];
      assert KnownParents(all, table.name, refs[..j + 1])
          == KnownParents(all, table.name, refs[..j]) + if parent != table.name && parent in all then [parent] else [];
      if parent != table.name && parent in names {
        EdgeCounted(g, all, table.name, KnownParents(all, table.name, refs[..j]), parent, indegree, children);
        children := children[parent := children[parent] + [table.name]];
        indegree := indegree[table.name := indegree[table.name] + 1];
      } else {
        assert KnownParents(all, table.name, refs[..j]) + [] == KnownParents(all, table.name, refs[..j]);
      }
    }
    assert refs[..|refs|] == refs;
  }

  // `new Map(names.map((n) => [n, 0]))` and its twin for `children`.
  method EmptyCounts(names: seq<string>) returns (indegree: map<string, int>, children: map<string, seq<string>>)
    ensures Mirrors(map[], Elems(names), indegree, children)
  {
    indegree := map n | n in names :: 0;
    children := map n | n in names :: [];
  }

  lemma TableIsNew(all: set<string>, names: seq<string>, tables: seq<TableInfo>, i: nat)
    requires IsTableMap(tables) && i < |tables| && names == Names(tables) && all == Elems(names)
    ensures tables[i].name in all && tables[i].name !in ParentsIn(all, tables[..i])
    ensures ParentsIn(all, tables[..i + 1])
      == ParentsIn(all, tables[..i])[tables[i].name := KnownParents(all, tables[i].name, tables[i].references)]
  {
    assert names[i] == tables[i].name;
    ParentsInKeys(all, tables[..i], tables[i].name);
    assert tables[..i + 1][..i] == tables[..i];
  }

  method CountEdges(tables: seq<TableInfo>) returns (indegree: map<string, int>, children: map<string, seq<string>>)
    requires IsTableMap(tables)
    ensures Mirrors(ParentGraph(tables), Elems(Names(tables)), indegree, children)
  {
    var names := Names(tables);
    ghost var all := Elems(names);
    indegree, children := EmptyCounts(names);
    for i := 0 to |tables|
      invariant Mirrors(ParentsIn(all, tables[..i]), all, indegree, children)
    {
      ghost var g := ParentsIn(all, tables[..i]);
      TableIsNew(all, names, tables, i);
      indegree, children := CountReferences(g, all, names, tables[i], indegree, children);
    }
    assert tables[..|tables|] == tables;
  }

  // The state of the main loop: who was emitted or queued, and what the in-degrees count.
  ghost predicate KahnState(g: Graph, indegree: map<string, int>, children: map<string, seq<string>>,
                            queue: seq<string>, order: seq<string>) {
    && Distinct(order + queue)
    && indegree.Keys == g.Keys && children.Keys == g.Keys
    && (forall n, c :: n in g && c in children[n] ==> c in g)
    && (forall n :: n in order + queue ==> n in g)
    && (forall n :: n in g ==> (n in order + queue <==> indegree[n] == 0))
  }

  ghost predicate CountsWaiting(g: Graph, indegree: map<string, int>, order: seq<string>) {
    indegree.Keys == g.Keys && forall c :: c in g ==> indegree[c] == Waiting(g[c], Elems(order))
  }

  // Lowering one child's in-degree, queueing it when it reaches zero.
  lemma ChildReleased(g: Graph, indegree: map<string, int>, children: map<string, seq<string>>,
                      queue: seq<string>, order: seq<string>, child: string)
    requires KahnState(g, indegree, children, queue, order) && child in g && indegree[child] > 0
    ensures KahnState(g, indegree[child := indegree[child] - 1], children,
                      if indegree[child] == 1 then queue + [child] else queue, order)
  {
    assert child !in order + queue;
    if indegree[child] == 1 {
      assert order + (queue + [child]) == order + queue + [child];
    }
  }

  lemma AllReleased(g: Graph, n: string, before: seq<string>, indegree0: map<string, int>, indegree: map<string, int>,
                    kids: seq<string>)
    requires n in g && n !in before && CountsWaiting(g, indegree0, before) && indegree.Keys == g.Keys
    requires forall c :: c in g ==> Count(kids, c) == Count(g[c], n)
    requires forall c :: c in g ==> indegree[c] == indegree0[c] - Count(kids, c)
    ensures CountsWaiting(g, indegree, before + [n])
  {
    assert Elems(before + [n]) == Elems(before) + {n};
    forall c | c in g ensures indegree[c] == Waiting(g[c], Elems(before + [n])) {
      WaitingStep(g[c], Elems(before), n);
    }
  }

  lemma ReleasedAtMost(g: Graph, n: string, before: seq<string>, child: string, indegree0: map<string, int>,
                       kids: seq<string>, j: nat)
    requires n in g && n !in before && child in g && CountsWaiting(g, indegree0, before)
    requires Count(kids, child) == Count(g[child], n) && j < |kids| && kids[j] == child
    ensures indegree0[child] > Count(kids[..j], child)
  {
    CountPrefix(kids, j, child);
    WaitingStep(g[child], Elems(before), n);
  }

  // One `for (const child of children.get(n))` loop, after `n` was shifted and pushed.
  method ReleaseChildren(ghost g: Graph, n: string, indegree0: map<string, int>, children: map<string, seq<string>>,
                         queue0: seq<string>, ghost before: seq<string>)
    returns (indegree: map<string, int>, queue: seq<string>)
    requires n in g && n !in before
    requires KahnState(g, indegree0, children, queue0, before + [n])
    requires CountsWaiting(g, indegree0, before)
    requires forall c :: c in g ==> ListsEdge(g, children, n, c)
    ensures KahnState(g, indegree, children, queue, before + [n])
    ensures CountsWaiting(g, indegree, before + [n])
  {
    indegree, queue := indegree0, queue0;
    var kids := children[n];
    assert forall c :: c in g ==> ListsEdge(g, children, n, c) && Count(kids, c) == Count(g[c], n);
    for j := 0 to |kids|
      invariant KahnState(g, indegree, children, queue, before + [n])
      invariant forall c :: c in g ==> indegree[c] == indegree0[c] - Count(kids[..j], c)
    {
      var child := kids[j];
      ReleasedAtMost(g, n, before, child, indegree0, kids, j);
      var next := indegree[child] - 1;
      ChildReleased(g, indegree, children, queue, before + [n], child);
      assert kids[..j + 1] == kids[..j] + [child];
      indegree := indegree[child := next];
      if next == 0 {
        queue := queue + [child];
      }
    }
    assert kids[..|kids|] == kids;
    AllReleased(g, n, before, indegree0, indegree, kids);
  }

  lemma DistinctParts(order: seq<string>, queue: seq<string>)
    requires Distinct(order + queue) && queue != []
    ensures queue[0] !in order && Distinct(order + [queue[0]])
    ensures queue[0] in order + queue
  {
    var all := order + queue;
    assert all[|order|] == queue[0];
    assert order + [queue[0]] == all[..|order| + 1];
    assert forall i :: 0 <= i < |order| ==> all[i] == order[i];
  }

  lemma EmittedFit(g: Graph, order: seq<string>)
    requires Distinct(order) && forall n :: n in order ==> n in g
    ensures |order| <= |g|
  {
    DistinctCount(order);
    assert Elems(order) <= g.Keys;
    SubsetSize(Elems(order), g.Keys);
  }

  lemma NextEmitted(g: Graph, before: seq<string>, n: string)
    requires ParentsFirst(g, before) && n in g && forall p :: p in g[n] ==> p in before
    ensures ParentsFirst(g, before + [n])
  {
    var order := before + [n];
    forall i | 0 <= i < |order| ensures AfterItsParents(g, order, i) {
      if i < |before| {
        assert order[..i] == before[..i] && AfterItsParents(g, before, i);
      } else {
        assert order[..i] == before;
      }
    }
  }

  // What shifting the head of the queue and pushing it keeps.
  lemma HeadEmitted(g: Graph, indegree: map<string, int>, children: map<string, seq<string>>, queue: seq<string>,
                    order: seq<string>)
    requires KahnState(g, indegree, children, queue, order) && CountsWaiting(g, indegree, order)
    requires queue != [] && ParentsFirst(g, order)
    ensures queue[0] in g && queue[0] !in order
    ensures KahnState(g, indegree, children, queue[1..], order + [queue[0]])
    ensures ParentsFirst(g, order + [queue[0]]) && |order| < |g|
  {
    var n := queue[0];
    assert order + [n] + queue[1..] == order + queue;
    DistinctParts(order, queue);
    WaitingNone(g[n], Elems(order));
    NextEmitted(g, order, n);
    EmittedFit(g, order + [n]);
  }

  lemma ChildrenKnown(g: Graph, indegree: map<string, int>, children: map<string, seq<string>>)
    requires Mirrors(g, g.Keys, indegree, children)
    ensures forall n, c :: n in g && c in children[n] ==> c in g
  {
    forall n, c | n in g && c in children[n] ensures c in g {
      assert ListsEdge(g, children, n, c);
      CountMember(children[n], c);
      CountMember(if c in g then g[c] else [], n);
    }
  }

  // `names.filter((n) => indegree.get(n) === 0)`
  function FilterRoots(names: seq<string>, indegree: map<string, int>): (r: seq<string>)
    requires Distinct(names)
    ensures Distinct(r) && forall n :: n in r <==> n in names && n in indegree && indegree[n] == 0
  {
    if names == [] then []
    else
      assert names == [names[0]] + names[1..];
      var rest := FilterRoots(names[1..], indegree);
      if names[0] in indegree && indegree[names[0]] == 0 then [names[0]] + rest else rest
  }

  lemma KahnStarts(g: Graph, names: seq<string>, indegree: map<string, int>, children: map<string, seq<string>>)
    requires Mirrors(g, g.Keys, indegree, children) && Distinct(names) && Elems(names) == g.Keys
    ensures KahnState(g, indegree, children, FilterRoots(names, indegree), [])
    ensures CountsWaiting(g, indegree, [])
  {
    var queue := FilterRoots(names, indegree);
    assert [] + queue == queue;
    assert Elems<string>([]) == {};
    forall c | c in g ensures indegree[c] == Waiting(g[c], {}) { WaitingAll(g[c]); }
    ChildrenKnown(g, indegree, children);
    assert forall n :: n in names <==> n in Elems(names);
  }

  lemma LeftoversStuck(g: Graph, indegree: map<string, int>, children: map<string, seq<string>>, order: seq<string>)
    requires Closed(g) && KahnState(g, indegree, children, [], order) && CountsWaiting(g, indegree, order)
    ensures forall n :: n in g && n !in order ==> BelowCycle(g, n)
  {
    var stuck := set n | n in g && n !in order;
    forall n | n in stuck ensures KeepsParent(g, n, stuck) {
      assert n !in order + [];
      WaitingNone(g[n], Elems(order));
    }
    StuckAreBelowCycle(g, stuck);
  }

  // The main `while (queue.length)` loop.
  method Kahn(ghost g: Graph, names: seq<string>, indegree0: map<string, int>, children: map<string, seq<string>>)
    returns (order: seq<string>)
    requires Closed(g) && Mirrors(g, g.Keys, indegree0, children)
    requires Distinct(names) && Elems(names) == g.Keys
    ensures Distinct(order) && ParentsFirst(g, order) && Elems(order) <= g.Keys
    ensures forall n :: n in g && n !in order ==> BelowCycle(g, n)
  {
    var indegree, queue := indegree0, FilterRoots(names, indegree0);
    order := [];
    KahnStarts(g, names, indegree0, children);
    while queue != []
      invariant KahnState(g, indegree, children, queue, order)
      invariant CountsWaiting(g, indegree, order)
      invariant ParentsFirst(g, order)
      decreases |g| - |order|
    {
      var n := queue[0];
      HeadEmitted(g, indegree, children, queue, order);
      ghost var before := order;
      queue := queue[1..];
      order := order + [n];
      indegree, queue := ReleaseChildren(g, n, indegree, children, queue, before);
    }
    assert order + queue == order;
    LeftoversStuck(g, indegree, children, order);
  }

  lemma LeftoversLast(g: Graph, names: seq<string>, emitted: seq<string>, order: seq<string>)
    requires Elems(names) == g.Keys && emitted <= order && ParentsFirst(g, emitted)
    requires forall n :: n in emitted ==> n in g && !BelowCycle(g, n)
    requires forall n :: n in g && n !in emitted ==> BelowCycle(g, n)
    requires forall i :: |emitted| <= i < |order| ==> order[i] in names && order[i] !in emitted
    ensures forall i :: 0 <= i < |order| ==> (i < |emitted| <==> !BelowCycle(g, order[i]))
    ensures forall i :: 0 <= i < |order| && !BelowCycle(g, order[i]) ==> AfterItsParents(g, order, i)
  {
    forall i | 0 <= i < |order| ensures i < |emitted| <==> !BelowCycle(g, order[i]) {
      if i < |emitted| { assert order[i] == emitted[i]; } else { assert order[i] in Elems(names); }
    }
    forall i | 0 <= i < |order| && !BelowCycle(g, order[i]) ensures AfterItsParents(g, order, i) {
      assert order[..i] == emitted[..i] && order[i] == emitted[i] && AfterItsParents(g, emitted, i);
    }
  }

  lemma {:induction false} CountDistinct(s: seq<string>, n: string)
    requires Distinct(s)
    ensures multiset(s)[n] == if n in s then 1 else 0
  {
    if s != [] {
      assert s == [s[0]] + s[1..];
      CountDistinct(s[1..], n);
    }
  }

  lemma SameSetSameCount(a: seq<string>, b: seq<string>)
    requires Distinct(a) && Distinct(b) && forall n :: n in a <==> n in b
    ensures multiset(a) == multiset(b)
  {
    forall n ensures multiset(a)[n] == multiset(b)[n] {
      CountDistinct(a, n);
      CountDistinct(b, n);
    }
  }

  // `for (const n of names) if (!order.includes(n)) order.push(n);`
  method AppendLeftovers(ghost g: Graph, names: seq<string>, emitted: seq<string>) returns (order: seq<string>)
    requires Ascending(names) && Distinct(emitted) && ParentsFirst(g, emitted)
    requires Elems(names) == g.Keys
    requires forall n :: n in emitted ==> n in g && !BelowCycle(g, n)
    requires forall n :: n in g && n !in emitted ==> BelowCycle(g, n)
    ensures multiset(order) == multiset(names)
    ensures forall i, j :: 0 <= i < j < |order| && BelowCycle(g, order[i]) ==>
      BelowCycle(g, order[j]) && Before(order[i], order[j])
    ensures forall i :: 0 <= i < |order| && !BelowCycle(g, order[i]) ==>
      AfterItsParents(g, order, i)
  {
    order := emitted;
    for k := 0 to |names|
      invariant emitted <= order && Distinct(order)
      invariant forall n :: n in order <==> n in emitted || n in names[..k]
      invariant forall i :: |emitted| <= i < |order| ==> order[i] in names[..k] && order[i] !in emitted
      invariant forall i, j :: |emitted| <= i < j < |order| ==> Before(order[i], order[j])
    {
      assert names[..k + 1] == names[..k] + [names[k]];
      if names[k] !in order {
        order := order + [names[k]];
      }
    }
    assert names[..|names|] == names;
    AscendingDistinct(names);
    SameSetSameCount(order, names);
    LeftoversLast(g, names, emitted, order);
  }

  /** `topoSort`: Kahn's algorithm over the parent edges, leftovers appended in name order. */
  method TopoSort(tables: seq<TableInfo>) returns (order: seq<string>)
    requires IsTableMap(tables)
    ensures multiset(order) == multiset(Names(tables))
    ensures forall i, j :: 0 <= i < j < |order| && BelowCycle(ParentGraph(tables), order[i]) ==>
      BelowCycle(ParentGraph(tables), order[j]) && Before(order[i], order[j])
    ensures forall i :: 0 <= i < |order| && !BelowCycle(ParentGraph(tables), order[i]) ==>
      AfterItsParents(ParentGraph(tables), order, i)
  {
    ghost var g := ParentGraph(tables);
    ParentGraphKeys(tables);
    var names := SortedNames(Names(tables));
    SameElements(names, Names(tables));
    AscendingDistinct(names);
    var indegree, children := CountEdges(tables);
    order := Kahn(g, names, indegree, children);
    assert forall n :: n in order ==> n in Elems(order);
    EmittedStandClear(g, order);
    order := AppendLeftovers(g, names, order);
  }

  /** Cross-table references without a cycle: nothing is left over and every parent
      stands before every child. */
  lemma AcyclicOrder(tables: seq<TableInfo>, order: seq<string>)
    requires IsTableMap(tables) && Acyclic(ParentGraph(tables))
    requires forall i :: 0 <= i < |order| && !BelowCycle(ParentGraph(tables), order[i]) ==>
      AfterItsParents(ParentGraph(tables), order, i)
    ensures ParentsFirst(ParentGraph(tables), order)
  {
  }
}
