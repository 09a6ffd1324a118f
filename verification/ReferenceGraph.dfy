/** The foreign-key graph as a map from each table to its known parents (with
    multiplicity), and what it means for a table to hang below a reference cycle. */
module ReferenceGraph {
  import opened Common

  type Graph = map<string, seq<string>>

  ghost predicate Closed(g: Graph) {
    forall c, p :: c in g && p in g[c] ==> p in g
  }

  ghost predicate IsPath(g: Graph, path: seq<string>) {
    && path != []
    && (forall i :: 0 <= i < |path| ==> path[i] in g)
    && forall i :: 0 <= i < |path| - 1 ==> path[i] in g[path[i + 1]]
  }

  // A path runs from an ancestor down to a descendant.
  ghost predicate Connects(g: Graph, path: seq<string>, top: string, bottom: string) {
    IsPath(g, path) && path[0] == top && path[|path| - 1] == bottom
  }

  ghost predicate OnCycle(g: Graph, n: string) {
    exists path :: |path| > 1 && Connects(g, path, n, n)
  }

  /** Some ancestor of `n`, or `n` itself, sits on a reference cycle. */
  ghost predicate BelowCycle(g: Graph, n: string) {
    exists path :: IsPath(g, path) && path[|path| - 1] == n && OnCycle(g, path[0])
  }

  ghost predicate Acyclic(g: Graph) {
    forall n :: !OnCycle(g, n)
  }

  ghost predicate AfterItsParents(g: Graph, order: seq<string>, i: nat)
    requires i < |order|
  {
    order[i] in g && forall p :: p in g[order[i]] ==> p in order[..i]
  }

  // Every table stands after all its known parents.
  ghost predicate ParentsFirst(g: Graph, order: seq<string>) {
    forall i :: 0 <= i < |order| ==> AfterItsParents(g, order, i)
  }

  lemma {:induction false} PathClimbsBack(g: Graph, order: seq<string>, path: seq<string>, at: nat)
    requires Distinct(order) && ParentsFirst(g, order) && IsPath(g, path)
    requires at < |order| && path[|path| - 1] == order[at]
    ensures exists k :: 0 <= k <= at && order[k] == path[0] && (|path| > 1 ==> k < at)
    decreases |path|
  {
    if |path| == 1 {
      assert order[at] == path[0];
    } else {
      var p := path[|path| - 2];
      assert path[|path| - 2 + 1] == order[at] && AfterItsParents(g, order, at);
      assert p in order[..at];
      var j :| 0 <= j < at && order[j] == p;
      var shorter := path[..|path| - 1];
      assert forall i :: 0 <= i < |shorter| - 1 ==> shorter[i] in g[shorter[i + 1]];
      PathClimbsBack(g, order, shorter, j);
    }
  }

  /** Whatever is emitted parents-first has no cycle above it. */
  lemma EmittedStandClear(g: Graph, order: seq<string>)
    requires Distinct(order) && ParentsFirst(g, order)
    ensures forall n :: n in order ==> !BelowCycle(g, n)
  {
    forall n | n in order ensures !BelowCycle(g, n) {
      if BelowCycle(g, n) {
        var path :| IsPath(g, path) && path[|path| - 1] == n && OnCycle(g, path[0]);
        var at :| 0 <= at < |order| && order[at] == n;
        PathClimbsBack(g, order, path, at);
        var top :| 0 <= top < |order| && order[top] == path[0];
        var loop :| |loop| > 1 && Connects(g, loop, path[0], path[0]);
        PathClimbsBack(g, order, loop, top);
        assert false;
      }
    }
  }

  ghost predicate KeepsParent(g: Graph, n: string, stuck: set<string>) {
    n in g && exists p :: p in g[n] && p in stuck
  }

  ghost predicate EachKeepsParent(g: Graph, stuck: set<string>) {
    forall n {:trigger KeepsParent(g, n, stuck)} :: n in stuck ==> KeepsParent(g, n, stuck)
  }

  lemma PathGrows(g: Graph, p: string, path: seq<string>)
    requires IsPath(g, path) && p in g && p in g[path[0]]
    ensures IsPath(g, [p] + path)
  {
  }

  lemma LoopFound(g: Graph, p: string, path: seq<string>)
    requires IsPath(g, path) && p in path && p in g[path[0]]
    ensures BelowCycle(g, path[|path| - 1])
  {
    PathGrows(g, p, path);
    var longer := [p] + path;
    var j :| 0 <= j < |path| && path[j] == p;
    var loop := longer[..j + 2];
    forall i | 0 <= i < |loop| - 1 ensures loop[i] in g[loop[i + 1]] { assert longer[i] in g[longer[i + 1]]; }
    assert Connects(g, loop, p, p);
    assert OnCycle(g, longer[0]);
    assert longer[|longer| - 1] == path[|path| - 1];
  }

  // Climbing from `path[0]` inside a set in which everybody keeps a parent must revisit a table.
  lemma {:induction false} ClimbToCycle(g: Graph, stuck: set<string>, path: seq<string>, climbed: set<string>)
    requires EachKeepsParent(g, stuck)
    requires IsPath(g, path) && climbed == Elems(path) && climbed <= stuck
    ensures BelowCycle(g, path[|path| - 1])
    decreases |stuck - climbed|
  {
    assert path[0] in climbed && KeepsParent(g, path[0], stuck);
    var p :| p in g[path[0]] && p in stuck;
    assert KeepsParent(g, p, stuck);
    PathGrows(g, p, path);
    var longer := [p] + path;
    if p in path {
      LoopFound(g, p, path);
    } else {
      assert Elems(longer) == climbed + {p};
      assert stuck - Elems(longer) == (stuck - climbed) - {p};
      ClimbToCycle(g, stuck, longer, Elems(longer));
      assert longer[|longer| - 1] == path[|path| - 1];
    }
  }

  /** Tables that each keep a parent among themselves all hang below a cycle. */
  lemma StuckAreBelowCycle(g: Graph, stuck: set<string>)
    requires EachKeepsParent(g, stuck)
    ensures forall n :: n in stuck ==> BelowCycle(g, n)
  {
    forall n | n in stuck ensures BelowCycle(g, n) {
      assert KeepsParent(g, n, stuck) && Elems([n]) == {n};
      assert IsPath(g, [n]);
      ClimbToCycle(g, stuck, [n], {n});
    }
  }
}
