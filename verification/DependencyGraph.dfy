/** Dependency graphs of execution plans: chains, cycles, topological orders, and
    the three-colour depth-first search that tells acyclic graphs from cyclic ones. */
module DependencyGraph {
  type StepId = string

  /** Each node with the nodes it depends on. */
  type Graph = map<StepId, set<StepId>>

  predicate Closed(g: Graph) {
    forall n :: n in g ==> g[n] <= g.Keys
  }

  /** A list of nodes in which each node is a dependency of the one before it. */
  predicate IsChain(g: Graph, p: seq<StepId>) {
    && (forall i :: 0 <= i < |p| ==> p[i] in g)
    && (forall i :: 0 < i < |p| ==> p[i] in g[p[i-1]])
  }

  /** b is a direct or transitive dependency of a. */
  ghost predicate Reaches(g: Graph, a: StepId, b: StepId) {
    exists p: seq<StepId> :: |p| >= 2 && IsChain(g, p) && p[0] == a && p[|p|-1] == b
  }

  ghost predicate Acyclic(g: Graph) {
    forall n :: n in g ==> !Reaches(g, n, n)
  }

  /** Every node comes after its dependencies, and no node comes twice. */
  ghost predicate Topological(g: Graph, order: seq<StepId>) {
    forall i :: 0 <= i < |order| ==>
      && order[i] in g
      && order[i] !in order[..i]
      && forall d :: d in g[order[i]] ==> d in order[..i]
  }

  lemma DirectDependencyReached(g: Graph, a: StepId, b: StepId)
    requires a in g && b in g && b in g[a]
    ensures Reaches(g, a, b)
  {
    assert IsChain(g, [a, b]);
  }

  lemma ReachesThenDependency(g: Graph, a: StepId, b: StepId, c: StepId)
    requires Reaches(g, a, b) && b in g && c in g && c in g[b]
    ensures Reaches(g, a, c)
  {
    var p :| |p| >= 2 && IsChain(g, p) && p[0] == a && p[|p|-1] == b;
    assert IsChain(g, p + [c]);
  }

  lemma {:induction false} ChainDescends(g: Graph, order: seq<StepId>, p: seq<StepId>, i: nat)
    requires Topological(g, order) && IsChain(g, p) && |p| >= 2
    requires i < |order| && p[0] == order[i]
    ensures p[|p|-1] in order[..i]
  {
    assert p[1] in g[order[i]];
    var j :| 0 <= j < i && order[j] == p[1];
    if |p| > 2 {
      ChainDescends(g, order, p[1..], j);
    }
  }

  lemma TopologicalExtends(g: Graph, order: seq<StepId>, n: StepId)
    requires Topological(g, order) && n in g && n !in order
    requires forall d :: d in g[n] ==> d in order
    ensures Topological(g, order + [n])
  {
    var longer := order + [n];
    forall i | 0 <= i < |longer|
      ensures longer[i] in g && longer[i] !in longer[..i] && forall d :: d in g[longer[i]] ==> d in longer[..i]
    {
      assert longer[..i] == order[..i];
    }
  }

  /** A topological order of all nodes rules out cycles. */
  lemma TopologicalIsAcyclic(g: Graph, order: seq<StepId>)
    requires Topological(g, order) && forall n :: n in g ==> n in order
    ensures Acyclic(g)
  {
    forall n | n in g ensures !Reaches(g, n, n) {
      OrderedReachesNotItself(g, order, n);
    }
  }

  /** The node is on a cycle, or depends on one that is. */
  ghost predicate ReachesCycle(g: Graph, n: StepId) {
    exists c :: c in g && (c == n || Reaches(g, n, c)) && Reaches(g, c, c)
  }

  lemma DependencyReachesCycle(g: Graph, n: StepId, d: StepId)
    requires n in g && d in g && d in g[n] && ReachesCycle(g, d)
    ensures ReachesCycle(g, n)
  {
    var c :| c in g && (c == d || Reaches(g, d, c)) && Reaches(g, c, c);
    if c == d {
      DirectDependencyReached(g, n, d);
    } else {
      var p :| |p| >= 2 && IsChain(g, p) && p[0] == d && p[|p|-1] == c;
      assert IsChain(g, [n] + p);
      assert Reaches(g, n, c);
    }
  }

  /** Nothing in a topological order reaches a cycle. */
  lemma OrderedReachesNoCycle(g: Graph, order: seq<StepId>, n: StepId)
    requires Topological(g, order) && n in order
    ensures !ReachesCycle(g, n)
  {
    var i :| 0 <= i < |order| && order[i] == n;
    forall c | c in g && (c == n || Reaches(g, n, c)) ensures !Reaches(g, c, c) {
      if c != n {
        var p :| |p| >= 2 && IsChain(g, p) && p[0] == n && p[|p|-1] == c;
        ChainDescends(g, order, p, i);
      }
      OrderedReachesNotItself(g, order, c);
    }
  }

  lemma OrderedReachesNotItself(g: Graph, order: seq<StepId>, c: StepId)
    requires Topological(g, order) && c in order
    ensures !Reaches(g, c, c)
  {
    var i :| 0 <= i < |order| && order[i] == c;
    forall p | |p| >= 2 && IsChain(g, p) && p[0] == c ensures p[|p|-1] != c {
      ChainDescends(g, order, p, i);
    }
  }

  /** The search state: nodes on the current path, finished nodes, and (for the proof)
      the finished nodes in the order they were finished. */
  class DependencyCheck {
    const graph: Graph
    var visiting: set<StepId>
    var visited: set<StepId>
    ghost var order: seq<StepId>

    ghost predicate Valid()
      reads this
    {
      && Closed(graph)
      && visiting <= graph.Keys && visited <= graph.Keys && visiting !! visited
      && Topological(graph, order)
      && (forall n :: n in visited <==> n in order)
    }

    constructor (g: Graph)
      requires Closed(g)
      ensures Valid() && graph == g && visiting == {} && visited == {}
    {
      graph := g;
      visiting, visited, order := {}, {}, [];
    }

    /** Finishes `node` and all it depends on, or finds a cycle. `path` is the current
        path of the search, which is what `visiting` holds. */
    method Visit(node: StepId, ghost path: seq<StepId>) returns (ok: bool)
      requires Valid() && node in graph
      requires IsChain(graph, path + [node]) && visiting == set n | n in path
      modifies this
      decreases graph.Keys - visiting
      ensures ok ==> Valid() && visiting == old(visiting) && old(visited) + {node} <= visited
      ensures ok <==> !ReachesCycle(graph, node)
    {
      if node in visiting {
        ghost var k :| 0 <= k < |path| && path[k] == node;
        ghost var cycle := (path + [node])[k..];
        assert IsChain(graph, cycle) && cycle[0] == node && cycle[|cycle|-1] == node;
        assert Reaches(graph, node, node);
        return false;
      }
      if node in visited {
        OrderedReachesNoCycle(graph, order, node);
        return true;
      }
      visiting := visiting + {node};
      var todo := graph[node];
      while todo != {}
        invariant Valid() && visiting == old(visiting) + {node} && old(visited) <= visited
        invariant todo <= graph[node] && graph[node] - todo <= visited
        decreases todo
      {
        var dep :| dep in todo;
        assert IsChain(graph, path + [node] + [dep]);
        ok := Visit(dep, path + [node]);
        if !ok {
          DependencyReachesCycle(graph, node, dep);
          return;
        }
        todo := todo - {dep};
      }
      visiting := visiting - {node};
      visited := visited + {node};
      TopologicalExtends(graph, order, node);
      order := order + [node];
      OrderedReachesNoCycle(graph, order, node);
      return true;
    }

    /** Visits the nodes in the given order; accepts exactly the acyclic graphs. */
    method VisitAll(nodes: seq<StepId>) returns (ok: bool)
      requires Valid() && visiting == {} && visited == {}
      requires forall n :: n in graph <==> n in nodes
      modifies this
      ensures ok <==> Acyclic(graph)
      ensures ok ==> Topological(graph, order) && forall n :: n in graph ==> n in order
    {
      for i := 0 to |nodes|
        invariant Valid() && visiting == {}
        invariant forall k :: 0 <= k < i ==> nodes[k] in visited
      {
        assert IsChain(graph, [] + [nodes[i]]);
        ok := Visit(nodes[i], []);
        if !ok { return; }
      }
      TopologicalIsAcyclic(graph, order);
      return true;
    }
  }

  // ----- Rounds: what is finished after k rounds, and how that bounds chains -----

  /** The nodes finished after k rounds, when a round finishes every node whose
      dependencies earlier rounds have finished. */
  ghost function Done(g: Graph, k: nat): set<StepId> {
    if k == 0 then {} else set n | n in g && g[n] <= Done(g, k - 1)
  }

  lemma {:induction false} DoneGrows(g: Graph, k: nat)
    ensures Done(g, k) <= Done(g, k + 1)
  {
    if k > 0 { DoneGrows(g, k - 1); }
  }

  /** While nodes are left, the next round finishes one of them. */
  lemma {:induction false} RoundMakesProgress(g: Graph, order: seq<StepId>, k: nat, i: nat)
    requires Topological(g, order) && (forall n :: n in g ==> n in order)
    requires i <= |order| && forall j :: 0 <= j < i ==> order[j] in Done(g, k)
    requires exists n :: n in g && n !in Done(g, k)
    ensures exists n :: n in Done(g, k + 1) && n !in Done(g, k)
    decreases |order| - i
  {
    if i < |order| {
      assert g[order[i]] <= Done(g, k);
      if order[i] in Done(g, k) { RoundMakesProgress(g, order, k, i + 1); }
    }
  }

  lemma {:induction false} UnfinishedHasLongChain(g: Graph, k: nat, n: StepId) returns (p: seq<StepId>)
    requires Closed(g) && n in g && n !in Done(g, k)
    ensures IsChain(g, p) && |p| == k + 1 && p[0] == n
  {
    if k == 0 {
      p := [n];
    } else {
      var d :| d in g[n] && d !in Done(g, k - 1);
      var rest := UnfinishedHasLongChain(g, k - 1, d);
      p := [n] + rest;
    }
  }

  lemma {:induction false} FinishedHasShortChains(g: Graph, k: nat, p: seq<StepId>)
    requires IsChain(g, p) && p != [] && p[0] in Done(g, k)
    ensures |p| <= k
  {
    if |p| > 1 {
      assert p[1] in g[p[0]];
      FinishedHasShortChains(g, k - 1, p[1..]);
    }
  }
}
