/** The dependency check of the roadmap: building the graph and searching it for a cycle. */
module Roadmap {
  import opened Wrappers

  type Issue = int

  type Graph = map<Issue, seq<Issue>>

  datatype Failure =
    | SelfDependency(issue: Issue)
    | MissingDependency(issue: Issue, dependency: Issue)
    | CycleAt(issue: Issue)

  predicate Edge(g: Graph, a: Issue, b: Issue) {
    a in g && b in g[a]
  }

  /** Every dependency is an issue of the graph. */
  predicate Closed(g: Graph) {
    forall a :: a in g ==> forall b :: b in g[a] ==> b in g
  }

  predicate Walkable(g: Graph, p: seq<Issue>) {
    forall i :: 0 < i < |p| ==> Edge(g, p[i - 1], p[i])
  }

  /** A non-empty path that ends where it starts. */
  predicate IsCycle(g: Graph, p: seq<Issue>) {
    |p| > 1 && p[0] == p[|p| - 1] && Walkable(g, p)
  }

  ghost predicate Acyclic(g: Graph) {
    forall p :: !IsCycle(g, p)
  }

  /** `order` lists distinct issues, each after all of its dependencies. */
  predicate Topological(g: Graph, order: seq<Issue>) {
    forall i :: 0 <= i < |order| ==>
      order[i] in g && order[i] !in order[..i] && forall b :: b in g[order[i]] ==> b in order[..i]
  }

  /** The checks made while the graph is filled, up to the first that fails. */
  method BuildGraph(issues: seq<Issue>, dependencies: map<Issue, seq<Issue>>) returns (r: Result<Graph, Failure>)
    requires forall n :: n in issues <==> n in dependencies
    ensures r.Ok? <==> Closed(dependencies) && forall n :: n in dependencies ==> !Edge(dependencies, n, n)
    ensures r.Ok? ==> r.value == dependencies
    ensures r.Err? ==> match r.error
                       case SelfDependency(n) => Edge(dependencies, n, n)
                       case MissingDependency(n, d) => Edge(dependencies, n, d) && d !in dependencies
                       case CycleAt(n) => false
  {
    var graph: Graph := map[];
    for i := 0 to |issues|
      invariant forall n :: n in graph <==> n in issues[..i]
      invariant forall n :: n in graph ==> n in dependencies && graph[n] == dependencies[n]
      invariant forall n :: n in graph ==> n !in graph[n] && forall d :: d in graph[n] ==> d in dependencies
    {
      var number := issues[i];
      var deps := dependencies[number];
      graph := graph[number := deps];
      if number in deps {
        return Err(SelfDependency(number));
      }
      for j := 0 to |deps|
        invariant forall d :: d in deps[..j] ==> d in dependencies
      {
        if deps[j] !in dependencies {
          return Err(MissingDependency(number, deps[j]));
        }
      }
      assert deps[..|deps|] == deps;
    }
    assert issues[..|issues|] == issues;
    forall n ensures n in graph <==> n in dependencies {
      assert n in issues <==> n in dependencies;
    }
    assert graph.Keys == dependencies.Keys;
    assert forall n :: n in graph.Keys ==> graph[n] == dependencies[n];
    assert graph == dependencies;
    r := Ok(graph);
  }

  class CycleCheck {
    const graph: Graph
    var visiting: set<Issue>
    var visited: set<Issue>
    ghost var order: seq<Issue>  // the order of entry into `visited`

    constructor (graph: Graph)
      ensures this.graph == graph && visiting == {} && visited == {} && order == []
    {
      this.graph := graph;
      visiting := {};
      visited := {};
      order := [];
    }

    ghost predicate Valid()
      reads this
    {
      && Closed(graph)
      && visiting <= graph.Keys && visiting !! visited
      && (forall n :: n in visited <==> n in order)
      && Topological(graph, order)
    }

    /**
     One call of the walk. `stack` is the path of the calls in progress; a failure comes with a
     cycle through the issue it names.
     */
    method Walk(node: Issue, ghost stack: seq<Issue>) returns (r: Option<Failure>, ghost cycle: seq<Issue>)
      requires Valid() && node in graph
      requires Walkable(graph, stack + [node]) && forall n :: n in visiting <==> n in stack
      modifies this`visiting, this`visited, this`order
      ensures r.None? ==>
        Valid() && visiting == old(visiting) && old(visited) <= visited && node in visited && old(order) <= order
      ensures r.Some? ==> r.value.CycleAt? && IsCycle(graph, cycle) && cycle[0] == r.value.issue
      decreases graph.Keys - visiting - visited
    {
      cycle := [];
      if node in visited {
        return None, [];
      }
      if node in visiting {
        ghost var k :| 0 <= k < |stack| && stack[k] == node;
        cycle := stack[k..] + [node];
        assert cycle == (stack + [node])[k..];
        return Some(CycleAt(node)), cycle;
      }
      visiting := visiting + {node};
      ghost var entered := visiting;
      ghost var deeper := stack + [node];
      for i := 0 to |graph[node]|
        invariant Valid() && visiting == entered && node !in visited
        invariant old(visited) <= visited && old(order) <= order
        invariant forall d :: d in graph[node][..i] ==> d in visited
      {
        var dep := graph[node][i];
        assert Edge(graph, node, dep);
        assert Walkable(graph, deeper + [dep]);
        assert node in graph.Keys - old(visiting) - old(visited) && node !in graph.Keys - visiting - visited;
        r, cycle := Walk(dep, deeper);
        if r.Some? {
          return;
        }
      }
      assert graph[node][..|graph[node]|] == graph[node];
      visiting := visiting - {node};
      visited := visited + {node};
      ghost var before := order;
      order := order + [node];
      assert forall i :: 0 <= i < |before| ==> order[..i] == before[..i];
      assert order[..|before|] == before;
      return None, [];
    }

    /** The loop over all issues. */
    method CheckAll(numbers: seq<Issue>) returns (r: Option<Failure>, ghost cycle: seq<Issue>)
      requires Closed(graph) && visiting == {} && visited == {} && order == []
      requires forall n :: n in numbers <==> n in graph
      modifies this`visiting, this`visited, this`order
      ensures r.None? <==> Acyclic(graph)
      ensures r.None? ==> Topological(graph, order) && forall n :: n in order <==> n in graph
      ensures r.Some? ==> r.value.CycleAt? && IsCycle(graph, cycle) && cycle[0] == r.value.issue
    {
      cycle := [];
      for i := 0 to |numbers|
        invariant Valid() && visiting == {}
        invariant forall n :: n in numbers[..i] ==> n in visited
      {
        assert numbers[i] in numbers;
        assert Walkable(graph, [] + [numbers[i]]);
        r, cycle := Walk(numbers[i], []);
        if r.Some? {
          return;
        }
      }
      assert numbers[..|numbers|] == numbers;
      OrderedIsAcyclic(graph, order);
      return None, [];
    }
  }

  /** A graph whose issues can all be listed topologically has no cycle. */
  lemma OrderedIsAcyclic(g: Graph, order: seq<Issue>)
    requires Topological(g, order) && forall n :: n in g ==> n in order
    ensures Acyclic(g)
  {
    forall p ensures !IsCycle(g, p) {
      if IsCycle(g, p) {
        assert Edge(g, p[0], p[1]);
        var i :| 0 <= i < |order| && order[i] == p[0];
        PathDescends(g, order, p, i);
      }
    }
  }

  /** Along a path positions in the order fall, so it cannot come back to its start. */
  lemma {:induction false} PathDescends(g: Graph, order: seq<Issue>, p: seq<Issue>, i: nat)
    requires Topological(g, order) && i < |order| && |p| > 1 && order[i] == p[0] && Walkable(g, p)
    ensures p[|p| - 1] in order[..i] && p[|p| - 1] != p[0]
    decreases |p|
  {
    assert Edge(g, p[0], p[1]);
    var j :| 0 <= j < i && order[j] == p[1];
    if |p| > 2 {
      var rest := p[1..];
      forall k | 0 < k < |rest| ensures Edge(g, rest[k - 1], rest[k]) {
        assert Edge(g, p[k + 1 - 1], p[k + 1]);
      }
      PathDescends(g, order, rest, j);
      assert order[..j] <= order[..i];
    }
  }
}
