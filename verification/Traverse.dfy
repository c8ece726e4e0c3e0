/** `TraverseTree`: visiting every resource that navigation leads to. */
module Traverse {
  import opened Basics
  import opened SchemaTree

  class ResourceStack {
    /** Newest item at the beginning. */
    var items: seq<Resource>

    constructor ()
      ensures items == []
    {
      items := [];
    }

    method Push(r: Resource)
      modifies this`items
      ensures items == [r] + old(items)
    {
      items := [r] + items;
    }

    method Pop() returns (r: Resource)
      requires items != []
      modifies this`items
      ensures [r] + items == old(items)
    {
      r := items[0];
      items := items[1..];
    }
  }

  /** No navigation link of `r` is nil. */
  ghost predicate Navigable(r: Resource)
    reads r`props, r`collectionOf
  {
    if r.isCollection then r.collectionOf != null
    else forall f :: f in r.props && IsNav(r.props[f]) ==> r.props[f].link != null
  }

  ghost function Successors(r: Resource): set<Resource>
    requires Navigable(r)
    reads r`props, r`collectionOf
  {
    if r.isCollection then {r.collectionOf}
    else set f | f in r.props && IsNav(r.props[f]) :: r.props[f].link
  }

  // ---------- Graphs ----------

  /** Mentioning `Open` unfolds the predicates below, which are otherwise carried as they are. */
  ghost predicate Open(u: bool) {
    true
  }

  type Graph = map<Resource, set<Resource>>

  ghost predicate Snapshot(graph: Graph)
    reads graph.Keys`props, graph.Keys`collectionOf
  {
    forall u {:trigger Open(u)} :: Open(u) ==>
      forall r {:trigger graph[r]} :: r in graph ==> Navigable(r) && graph[r] == Successors(r) && graph[r] <= graph.Keys
  }

  /** `n` links lead from `from` to `to`. */
  ghost predicate Leads(graph: Graph, from: Resource, to: Resource, n: nat) {
    if n == 0 then from == to
    else exists r :: r in graph && to in graph[r] && Leads(graph, from, r, n - 1)
  }

  ghost predicate Reachable(graph: Graph, from: Resource, to: Resource) {
    exists n: nat :: Leads(graph, from, to, n)
  }

  lemma ReachesItself(graph: Graph, r: Resource)
    ensures Reachable(graph, r, r)
  {
    assert Leads(graph, r, r, 0);
  }

  lemma ReachesFurther(graph: Graph, from: Resource, r: Resource, x: Resource)
    requires Reachable(graph, from, r) && r in graph && x in graph[r]
    ensures Reachable(graph, from, x)
  {
    var n: nat :| Leads(graph, from, r, n);
    assert Leads(graph, from, x, n + 1);
  }

  /** A set that contains `from` and all successors of its members contains all that is reachable. */
  lemma {:induction false} ClosedContains(graph: Graph, from: Resource, closed: set<Resource>, x: Resource, n: nat)
    requires from in closed && Leads(graph, from, x, n)
    requires forall r :: r in closed && r in graph ==> graph[r] <= closed
    ensures x in closed
  {
    if n > 0 {
      var r :| r in graph && x in graph[r] && Leads(graph, from, r, n - 1);
      ClosedContains(graph, from, closed, r, n - 1);
    }
  }

  // ---------- The traversal ----------

  /** `visits` lists exactly the reachable resources, each once. */
  ghost predicate VisitsAll(graph: Graph, root: Resource, visits: seq<Resource>) {
    && Distinct(visits)
    && (forall x {:trigger x in visits} :: x in visits ==> x in graph && Reachable(graph, root, x))
    && (forall x {:trigger x in graph} :: x in graph && Reachable(graph, root, x) ==> x in visits)
  }

  /** What the loop keeps: everything found is reachable, and nothing it leads to is forgotten. */
  ghost predicate Found(graph: Graph, root: Resource, stack: seq<Resource>, visits: seq<Resource>,
                        discovered: set<Resource>) {
    forall u {:trigger Open(u)} :: Open(u) ==>
      && Distinct(visits) && discovered == (set x | x in visits)
      && (root in visits || root in stack)
      && (forall x {:trigger x in visits} :: x in visits ==> x in graph && Reachable(graph, root, x))
      && (forall x {:trigger x in stack} :: x in stack ==> x in graph && Reachable(graph, root, x))
      && (forall r :: r in visits && r in graph ==> forall x :: x in graph[r] ==> x in visits || x in stack)
  }

  /** Pushes the resources that `r` leads to. */
  method PushSuccessors(s: ResourceStack, r: Resource)
    requires Navigable(r)
    modifies s`items
    ensures forall x :: x in s.items <==> x in old(s.items) || x in Successors(r)
  {
    if r.isCollection {
      s.Push(r.collectionOf);
    } else {
      var todo := r.props.Keys;
      while todo != {}
        invariant todo <= r.props.Keys
        invariant forall x :: x in s.items <==>
          x in old(s.items) || exists f :: f in r.props && f !in todo && IsNav(r.props[f]) && r.props[f].link == x
        decreases |todo|
      {
        var f :| f in todo;
        if r.props[f].PLink? && r.props[f].isNav {
          s.Push(r.props[f].link);
        }
        todo := todo - {f};
      }
    }
  }

  lemma VisitAgain(graph: Graph, root: Resource, r: Resource, rest: seq<Resource>, visits: seq<Resource>,
                   discovered: set<Resource>)
    requires Found(graph, root, [r] + rest, visits, discovered) && r in visits
    ensures Found(graph, root, rest, visits, discovered)
  {
    assert Open(true);
    assert forall x :: x in [r] + rest <==> x == r || x in rest;
  }

  lemma VisitFirst(graph: Graph, root: Resource, r: Resource, rest: seq<Resource>, visits: seq<Resource>,
                   discovered: set<Resource>,
                   stack: seq<Resource>)
    requires Found(graph, root, [r] + rest, visits, discovered) && r !in visits && r in graph && graph[r] <= graph.Keys
    requires forall x :: x in stack <==> x in rest || x in graph[r]
    ensures Found(graph, root, stack, visits + [r], discovered + {r})
  {
    assert Open(true);
    var visits' := visits + [r];
    assert r in [r] + rest && forall x :: x in rest ==> x in [r] + rest;
    assert forall x :: x in visits' <==> x in visits || x == r;
    forall x {:trigger Reachable(graph, root, x)} | x in visits' || x in stack
      ensures x in graph && Reachable(graph, root, x)
    {
      if x in graph[r] {
        ReachesFurther(graph, root, r, x);
      }
    }
    forall i, j | 0 <= i < j < |visits'|
      ensures visits'[i] != visits'[j]
    {
      assert visits[i] in visits;
    }
  }

  lemma FoundRoot(graph: Graph, root: Resource)
    requires root in graph
    ensures Found(graph, root, [root], [], {})
  {
    ReachesItself(graph, root);
  }

  lemma AllFound(graph: Graph, root: Resource, visits: seq<Resource>, discovered: set<Resource>)
    requires Found(graph, root, [], visits, discovered) && root in graph
    ensures VisitsAll(graph, root, visits)
  {
    assert Open(true);
    assert forall x :: x in visits ==> x in graph;
    forall x | x in graph && Reachable(graph, root, x)
      ensures x in visits
    {
      var n: nat :| Leads(graph, root, x, n);
      ClosedContains(graph, root, discovered, x, n);
    }
  }

  /** One iteration: what is left is smaller in the order of undiscovered resources, then stack. */
  method VisitNext(s: ResourceStack, visits: seq<Resource>, discovered: set<Resource>,
                   ghost root: Resource, ghost graph: Graph, ghost left: nat)
    returns (visits': seq<Resource>, discovered': set<Resource>, ghost left': nat)
    requires Snapshot(graph) && s.items != [] && Found(graph, root, s.items, visits, discovered) &&
             Left(graph, discovered, left)
    modifies s`items
    ensures Found(graph, root, s.items, visits', discovered') && Left(graph, discovered', left')
    ensures left' < left || (left' == left && |s.items| < |old(s.items)|)
  {
    assert Open(true);
    var r := s.Pop();
    assert r in [r] + s.items && r in graph;
    visits', discovered', left' := visits, discovered, left;
    if r !in discovered {
      ghost var rest := s.items;
      PushSuccessors(s, r);
      assert graph[r] == Successors(r);
      VisitFirst(graph, root, r, rest, visits, discovered, s.items);
      visits', discovered' := visits + [r], discovered + {r};
      left' := |graph.Keys - discovered'|;
      SmallerSet(graph.Keys - discovered', graph.Keys - discovered);
    } else {
      VisitAgain(graph, root, r, s.items, visits, discovered);
    }
  }

  /** How many resources are not discovered yet. */
  ghost predicate Left(graph: Graph, discovered: set<Resource>, left: nat) {
    forall u {:trigger Open(u)} :: Open(u) ==> left == |graph.Keys - discovered|
  }

  lemma SmallerSet(a: set<Resource>, b: set<Resource>)
    requires a < b
    ensures |a| < |b|
  {
    assert |b| == |a| + |b - a|;
  }

  /** Pops until the stack is empty. */
  method Drain(s: ResourceStack, ghost root: Resource, ghost graph: Graph)
    returns (visits: seq<Resource>, discovered: set<Resource>)
    requires Snapshot(graph) && Found(graph, root, s.items, [], {})
    modifies s`items
    ensures Found(graph, root, [], visits, discovered)
  {
    visits, discovered := [], {};
    ghost var left: nat := |graph.Keys - discovered|;
    while s.items != []
      invariant Snapshot(graph) && Found(graph, root, s.items, visits, discovered) && Left(graph, discovered, left)
      decreases left, |s.items|
    {
      visits, discovered, left := VisitNext(s, visits, discovered, root, graph, left);
    }
  }

  /** Runs the callback on the resources of `visits`, in this order. */
  method TraverseTree(root: Resource, ghost graph: Graph) returns (visits: seq<Resource>)
    requires Snapshot(graph) && root in graph
    ensures VisitsAll(graph, root, visits)
  {
    var s := new ResourceStack();
    s.Push(root);
    assert s.items == [root];
    FoundRoot(graph, root);
    var discovered;
    visits, discovered := Drain(s, root, graph);
    AllFound(graph, root, visits, discovered);
  }
}
