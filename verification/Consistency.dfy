/** The checks at the end of `linkDFS`, none of which fails on a linked tree. */
module Consistency {
  import opened Basics
  import opened SchemaTree
  import opened Linker
  import opened TreeLinker
  import Traverse

  // ---------- Every resource has one place ----------

  /** `r` refers to `x` from the place `slot`. */
  ghost predicate Refers(r: Resource, slot: Slot, x: Resource)
    reads r`props, r`collectionOf
  {
    match slot
    case Root => false
    case Member => r.isCollection && r.collectionOf == x
    case Field(f) =>
      f in r.props &&
      ((r.props[f].PLink? && r.props[f].link == x) || (r.props[f].PArray? && r.props[f].elementLink == x))
    case ChildOf(o, c) =>
      o in r.props && r.props[o].PObject? && c in r.props[o].fields &&
      r.props[o].fields[c].PLink? && r.props[o].fields[c].link == x
  }

  /** Two places are one when one is the alias of the other. */
  predicate SamePlace(s: Slot, s': Slot) {
    || s == s'
    || (s.Field? && s'.ChildOf? && s.name == s'.name)
    || (s.ChildOf? && s'.Field? && s.name == s'.name)
  }

  lemma UnlinkedRefersNothing(p: Prop)
    requires Unlinked(p)
    ensures (p.PLink? ==> p.link == null) && (p.PArray? ==> p.elementLink == null)
    ensures p.PObject? ==> forall c :: c in p.fields ==> (p.fields[c].PLink? ==> p.fields[c].link == null)
  {
    if p.PObject? {
      forall c | c in p.fields
        ensures Unlinked(p.fields[c])
      {
        assert Erase(p).fields[c] == Erase(p.fields[c]);
      }
    }
  }

  /** A property of the resource's own template. */
  lemma OwnProperty(pool: Pool, known: Cycles, rank: map<string, nat>, r: Resource, f: string, p: Prop)
    requires PoolOk(pool, known, rank) && r.name in pool && !pool[r.name].isCollection
    requires f in pool[r.name].props && LinkedProp(known, r, f, pool[r.name].props[f], p)
    ensures p.PLink? && p.link != null ==> p.link.owner == r && p.link.slot == Field(f)
    ensures p.PArray? && p.elementLink != null ==> p.elementLink.owner == r && p.elementLink.slot == Field(f)
    ensures p.PObject? ==> forall c :: c in p.fields && p.fields[c].PLink? && p.fields[c].link != null ==>
              p.fields[c].link.owner == r && p.fields[c].link.slot == ChildOf(f, c)
    ensures p.PLink? && p.isNav ==> p.link != null
    ensures p.PArray? && p.navArray ==> p.elementLink != null
  {
    assert TemplateOk(pool, known, rank, r.name);
    UnlinkedRefersNothing(pool[r.name].props[f]);
  }

  /** What refers to `x` is its owner, from its slot. */
  lemma RefersFromSlot(pool: Pool, known: Cycles, rank: map<string, nat>, r: Resource, slot: Slot, x: Resource)
    requires PoolOk(pool, known, rank) && Linked(pool, known, r) && Refers(r, slot, x)
    ensures x.owner == r && (slot.Field? || x.slot == slot) && SamePlace(x.slot, slot)
  {
    if r.name in pool && !pool[r.name].isCollection {
      var k := match slot case Field(f) => f case ChildOf(o, _) => o case _ => "";
      if k in pool[r.name].props {
        assert LinkedProp(known, r, k, pool[r.name].props[k], r.props[k]);
        OwnProperty(pool, known, rank, r, k, r.props[k]);
      } else {
        var o :| IsAlias(known, r.name, pool[r.name], o, k);
        AliasLink(known, r, pool[r.name], r.props, o, k);
      }
    } else if r.name in pool {
      assert TemplateOk(pool, known, rank, r.name);
      forall f | f in r.props
        ensures slot != Field(f) && forall c :: slot != ChildOf(f, c)
      {
        UnlinkedRefersNothing(r.props[f]);
      }
    }
  }

  /** Every resource of a linked tree is referred to from one place at most. */
  lemma ReferencedOnce(pool: Pool, known: Cycles, rank: map<string, nat>, root: Resource, all: set<Resource>,
                       r: Resource, slot: Slot, r': Resource, slot': Slot, x: Resource)
    requires PoolOk(pool, known, rank) && Tree(pool, known, root, all) && r in all && r' in all
    requires Refers(r, slot, x) && Refers(r', slot', x)
    ensures r == r' && SamePlace(slot, slot')
    ensures x != root && x in all
  {
    assert Linked(pool, known, r) && Linked(pool, known, r') && Closed(r, all);
    RefersFromSlot(pool, known, rank, r, slot, x);
    RefersFromSlot(pool, known, rank, r', slot', x);
  }

  // ---------- The checks ----------

  ghost predicate NavLinksSet(r: Resource)
    reads r`props
  {
    forall f :: f in r.props ==>
      (IsNav(r.props[f]) ==> r.props[f].link != null) &&
      (r.props[f].PArray? && r.props[f].navArray ==> r.props[f].elementLink != null)
  }

  /** The navigation links of a linked resource are set, and lead to resources that it owns. */
  lemma LinkedIsNavigable(pool: Pool, known: Cycles, rank: map<string, nat>, r: Resource)
    requires PoolOk(pool, known, rank) && Linked(pool, known, r)
    ensures NavLinksSet(r) && Traverse.Navigable(r)
  {
    if r.name in pool {
      assert TemplateOk(pool, known, rank, r.name);
      forall f | f in r.props
        ensures IsNav(r.props[f]) ==> r.props[f].link != null
        ensures r.props[f].PArray? && r.props[f].navArray ==> r.props[f].elementLink != null
      {
        if !pool[r.name].isCollection {
          if f in pool[r.name].props {
            assert LinkedProp(known, r, f, pool[r.name].props[f], r.props[f]);
          } else {
            var o :| IsAlias(known, r.name, pool[r.name], o, f);
            AliasLink(known, r, pool[r.name], r.props, o, f);
          }
        } else {
          assert !NavField(pool[r.name], f) && !NavArray(pool[r.name], f);
        }
      }
    }
  }

  method CheckLinks(r: Resource) returns (ok: bool)
    ensures ok <==> NavLinksSet(r)
  {
    var todo := r.props.Keys;
    while todo != {}
      invariant todo <= r.props.Keys
      invariant forall f :: f in r.props && f !in todo ==>
        (IsNav(r.props[f]) ==> r.props[f].link != null) &&
        (r.props[f].PArray? && r.props[f].navArray ==> r.props[f].elementLink != null)
      decreases |todo|
    {
      var f :| f in todo;
      if r.props[f].PLink? && r.props[f].isNav && r.props[f].link == null {
        return false;
      } else if r.props[f].PArray? && r.props[f].navArray && r.props[f].elementLink == null {
        return false;
      }
      todo := todo - {f};
    }
    return true;
  }

  /** The check of every visited resource. */
  method CheckAllLinks(visited: set<Resource>) returns (ok: bool)
    ensures ok <==> forall r :: r in visited ==> NavLinksSet(r)
  {
    var todo := visited;
    while todo != {}
      invariant todo <= visited
      invariant forall r :: r in visited && r !in todo ==> NavLinksSet(r)
      decreases |todo|
    {
      var r :| r in todo;
      ok := CheckLinks(r);
      if !ok {
        return;
      }
      todo := todo - {r};
    }
    return true;
  }

  // ---------- Counting references ----------

  /** The top-level links of `r` that lead to `x`. */
  ghost function Places(r: Resource, x: Resource): set<string>
    reads r`props
  {
    set f | f in r.props && IsNav(r.props[f]) && r.props[f].link == x
  }

  /** How often `r` refers to `x`. */
  ghost function RefCount(r: Resource, x: Resource): nat
    reads r`props, r`collectionOf
  {
    if r.isCollection then (if r.collectionOf == x then 1 else 0) else |Places(r, x)|
  }

  /** What traversal goes on to is what is counted: the member type of a collection, and otherwise the targets of
      the navigation links at the top, and nothing else. */
  lemma CountsSuccessors(r: Resource, x: Resource)
    requires Traverse.Navigable(r)
    ensures RefCount(r, x) > 0 <==> x in Traverse.Successors(r)
    ensures x in Traverse.Successors(r) <==>
              if r.isCollection then r.collectionOf == x
              else exists f :: f in r.props && r.props[f].PLink? && r.props[f].isNav && r.props[f].link == x
  {
    if !r.isCollection {
      if f :| f in r.props && IsNav(r.props[f]) && r.props[f].link == x {
        assert f in Places(r, x) && |Places(r, x)| > 0;
      } else {
        assert Places(r, x) == {};
      }
    }
  }

  ghost function TotalRefs(visits: seq<Resource>, x: Resource): nat
    reads set r | r in visits
  {
    if visits == [] then 0
    else
      var n := |visits| - 1;
      assert visits[n] in visits && forall r :: r in visits[..n] ==> r in visits;
      TotalRefs(visits[..n], x) + RefCount(visits[n], x)
  }

  function Count(count: map<Resource, nat>, x: Resource): nat {
    if x in count then count[x] else 0
  }

  lemma PlacesStep(r: Resource, x: Resource, todo: set<string>, f: string)
    requires f in todo
    ensures |Places(r, x) - (todo - {f})| == |Places(r, x) - todo| + if f in Places(r, x) then 1 else 0
  {
    var before, after := Places(r, x) - todo, Places(r, x) - (todo - {f});
    assert after == if f in Places(r, x) then before + {f} else before;
  }

  /** Counts the reference that one property of `r` may make. */
  method CountLink(count: map<Resource, nat>, r: Resource, f: string, ghost all: set<Resource>)
    returns (count': map<Resource, nat>)
    requires f in r.props && (IsNav(r.props[f]) ==> r.props[f].link != null)
    ensures forall x {:trigger x in all} :: x in all ==>
              Count(count', x) == Count(count, x) + if f in Places(r, x) then 1 else 0
  {
    count' := count;
    if r.props[f].PLink? && r.props[f].isNav {
      count' := count'[r.props[f].link := Count(count', r.props[f].link) + 1];
    }
  }

  /** Counts the references that `r` makes to the resources of `all`. */
  method CountFrom(count: map<Resource, nat>, r: Resource, ghost all: set<Resource>)
    returns (count': map<Resource, nat>)
    requires Traverse.Navigable(r)
    ensures forall x {:trigger x in all} :: x in all ==> Count(count', x) == Count(count, x) + RefCount(r, x)
  {
    count' := count;
    if r.isCollection {
      count' := count'[r.collectionOf := Count(count', r.collectionOf) + 1];
    } else {
      var todo := r.props.Keys;
      while todo != {}
        invariant todo <= r.props.Keys
        invariant forall x {:trigger x in all} :: x in all ==>
                    Count(count', x) == Count(count, x) + |Places(r, x) - todo|
        decreases |todo|
      {
        var f :| f in todo;
        count' := CountLink(count', r, f, all);
        PlacesStepAll(r, all, todo, f);
        todo := todo - {f};
      }
      PlacesDone(r, all);
    }
  }

  lemma PlacesStepAll(r: Resource, all: set<Resource>, todo: set<string>, f: string)
    requires f in todo
    ensures forall x {:trigger x in all} :: x in all ==>
              |Places(r, x) - (todo - {f})| == |Places(r, x) - todo| + if f in Places(r, x) then 1 else 0
  {
    forall x {:trigger x in all} | x in all
      ensures |Places(r, x) - (todo - {f})| == |Places(r, x) - todo| + if f in Places(r, x) then 1 else 0
    {
      PlacesStep(r, x, todo, f);
    }
  }

  lemma PlacesDone(r: Resource, all: set<Resource>)
    ensures forall x {:trigger x in all} :: x in all ==> |Places(r, x) - {}| == |Places(r, x)|
  {
    forall x {:trigger x in all} | x in all
      ensures |Places(r, x) - {}| == |Places(r, x)|
    {
      assert Places(r, x) - {} == Places(r, x);
    }
  }

  lemma TotalRefsNext(visits: seq<Resource>, i: nat, x: Resource)
    requires i < |visits|
    ensures TotalRefs(visits[..i + 1], x) == TotalRefs(visits[..i], x) + RefCount(visits[i], x)
  {
    assert visits[..i + 1][..i] == visits[..i] && visits[..i + 1][i] == visits[i];
  }

  /** The reference counters after a traversal, beside the resources that they belong to. */
  method CountReferences(visits: seq<Resource>, ghost all: set<Resource>) returns (count: map<Resource, nat>)
    requires forall r {:trigger r in visits} :: r in visits ==> Traverse.Navigable(r)
    ensures forall x {:trigger x in all} :: x in all ==> Count(count, x) == TotalRefs(visits, x)
  {
    count := map[];
    for i := 0 to |visits|
      invariant forall x {:trigger x in all} :: x in all ==> Count(count, x) == TotalRefs(visits[..i], x)
    {
      assert visits[i] in visits;
      count := CountFrom(count, visits[i], all);
      forall x {:trigger x in all} | x in all
        ensures Count(count, x) == TotalRefs(visits[..i + 1], x)
      {
        TotalRefsNext(visits, i, x);
      }
    }
    assert visits[..|visits|] == visits;
  }

  // ---------- In a linked tree ----------

  /** A linked resource refers to what it owns, and once. */
  lemma OwnerRefersOnce(pool: Pool, known: Cycles, rank: map<string, nat>, r: Resource, x: Resource)
    requires PoolOk(pool, known, rank) && Linked(pool, known, r)
    ensures RefCount(r, x) <= if x.owner == r then 1 else 0
  {
    if r.isCollection {
      if r.collectionOf == x {
        RefersFromSlot(pool, known, rank, r, Member, x);
      }
    } else {
      var name := match x.slot case Field(f) => f case ChildOf(_, c) => c case _ => "";
      forall f | f in Places(r, x)
        ensures x.owner == r && f == name
      {
        RefersFromSlot(pool, known, rank, r, Field(f), x);
      }
      SmallSet(Places(r, x), name, x.owner == r);
    }
  }

  lemma SmallSet(names: set<string>, name: string, some: bool)
    requires forall f :: f in names ==> some && f == name
    ensures |names| <= if some then 1 else 0
  {
    if some {
      assert names <= {name};
      assert names == {} || names == {name};
    } else {
      assert names == {};
    }
  }

  lemma {:induction false} TreeRefersOnce(pool: Pool, known: Cycles, rank: map<string, nat>, visits: seq<Resource>,
                                          x: Resource)
    requires PoolOk(pool, known, rank) && Distinct(visits)
    requires forall r {:trigger r in visits} :: r in visits ==> Linked(pool, known, r)
    ensures TotalRefs(visits, x) <= if x.owner != null && x.owner in visits then 1 else 0
  {
    if visits != [] {
      var n := |visits| - 1;
      assert visits[n] in visits && forall r :: r in visits[..n] ==> r in visits;
      assert visits[n] !in visits[..n];
      TreeRefersOnce(pool, known, rank, visits[..n], x);
      OwnerRefersOnce(pool, known, rank, visits[n], x);
    }
  }

  ghost function GraphOf(all: set<Resource>): Traverse.Graph
    requires forall r {:trigger r in all} :: r in all ==> Traverse.Navigable(r)
    reads all
  {
    map r | r in all :: Traverse.Successors(r)
  }

  lemma TreeSnapshot(pool: Pool, known: Cycles, rank: map<string, nat>, root: Resource, all: set<Resource>)
    requires PoolOk(pool, known, rank) && Tree(pool, known, root, all)
    ensures forall r {:trigger r in all} :: r in all ==> NavLinksSet(r) && TopLinksSet(r) && Traverse.Navigable(r)
    ensures Traverse.Snapshot(GraphOf(all)) && root in GraphOf(all)
  {
    forall r | r in all
      ensures NavLinksSet(r) && TopLinksSet(r) && Traverse.Navigable(r)
    {
      assert Linked(pool, known, r);
      LinkedIsNavigable(pool, known, rank, r);
    }
    var graph := GraphOf(all);
    forall r {:trigger graph[r]} | r in graph
      ensures graph[r] <= graph.Keys
    {
      assert Closed(r, all);
    }
  }

  // ---------- The check of the whole tree ----------

  ghost predicate TopLinksSet(r: Resource)
    reads r`props
  {
    forall f :: f in r.props && IsNav(r.props[f]) ==> r.props[f].link != null
  }

  ghost predicate ReferredOnce(visits: seq<Resource>)
    reads set r | r in visits
  {
    forall x {:trigger x in visits} :: x in visits ==> TotalRefs(visits, x) <= 1
  }

  method CheckVisit(r: Resource) returns (ok: bool)
    ensures ok <==> TopLinksSet(r)
  {
    var todo := r.props.Keys;
    while todo != {}
      invariant todo <= r.props.Keys
      invariant forall f :: f in r.props && f !in todo && IsNav(r.props[f]) ==> r.props[f].link != null
      decreases |todo|
    {
      var f :| f in todo;
      if r.props[f].PLink? && r.props[f].isNav && r.props[f].link == null {
        return false;
      }
      todo := todo - {f};
    }
    return true;
  }

  method CheckVisits(visits: seq<Resource>) returns (ok: bool)
    ensures ok <==> forall r {:trigger r in visits} :: r in visits ==> TopLinksSet(r)
  {
    for i := 0 to |visits|
      invariant forall r {:trigger r in visits[..i]} :: r in visits[..i] ==> TopLinksSet(r)
    {
      ok := CheckVisit(visits[i]);
      if !ok {
        assert visits[i] in visits;
        return;
      }
      assert visits[..i + 1] == visits[..i] + [visits[i]];
    }
    assert visits[..|visits|] == visits;
    return true;
  }

  method CheckCounts(visits: seq<Resource>, count: map<Resource, nat>) returns (ok: bool)
    ensures ok <==> forall x {:trigger x in visits} :: x in visits ==> Count(count, x) <= 1
  {
    for i := 0 to |visits|
      invariant forall x {:trigger x in visits[..i]} :: x in visits[..i] ==> Count(count, x) <= 1
    {
      if Count(count, visits[i]) > 1 {
        assert visits[i] in visits;
        return false;
      }
      assert visits[..i + 1] == visits[..i] + [visits[i]];
    }
    assert visits[..|visits|] == visits;
    return true;
  }

  /** Succeeds if and only if, among the resources reachable from the root, navigation links are
      set and no resource is referred to twice. */
  method ConsistencyCheck(root: Resource, ghost graph: Traverse.Graph) returns (ok: bool, visits: seq<Resource>)
    requires Traverse.Snapshot(graph) && root in graph
    ensures Traverse.VisitsAll(graph, root, visits)
    ensures ok <==> (forall r {:trigger r in visits} :: r in visits ==> TopLinksSet(r)) && ReferredOnce(visits)
  {
    visits := Traverse.TraverseTree(root, graph);
    VisitsNavigable(graph, root, visits);
    ok := CheckVisits(visits);
    ghost var all := set x | x in visits;
    var count := CountReferences(visits, all);
    assert forall x {:trigger x in visits} :: x in visits ==> x in all;
    var again := Traverse.TraverseTree(root, graph);
    var few := CheckCounts(again, count);
    SameVisits(graph, root, visits, again);
    ok := ok && few;
  }

  lemma VisitsNavigable(graph: Traverse.Graph, root: Resource, visits: seq<Resource>)
    requires Traverse.Snapshot(graph) && Traverse.VisitsAll(graph, root, visits)
    ensures forall r {:trigger r in visits} :: r in visits ==> Traverse.Navigable(r)
  {
    assert Traverse.Open(true);
    forall r {:trigger r in visits} | r in visits
      ensures Traverse.Navigable(r)
    {
      assert graph[r] == graph[r];
    }
  }

  /** Two traversals may differ in their order only. */
  lemma SameVisits(graph: Traverse.Graph, root: Resource, visits: seq<Resource>, again: seq<Resource>)
    requires Traverse.VisitsAll(graph, root, visits) && Traverse.VisitsAll(graph, root, again)
    ensures forall x :: x in visits <==> x in again
  {
  }

  lemma TreeIsConsistent(pool: Pool, known: Cycles, rank: map<string, nat>, root: Resource, all: set<Resource>,
                         visits: seq<Resource>)
    requires PoolOk(pool, known, rank) && Tree(pool, known, root, all)
    requires Distinct(visits) && forall r {:trigger r in visits} :: r in visits ==> r in all
    ensures (forall r {:trigger r in visits} :: r in visits ==> TopLinksSet(r)) && ReferredOnce(visits)
  {
    forall r {:trigger r in visits} | r in visits
      ensures TopLinksSet(r) && Linked(pool, known, r)
    {
      assert Linked(pool, known, r);
      LinkedIsNavigable(pool, known, rank, r);
    }
    forall x {:trigger x in visits} | x in visits
      ensures TotalRefs(visits, x) <= 1
    {
      TreeRefersOnce(pool, known, rank, visits, x);
    }
  }

  /** `linkDFS`: a tree of fresh copies, the templates as they were but for `instanceID`, and no panic. */
  method LinkDFS(templates: map<string, Resource>, known: Cycles, ghost pool: Pool, ghost rank: map<string, nat>)
    returns (ok: bool, root: Resource, visited: set<Resource>, ghost order: seq<Resource>)
    requires Holds(templates, pool) && PoolOk(pool, known, rank)
    modifies (set n | n in templates :: templates[n])`instanceID
    ensures ok && Tree(pool, known, root, visited) && Holds(templates, pool)
    ensures fresh(visited) && Popped(order, visited)
  {
    ok, root, visited, order := Unfold(templates, known, pool, rank);
    TreeSnapshot(pool, known, rank, root, visited);
    var linked := CheckAllLinks(visited);
    var consistent, visits := ConsistencyCheck(root, GraphOf(visited));
    TreeIsConsistent(pool, known, rank, root, visited, visits);
    ok := ok && linked && consistent;
  }
}
