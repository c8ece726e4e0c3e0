/** The stack loop of `linkDFS`. */
module TreeLinker {
  import opened Basics
  import opened SchemaTree
  import opened Linker

  // ---------- The measure ----------

  /** An upper bound on the resources that a visit at `level` can still give rise to, itself included. */
  ghost function Weight(degree: nat, level: nat): nat {
    if level == 0 then 1 else 1 + degree * Weight(degree, level - 1)
  }

  lemma {:induction false} WeightGrows(degree: nat, low: nat, high: nat)
    requires low <= high
    ensures 1 <= Weight(degree, low) && (low == high || degree == 0 || Weight(degree, low) <= Weight(degree, high))
    decreases high
  {
    if low != 0 {
      WeightGrows(degree, low - 1, high - 1);
      if degree != 0 {
        Scale(degree, Weight(degree, low - 1), Weight(degree, high - 1));
      }
    }
  }

  lemma Scale(k: nat, a: nat, b: nat)
    requires a <= b
    ensures k * a <= k * b
  {
  }

  ghost function Total(degree: nat, rank: map<string, nat>, stack: seq<Resource>): nat {
    if stack == [] then 0 else Weight(degree, Level(rank, stack[0].name)) + Total(degree, rank, stack[1..])
  }

  lemma {:induction false} TotalConcat(degree: nat, rank: map<string, nat>, xs: seq<Resource>, ys: seq<Resource>)
    ensures Total(degree, rank, xs + ys) == Total(degree, rank, xs) + Total(degree, rank, ys)
  {
    if xs == [] {
      assert xs + ys == ys;
    } else {
      assert (xs + ys)[1..] == xs[1..] + ys;
      TotalConcat(degree, rank, xs[1..], ys);
    }
  }

  lemma OnceMore(n: nat, w: nat)
    ensures (n + 1) * w == w + n * w
  {
  }

  lemma {:induction false} TotalBelow(degree: nat, rank: map<string, nat>, xs: seq<Resource>, level: nat)
    requires 0 < degree && forall x :: x in xs ==> Level(rank, x.name) <= level
    ensures Total(degree, rank, xs) <= |xs| * Weight(degree, level)
  {
    if xs != [] {
      assert xs[0] in xs && forall x :: x in xs[1..] ==> x in xs;
      WeightGrows(degree, Level(rank, xs[0].name), level);
      TotalBelow(degree, rank, xs[1..], level);
      OnceMore(|xs| - 1, Weight(degree, level));
    }
  }

  /** All the slots of all the templates. */
  ghost function AllSlots(pool: Pool): set<Slot> {
    set name, slot | name in pool && slot in Slots(pool[name]) :: slot
  }

  lemma {:induction false} DistinctSlots(xs: seq<Resource>, slots: set<Slot>)
    requires forall x :: x in xs ==> x.slot in slots
    requires forall i, j :: 0 <= i < j < |xs| ==> xs[i].slot != xs[j].slot
    ensures |xs| <= |slots|
  {
    if xs != [] {
      var rest := xs[1..];
      assert xs[0] in xs;
      forall x | x in rest
        ensures x.slot in slots - {xs[0].slot}
      {
        var i :| 0 <= i < |rest| && rest[i] == x;
        assert xs[i + 1] == x && x in xs;
      }
      DistinctSlots(rest, slots - {xs[0].slot});
    }
  }

  /** A visit lowers the total weight of the stack. */
  lemma VisitLowersTotal(pool: Pool, rank: map<string, nat>, r: Resource, xs: seq<Resource>, rest: seq<Resource>)
    requires r.name in pool && r.name in rank && Pushed(rank, r, pool[r.name], xs)
    ensures Total(|AllSlots(pool)|, rank, xs + rest) < Total(|AllSlots(pool)|, rank, [r] + rest)
  {
    var degree, t := |AllSlots(pool)|, pool[r.name];
    forall x | x in xs
      ensures x.slot in AllSlots(pool)
    {
      assert x.slot in Slots(t);
    }
    DistinctSlots(xs, AllSlots(pool));
    assert Member in Slots(t) && Member in AllSlots(pool);
    TotalBelow(degree, rank, xs, rank[r.name]);
    WeightProduct(|xs|, degree, Weight(degree, rank[r.name]));
    TotalConcat(degree, rank, xs, rest);
    assert ([r] + rest)[1..] == rest;
  }

  lemma WeightProduct(n: nat, degree: nat, w: nat)
    requires n <= degree
    ensures n * w <= degree * w
  {
  }

  // ---------- The loop ----------

  /** Every resource that `r` refers to is in `all`. */
  ghost predicate Closed(r: Resource, all: set<Resource>)
    reads r`props, r`collectionOf
  {
    && (r.collectionOf != null ==> r.collectionOf in all)
    && (forall f {:trigger r.props[f]} :: f in r.props ==>
          && (r.props[f].PLink? && r.props[f].link != null ==> r.props[f].link in all)
          && (r.props[f].PArray? && r.props[f].elementLink != null ==> r.props[f].elementLink in all)
          && (r.props[f].PObject? ==>
                forall c ::
                  c in r.props[f].fields && r.props[f].fields[c].PLink? && r.props[f].fields[c].link != null ==>
                    r.props[f].fields[c].link in all))
  }

  /** Visiting one resource, whatever it is. */
  method Visit(templates: map<string, Resource>, known: Cycles, r: Resource,
               ghost pool: Pool, ghost rank: map<string, nat>) returns (pushed: seq<Resource>)
    requires Holds(templates, pool) && PoolOk(pool, known, rank) && r !in templates.Values && Pristine(pool, r)
    modifies r`props, r`collectionOf, (set n | n in templates :: templates[n])`instanceID
    ensures Linked(pool, known, r) && Closed(r, set x | x in pushed)
    ensures Leads(pool, rank, r, pushed)
    ensures forall x {:trigger x in pushed} :: x in pushed ==> fresh(x) && Pristine(pool, x)
  {
    pushed := [];
    if r.isCollection {
      var x := LinkCollection(templates, known, r, pool, rank);
      pushed := [x];
      CollectionClosed(pool, known, rank, r, x);
    } else if r.props.Keys != {} {
      pushed := LinkFields(templates, known, r, pool, rank);
      FieldsClosed(r, pushed);
    }
  }

  lemma CollectionClosed(pool: Pool, known: Cycles, rank: map<string, nat>, r: Resource, x: Resource)
    requires PoolOk(pool, known, rank) && r.name in pool && r.props == pool[r.name].props && r.collectionOf == x
    ensures Closed(r, set y | y in [x])
  {
    assert TemplateOk(pool, known, rank, r.name);
    forall f | f in r.props
      ensures LinksIn(r.props[f], [x])
    {
      UnlinkedLinksIn(r.props[f], [x]);
    }
  }

  lemma FieldsClosed(r: Resource, pushed: seq<Resource>)
    requires r.collectionOf == null && forall f :: f in r.props ==> LinksIn(r.props[f], pushed)
    ensures Closed(r, set x | x in pushed)
  {
  }

  ghost predicate NilLinks(r: Resource)
    reads r`props
  {
    forall f :: f in r.props && IsNav(r.props[f]) ==> r.props[f].link == null
  }

  /** The check that a template is not linked itself. */
  method CheckNilLinks(r: Resource) returns (ok: bool)
    ensures ok <==> NilLinks(r)
  {
    var todo := r.props.Keys;
    while todo != {}
      invariant todo <= r.props.Keys
      invariant forall f :: f in r.props && f !in todo && IsNav(r.props[f]) ==> r.props[f].link == null
      decreases |todo|
    {
      var f :| f in todo;
      if r.props[f].PLink? && r.props[f].isNav && r.props[f].link != null {
        return false;
      }
      todo := todo - {f};
    }
    return true;
  }

  method CheckTemplates(templates: map<string, Resource>) returns (ok: bool)
    ensures ok <==> forall name {:trigger templates[name]} :: name in templates ==> NilLinks(templates[name])
  {
    var todo := templates.Keys;
    while todo != {}
      invariant todo <= templates.Keys
      invariant forall name {:trigger templates[name]} :: name in templates && name !in todo ==>
                  NilLinks(templates[name])
      decreases |todo|
    {
      var name :| name in todo;
      ok := CheckNilLinks(templates[name]);
      if !ok {
        return;
      }
      todo := todo - {name};
    }
    return true;
  }

  lemma TemplatesAreNil(templates: map<string, Resource>, pool: Pool, known: Cycles, rank: map<string, nat>)
    requires Holds(templates, pool) && PoolOk(pool, known, rank)
    ensures forall name {:trigger templates[name]} :: name in templates ==> NilLinks(templates[name])
  {
    forall name {:trigger templates[name]} | name in templates
      ensures NilLinks(templates[name])
    {
      assert TemplateOk(pool, known, rank, name);
    }
  }

  /** What the loop keeps of the resources it has visited and of those on the stack. */
  ghost predicate VisitedOk(pool: Pool, known: Cycles, visited: set<Resource>, all: set<Resource>)
    reads visited
  {
    forall r {:trigger Linked(pool, known, r)} {:trigger Closed(r, all)} :: r in visited ==>
      Linked(pool, known, r) && Closed(r, all)
  }

  ghost predicate StackOk(pool: Pool, visited: set<Resource>, stack: seq<Resource>)
    reads set r | r in stack
  {
    && Distinct(stack)
    && (forall r {:trigger r in stack} :: r in stack ==> r !in visited && Pristine(pool, r))
  }

  /** A linked tree: closed, and every resource in it linked. */
  ghost predicate Tree(pool: Pool, known: Cycles, root: Resource, all: set<Resource>)
    reads all
  {
    root in all && root.name == SERVICE_ROOT && root.owner == null && root.slot == Root &&
    VisitedOk(pool, known, all, all)
  }

  lemma PopDistinct(r: Resource, rest: seq<Resource>)
    requires Distinct([r] + rest)
    ensures Distinct(rest) && r !in rest
  {
    var all := [r] + rest;
    forall i, j | 0 <= i < j < |rest|
      ensures rest[i] != rest[j]
    {
      assert all[i + 1] == rest[i] && all[j + 1] == rest[j];
    }
    forall j | 0 <= j < |rest|
      ensures rest[j] != r
    {
      assert all[0] == r && all[j + 1] == rest[j];
    }
  }

  lemma PushDistinct(rank: map<string, nat>, r: Resource, t: Template, xs: seq<Resource>, rest: seq<Resource>)
    requires Pushed(rank, r, t, xs) && Distinct(rest) && forall x :: x in xs ==> x !in rest
    ensures Distinct(xs + rest)
  {
    var all := xs + rest;
    forall i, j | 0 <= i < j < |all|
      ensures all[i] != all[j]
    {
      if i < |xs| <= j {
        assert all[i] in xs && all[j] in rest;
      }
    }
  }

  lemma ClosedMore(r: Resource, all: set<Resource>, more: set<Resource>)
    requires Closed(r, all) && all <= more
    ensures Closed(r, more)
  {
  }

  /** What a visit of `r` leaves to be pushed. */
  ghost predicate Leads(pool: Pool, rank: map<string, nat>, r: Resource, pushed: seq<Resource>) {
    if r.name in pool then Pushed(rank, r, pool[r.name], pushed) else pushed == []
  }

  lemma RoundLowers(pool: Pool, rank: map<string, nat>, r: Resource, pushed: seq<Resource>, rest: seq<Resource>)
    requires Leads(pool, rank, r, pushed) && rank.Keys == pool.Keys
    ensures Total(|AllSlots(pool)|, rank, pushed + rest) < Total(|AllSlots(pool)|, rank, [r] + rest)
  {
    if r.name in pool {
      VisitLowersTotal(pool, rank, r, pushed, rest);
    } else {
      assert pushed + rest == rest && ([r] + rest)[1..] == rest;
      WeightGrows(|AllSlots(pool)|, Level(rank, r.name), Level(rank, r.name));
    }
  }

  lemma StackAfter(pool: Pool, rank: map<string, nat>, visited: set<Resource>, r: Resource, pushed: seq<Resource>,
                   rest: seq<Resource>)
    requires Leads(pool, rank, r, pushed) && Distinct(rest)
    requires forall x {:trigger x in pushed} :: x in pushed ==> x !in rest && x !in visited && Pristine(pool, x)
    requires forall x {:trigger x in rest} :: x in rest ==> x !in visited && Pristine(pool, x)
    ensures StackOk(pool, visited, pushed + rest)
  {
    if r.name in pool {
      PushDistinct(rank, r, pool[r.name], pushed, rest);
    } else {
      assert pushed + rest == rest;
    }
  }

  lemma VisitedAfter(pool: Pool, known: Cycles, visited: set<Resource>, r: Resource, pushed: seq<Resource>,
                     rest: seq<Resource>)
    requires VisitedOk(pool, known, visited, visited + {r} + set x | x in rest)
    requires Linked(pool, known, r) && Closed(r, set x | x in pushed)
    ensures VisitedOk(pool, known, visited + {r}, visited + {r} + set x | x in pushed + rest)
  {
    var all := visited + {r} + set x | x in pushed + rest;
    forall v | v in visited + {r}
      ensures Linked(pool, known, v) && Closed(v, all)
    {
      if v == r {
        ClosedMore(r, (set x | x in pushed), all);
      } else {
        ClosedMore(v, visited + {r} + (set x | x in rest), all);
      }
    }
  }

  /** One round: visits the resource on top of the stack and pushes what it leads to. */
  method Round(templates: map<string, Resource>, known: Cycles, r: Resource, rest: seq<Resource>,
               ghost visited: set<Resource>,
               ghost pool: Pool, ghost rank: map<string, nat>) returns (pushed: seq<Resource>)
    requires Holds(templates, pool) && PoolOk(pool, known, rank)
    requires r !in templates.Values && templates.Values !! visited && forall x :: x in rest ==> x !in templates.Values
    requires VisitedOk(pool, known, visited, visited + {r} + set x | x in rest)
    requires StackOk(pool, visited, [r] + rest)
    modifies r`props, r`collectionOf, (set n | n in templates :: templates[n])`instanceID
    ensures Holds(templates, pool)
    ensures VisitedOk(pool, known, visited + {r}, visited + {r} + set x | x in pushed + rest)
    ensures StackOk(pool, visited + {r}, pushed + rest)
    ensures forall x :: x in pushed ==> fresh(x)
    ensures Leads(pool, rank, r, pushed)
  {
    PopDistinct(r, rest);
    assert r in [r] + rest && forall x :: x in rest ==> x in [r] + rest;
    pushed := Visit(templates, known, r, pool, rank);
    VisitedAfter(pool, known, visited, r, pushed, rest);
    StackAfter(pool, rank, visited + {r}, r, pushed, rest);
  }

  /** The order in which resources were popped so far, without repetition. */
  ghost predicate Popped(order: seq<Resource>, visited: set<Resource>) {
    Distinct(order) && visited == set r | r in order
  }

  lemma PoppedMore(order: seq<Resource>, visited: set<Resource>, r: Resource)
    requires Popped(order, visited) && r !in visited
    ensures Popped(order + [r], visited + {r})
  {
    forall i, j | 0 <= i < j < |order + [r]|
      ensures (order + [r])[i] != (order + [r])[j]
    {
      assert order[i] in order;
    }
  }

  ghost predicate LoopOk(pool: Pool, known: Cycles, root: Resource, visited: set<Resource>, stack: seq<Resource>,
                         order: seq<Resource>)
    reads visited, set r | r in stack
  {
    forall u {:trigger Open(u)} :: Open(u) ==>
      && VisitedOk(pool, known, visited, visited + set r | r in stack)
      && StackOk(pool, visited, stack)
      && Popped(order, visited)
      && (root in visited || root in stack)
  }

  /** One iteration of the loop. */
  method Iterate(templates: map<string, Resource>, known: Cycles, ghost root: Resource, visited: set<Resource>,
                 stack: seq<Resource>,
                 ghost order: seq<Resource>, ghost pool: Pool, ghost rank: map<string, nat>)
    returns (ok: bool, visited': set<Resource>, stack': seq<Resource>, ghost order': seq<Resource>)
    requires Holds(templates, pool) && PoolOk(pool, known, rank) && stack != []
    requires templates.Values !! visited && forall x :: x in stack ==> x !in templates.Values
    requires LoopOk(pool, known, root, visited, stack, order)
    modifies {stack[0]}`props, {stack[0]}`collectionOf, (set n | n in templates :: templates[n])`instanceID
    ensures ok && Holds(templates, pool) && LoopOk(pool, known, root, visited', stack', order')
    ensures visited' == visited + {stack[0]} && forall x :: x in stack' ==> x in stack || fresh(x)
    ensures Total(|AllSlots(pool)|, rank, stack') < Total(|AllSlots(pool)|, rank, stack)
  {
    assert Open(true);
    var r, rest := stack[0], stack[1..];
    assert stack == [r] + rest && r in stack;
    TemplatesAreNil(templates, pool, known, rank);
    ok := CheckTemplates(templates);
    visited', stack', order' := visited, rest, order;
    if r !in visited {
      assert visited + {r} + (set x | x in rest) == visited + set x | x in stack;
      var pushed := Round(templates, known, r, rest, visited, pool, rank);
      RoundLowers(pool, rank, r, pushed, rest);
      PoppedMore(order, visited, r);
      visited', stack', order' := visited + {r}, pushed + rest, order + [r];
    }
  }

  /** A copy of the service root, before anything is visited. */
  method Start(templates: map<string, Resource>, ghost pool: Pool, ghost known: Cycles, ghost rank: map<string, nat>)
    returns (ok: bool, root: Resource)
    requires Holds(templates, pool) && PoolOk(pool, known, rank)
    ensures ok && fresh(root) && root.name == SERVICE_ROOT && root.owner == null && root.slot == Root
    ensures LoopOk(pool, known, root, {}, [root], [])
  {
    TemplatesAreNil(templates, pool, known, rank);
    ok := CheckTemplates(templates);
    assert TemplateOk(pool, known, rank, SERVICE_ROOT);
    root := CopyResource(templates[SERVICE_ROOT], null, Root);
  }

  lemma Finished(pool: Pool, known: Cycles, root: Resource, visited: set<Resource>, order: seq<Resource>)
    requires LoopOk(pool, known, root, visited, [], order)
    requires root.name == SERVICE_ROOT && root.owner == null && root.slot == Root
    ensures Tree(pool, known, root, visited) && Popped(order, visited)
  {
    assert Open(true);
    var none: seq<Resource> := [];
    assert visited + (set r | r in none) == visited;
  }

  /** Unfolds the pool into a tree; `order` is the order in which resources are popped. */
  method Unfold(templates: map<string, Resource>, known: Cycles, ghost pool: Pool, ghost rank: map<string, nat>)
    returns (ok: bool, root: Resource, visited: set<Resource>, ghost order: seq<Resource>)
    requires Holds(templates, pool) && PoolOk(pool, known, rank)
    modifies (set n | n in templates :: templates[n])`instanceID
    ensures ok && Tree(pool, known, root, visited) && Holds(templates, pool)
    ensures fresh(visited)
    ensures Popped(order, visited)
  {
    ok, root := Start(templates, pool, known, rank);
    visited, order := {}, [];
    var stack := [root];
    while stack != []
      invariant ok && Holds(templates, pool) && LoopOk(pool, known, root, visited, stack, order)
      invariant fresh(visited) && forall r :: r in stack ==> fresh(r)
      decreases Total(|AllSlots(pool)|, rank, stack)
    {
      assert stack[0] in stack;
      var sane;
      sane, visited, stack, order := Iterate(templates, known, root, visited, stack, order, pool, rank);
      ok := ok && sane;
    }
    Finished(pool, known, root, visited, order);
  }
}
