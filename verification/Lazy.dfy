/** Walking the linked tree is following the names of link references in the pool. */
module Lazy {
  import opened SchemaTree
  import opened Linker
  import opened TreeLinker
  import opened Detect
  import opened Walk

  // ---------- Resolution without a tree ----------

  /** A template, or a property of a template. */
  datatype Spot = OnTemplate(name: string) | InTemplate(name: string, t: Prop)

  ghost function LazyEnter(known: Cycles, name: string, field: string, t: Prop): Outcome<Spot> {
    match t
    case PLink(true, target, _) => Found(OnTemplate(RefName(known, name, field, target)))
    case PLink(false, _, _) => Found(InTemplate(name, t))
    case PObject(_) => Found(InTemplate(name, t))
    case PLeaf(walkable) => if walkable then Found(InTemplate(name, t)) else Missing
    case PArray(_, _, _) => Missing
  }

  ghost function LazyStep(pool: Pool, known: Cycles, cb: Callback, path: string, s: Spot,
                          token: string): Outcome<Spot> {
    if s.name !in pool then Missing
    else if pool[s.name].isCollection then
      if cb(s.name, path, token) then Found(OnTemplate(MemberType(s.name))) else Missing
    else
      match s
      case OnTemplate(name) =>
        if token in pool[name].props then LazyEnter(known, name, token, pool[name].props[token])
        else if o :| IsAlias(known, name, pool[name], o, token) then
          LazyEnter(known, name, token, pool[name].props[o].fields[token])
        else Missing
      case InTemplate(name, t) =>
        if !t.PObject? then Missing
        else if token in t.fields then LazyEnter(known, name, token, t.fields[token])
        else if "#" + token in t.fields then LazyEnter(known, name, "#" + token, t.fields["#" + token])
        else Missing
  }

  ghost function LazyFollow(pool: Pool, known: Cycles, cb: Callback, tokens: seq<string>, i: nat,
                            s: Spot): Outcome<Spot>
    requires i <= |tokens|
    decreases |tokens| - i
  {
    if i == |tokens| then Found(s)
    else
      match LazyStep(pool, known, cb, BuildPath(tokens[..i]), s, tokens[i])
      case Found(next) => LazyFollow(pool, known, cb, tokens, i + 1, next)
      case Missing => Missing
      case Panic => Panic
  }

  ghost function LazyResolve(pool: Pool, known: Cycles, cb: Callback, tokens: seq<string>): Outcome<Spot> {
    LazyFollow(pool, known, cb, tokens, 0, OnTemplate(SERVICE_ROOT))
  }

  // ---------- Agreement ----------

  /** Navigation links are where detection puts them. */
  ghost predicate Detected(pool: Pool) {
    forall name, f {:trigger Shallow(f, pool[name].props[f])} :: name in pool && f in pool[name].props ==>
      Shallow(f, pool[name].props[f])
  }

  /** `p` is a property of `r` that stems from `t`: untouched by linking, or a linked object. */
  ghost predicate Stems(pool: Pool, known: Cycles, r: Resource, t: Prop, p: Prop) {
    || (p == t && NavFree(t) && Unlinked(t))
    || (exists f :: TopObject(pool, known, r, f, t, p))
  }

  ghost predicate TopObject(pool: Pool, known: Cycles, r: Resource, f: string, t: Prop, p: Prop) {
    && r.name in pool && f in pool[r.name].props && f != LINKS
    && pool[r.name].props[f] == t && t.PObject? && LinkedObject(known, r, f, t, p)
  }

  ghost predicate ChildLinksIn(p: Prop, all: set<Resource>) {
    p.PObject? ==>
      forall c :: c in p.fields && p.fields[c].PLink? && p.fields[c].link != null ==> p.fields[c].link in all
  }

  ghost predicate Agrees(pool: Pool, known: Cycles, all: set<Resource>, s: Position, l: Spot) {
    && s.r in all && s.r.name == l.name
    && (s.At? <==> l.OnTemplate?)
    && (s.Inside? ==>
          && s.r.name in pool && !pool[s.r.name].isCollection
          && Stems(pool, known, s.r, l.t, s.p) && Erase(s.p) == l.t && ChildLinksIn(s.p, all))
  }

  ghost predicate SameOutcome(pool: Pool, known: Cycles, all: set<Resource>, a: Outcome<Position>, b: Outcome<Spot>) {
    match a
    case Found(s) => b.Found? && Agrees(pool, known, all, s, b.at)
    case Missing => b.Missing?
    case Panic => false
  }

  lemma UnlinkedField(t: Prop, c: string)
    requires Unlinked(t) && t.PObject? && c in t.fields
    ensures Unlinked(t.fields[c])
  {
    assert Erase(t).fields[c] == Erase(t.fields[c]);
  }

  /** Taking the links off a linked object gives back the template's object. */
  lemma ErasedObject(known: Cycles, r: Resource, o: string, t: Prop, p: Prop)
    requires t.PObject? && Unlinked(t) && LinkedObject(known, r, o, t, p)
    ensures Erase(p) == t
  {
    forall c | c in t.fields
      ensures Erase(p.fields[c]) == t.fields[c]
    {
      UnlinkedField(t, c);
      assert LinkedChild(known, r, o, c, t.fields[c], p.fields[c]);
    }
    assert Erase(p).fields == t.fields;
  }

  /** Entering a property that linking has not touched. */
  lemma EnterPlain(pool: Pool, known: Cycles, all: set<Resource>, r: Resource, field: string, t: Prop)
    requires r in all && r.name in pool && !pool[r.name].isCollection && NavFree(t) && Unlinked(t)
    ensures !IsNav(t)
    ensures SameOutcome(pool, known, all, if Walkable(t) then Found(Inside(r, t)) else Missing,
                        LazyEnter(known, r.name, field, t))
  {
    if t.PObject? {
      forall c | c in t.fields
        ensures Unlinked(t.fields[c])
      {
        UnlinkedField(t, c);
      }
    }
  }

  /** A link that the tree has, and the name that the pool has for it. */
  lemma EnterLink(pool: Pool, known: Cycles, all: set<Resource>, r: Resource, slot: Slot, field: string, t: Prop,
                  p: Prop)
    requires IsNav(t) && p.PLink? && p.link in all && Points(r, p.link, slot, RefName(known, r.name, field, t.target))
    ensures SameOutcome(pool, known, all, Found(At(p.link)), LazyEnter(known, r.name, field, t))
  {
  }

  /** One step at a child of a linked object. */
  lemma StepChild(pool: Pool, known: Cycles, rank: map<string, nat>, all: set<Resource>, r: Resource, o: string,
                  t: Prop, p: Prop, c: string, a: Outcome<Position>)
    requires PoolOk(pool, known, rank) && Detected(pool) && r in all && r.name in pool && !pool[r.name].isCollection
    requires TopObject(pool, known, r, o, t, p) && c in t.fields && c in p.fields
    requires p.fields[c].PLink? && p.fields[c].link != null ==> p.fields[c].link in all
    requires a == if IsNav(p.fields[c]) then (if p.fields[c].link == null then Panic else Found(At(p.fields[c].link)))
                  else if Walkable(p.fields[c]) then Found(Inside(r, p.fields[c])) else Missing
    ensures SameOutcome(pool, known, all, a, LazyEnter(known, r.name, c, t.fields[c]))
  {
    assert TemplateOk(pool, known, rank, r.name) && Shallow(o, pool[r.name].props[o]);
    UnlinkedField(t, c);
    assert LinkedChild(known, r, o, c, t.fields[c], p.fields[c]);
    if IsNav(t.fields[c]) {
      EnterLink(pool, known, all, r, ChildOf(o, c), c, t.fields[c], p.fields[c]);
    } else {
      PlainLink(t.fields[c]);
      EnterPlain(pool, known, all, r, c, t.fields[c]);
    }
  }

  lemma PlainLink(t: Prop)
    requires t.PLink? || NavFree(t)
    ensures IsNav(t) || NavFree(t)
  {
  }

  /** One step inside an object. */
  lemma StepInside(pool: Pool, known: Cycles, rank: map<string, nat>, all: set<Resource>, cb: Callback, path: string,
                   r: Resource, t: Prop, p: Prop, token: string)
    requires PoolOk(pool, known, rank) && Detected(pool) && VisitedOk(pool, known, all, all)
    requires Agrees(pool, known, all, Inside(r, p), InTemplate(r.name, t))
    ensures SameOutcome(pool, known, all, Step(cb, path, Inside(r, p), token),
                        LazyStep(pool, known, cb, path, InTemplate(r.name, t), token))
  {
    assert Linked(pool, known, r) && Closed(r, all);
    if t.PObject? && (token in t.fields || "#" + token in t.fields) {
      var c := if token in t.fields then token else "#" + token;
      if o :| TopObject(pool, known, r, o, t, p) {
        StepChild(pool, known, rank, all, r, o, t, p, c, Step(cb, path, Inside(r, p), token));
      } else {
        UnlinkedField(t, c);
        EnterPlain(pool, known, all, r, c, t.fields[c]);
      }
    }
  }

  /** One step at a resource that is not a collection. */
  lemma StepAt(pool: Pool, known: Cycles, rank: map<string, nat>, all: set<Resource>, cb: Callback, path: string,
               r: Resource, token: string)
    requires PoolOk(pool, known, rank) && Detected(pool) && VisitedOk(pool, known, all, all)
    requires r in all && r.name in pool && !pool[r.name].isCollection
    ensures SameOutcome(pool, known, all, Step(cb, path, At(r), token),
                        LazyStep(pool, known, cb, path, OnTemplate(r.name), token))
  {
    var t := pool[r.name];
    assert Linked(pool, known, r) && Closed(r, all) && TemplateOk(pool, known, rank, r.name);
    if token in t.props {
      OwnLink(known, r, t, r.props, token);
      assert Shallow(token, pool[r.name].props[token]);
      StepField(pool, known, rank, all, r, token, t.props[token], r.props[token]);
    } else if o :| IsAlias(known, r.name, t, o, token) {
      AliasLink(known, r, t, r.props, o, token);
      EnterLink(pool, known, all, r, ChildOf(o, token), token, t.props[o].fields[token], r.props[token]);
    }
  }

  /** Entering a property of the resource's own template. */
  lemma StepField(pool: Pool, known: Cycles, rank: map<string, nat>, all: set<Resource>, r: Resource, f: string,
                  t: Prop, p: Prop)
    requires r in all && r.name in pool && !pool[r.name].isCollection && f in pool[r.name].props &&
             pool[r.name].props[f] == t
    requires Unlinked(t) && Shallow(f, t) && LinkedProp(known, r, f, t, p)
    requires p.PLink? && p.link != null ==> p.link in all
    requires ChildLinksIn(p, all)
    ensures SameOutcome(pool, known, all,
                        if IsNav(p) then (if p.link == null then Panic else Found(At(p.link)))
                        else if Walkable(p) then Found(Inside(r, p)) else Missing,
                        LazyEnter(known, r.name, f, t))
  {
    if t.PObject? && f != LINKS {
      ErasedObject(known, r, f, t, p);
      assert TopObject(pool, known, r, f, t, p);
    } else if IsNav(t) {
      EnterLink(pool, known, all, r, Field(f), f, t, p);
    } else if !t.PArray? {
      EnterPlain(pool, known, all, r, f, t);
    }
  }

  /** One step, anywhere. */
  lemma StepAgrees(pool: Pool, known: Cycles, rank: map<string, nat>, all: set<Resource>, cb: Callback, path: string,
                   s: Position, l: Spot, token: string)
    requires PoolOk(pool, known, rank) && Detected(pool) && VisitedOk(pool, known, all, all) &&
             Agrees(pool, known, all, s, l)
    ensures SameOutcome(pool, known, all, Step(cb, path, s, token), LazyStep(pool, known, cb, path, l, token))
  {
    assert Linked(pool, known, s.r) && Closed(s.r, all);
    if s.Inside? {
      StepInside(pool, known, rank, all, cb, path, s.r, l.t, s.p, token);
    } else if s.r.name in pool && !pool[s.r.name].isCollection {
      StepAt(pool, known, rank, all, cb, path, s.r, token);
    }
  }

  lemma {:induction false} FollowAgrees(pool: Pool, known: Cycles, rank: map<string, nat>, all: set<Resource>,
                                        cb: Callback,
                                        tokens: seq<string>, i: nat, s: Position, l: Spot)
    requires i <= |tokens| && PoolOk(pool, known, rank) && Detected(pool) && VisitedOk(pool, known, all, all)
    requires Agrees(pool, known, all, s, l)
    ensures SameOutcome(pool, known, all, Follow(cb, tokens, i, s), LazyFollow(pool, known, cb, tokens, i, l))
    decreases |tokens| - i
  {
    if i < |tokens| {
      var path := BuildPath(tokens[..i]);
      StepAgrees(pool, known, rank, all, cb, path, s, l, tokens[i]);
      var next := Step(cb, path, s, tokens[i]);
      if next.Found? {
        FollowAgrees(pool, known, rank, all, cb, tokens, i + 1, next.at,
                     LazyStep(pool, known, cb, path, l, tokens[i]).at);
      }
    }
  }

  /** On a linked tree every list of tokens resolves as it does in the pool, and never panics. */
  lemma EagerIsLazy(pool: Pool, known: Cycles, rank: map<string, nat>, root: Resource, all: set<Resource>, cb: Callback,
                    tokens: seq<string>)
    requires PoolOk(pool, known, rank) && Detected(pool) && Tree(pool, known, root, all)
    ensures SameOutcome(pool, known, all, Resolve(cb, root, tokens), LazyResolve(pool, known, cb, tokens))
  {
    FollowAgrees(pool, known, rank, all, cb, tokens, 0, At(root), OnTemplate(SERVICE_ROOT));
  }
}
