/** `linkDFS`: unfolding the pool of templates into a tree of fresh copies. */
module Linker {
  import opened SchemaTree

  // ---------- Linked and unlinked copies ----------

  ghost predicate Points(r: Resource, x: Resource?, slot: Slot, name: string) {
    x != null && x.owner == r && x.slot == slot && x.name == name
  }

  ghost predicate LinkedChild(known: Cycles, r: Resource, o: string, c: string, t: Prop, p: Prop) {
    if IsNav(t) then
      p.PLink? && p == PLink(true, t.target, p.link) &&
      Points(r, p.link, ChildOf(o, c), RefName(known, r.name, c, t.target))
    else p == t
  }

  ghost predicate LinkedObject(known: Cycles, r: Resource, o: string, t: Prop, p: Prop)
    requires t.PObject?
  {
    && p.PObject? && p.fields.Keys == t.fields.Keys
    && forall c :: c in t.fields ==> LinkedChild(known, r, o, c, t.fields[c], p.fields[c])
  }

  /** Property `p` of `r` is the template's property `t` with its links filled in. */
  ghost predicate LinkedProp(known: Cycles, r: Resource, f: string, t: Prop, p: Prop) {
    match t
    case PLink(isNav, target, _) =>
      if isNav then p.PLink? && p == PLink(true, target, p.link) &&
         Points(r, p.link, Field(f), RefName(known, r.name, f, target))
      else p == t
    case PArray(navArray, target, _) =>
      if navArray then p.PArray? && p == PArray(true, target, p.elementLink) &&
         Points(r, p.elementLink, Field(f), target)
      else p == t
    case PObject(_) => if f == LINKS then p == t else LinkedObject(known, r, f, t, p)
    case PLeaf(_) => p == t
  }

  /** The template's properties with their links, and the links of its objects once more. */
  ghost predicate LinkedProps(known: Cycles, r: Resource, t: Template, props: map<string, Prop>) {
    && t.props.Keys <= props.Keys
    && (forall f {:trigger props[f]} :: f in t.props ==> LinkedProp(known, r, f, t.props[f], props[f]))
    && (forall o, c {:trigger IsAlias(known, r.name, t, o, c)} :: IsAlias(known, r.name, t, o, c) ==>
          o in props && props[o].PObject? && c in props[o].fields && c in props && props[c] == props[o].fields[c])
    && (forall k :: k in props ==> k in t.props || exists o :: IsAlias(known, r.name, t, o, k))
  }

  lemma OwnLink(known: Cycles, r: Resource, t: Template, props: map<string, Prop>, f: string)
    requires LinkedProps(known, r, t, props) && f in t.props
    ensures f in props && LinkedProp(known, r, f, t.props[f], props[f])
  {
    assert f in props.Keys;
  }

  /** The second name of a link inside an object. */
  lemma AliasLink(known: Cycles, r: Resource, t: Template, props: map<string, Prop>, o: string, c: string)
    requires LinkedProps(known, r, t, props) && IsAlias(known, r.name, t, o, c)
    ensures c in props && props[c].PLink? && IsNav(props[c])
    ensures Points(r, props[c].link, ChildOf(o, c), t.props[o].fields[c].target)
  {
    assert o in props && props[o].PObject? && c in props[o].fields;
    assert LinkedProp(known, r, o, t.props[o], props[o]);
    assert LinkedChild(known, r, o, c, t.props[o].fields[c], props[o].fields[c]);
  }

  ghost predicate Linked(pool: Pool, known: Cycles, r: Resource)
    reads r`props, r`collectionOf
  {
    if r.name !in pool then r.name == CYCLE && !r.isCollection && r.props == map[]
    else
      var t := pool[r.name];
      && r.isCollection == t.isCollection
      && (if t.isCollection then r.props == t.props && Points(r, r.collectionOf, Member, MemberType(r.name))
          else LinkedProps(known, r, t, r.props))
  }

  /** A copy that has not been visited yet. */
  ghost predicate Pristine(pool: Pool, r: Resource)
    reads r`props, r`collectionOf
  {
    && r.collectionOf == null
    && (if r.name in pool then r.isCollection == pool[r.name].isCollection && r.props == pool[r.name].props
        else r.name == CYCLE && !r.isCollection && r.props == map[])
  }

  // ---------- Copies ----------

  method CopyResource(from: Resource, ghost owner: Resource?, ghost slot: Slot) returns (to: Resource)
    requires from.collectionOf == null && forall f :: f in from.props ==> Unlinked(from.props[f])
    ensures fresh(to) && to.name == from.name && to.isCollection == from.isCollection
    ensures to.props == from.props && to.collectionOf == null
    ensures to.owner == owner && to.slot == slot && to.instanceID == from.instanceID
  {
    to := new Resource(from.name, from.isCollection, from.props, from.instanceID, owner, slot);
  }

  /** A fresh copy of the target, or the marker of a known cycle. */
  method LinkNavProperty(templates: map<string, Resource>, known: Cycles, r: Resource, field: string, target: string,
                         ghost slot: Slot, ghost pool: Pool, ghost rank: map<string, nat>) returns (x: Resource)
    requires Holds(templates, pool) && PoolOk(pool, known, rank) && target in templates
    requires IsCycle(known, r.name, field, target) || r.name != target
    modifies (set n | n in templates :: templates[n])`instanceID
    ensures fresh(x) && Pristine(pool, x)
    ensures Points(r, x, slot, RefName(known, r.name, field, target))
  {
    if IsCycle(known, r.name, field, target) {
      x := new Resource(CYCLE, false, map[], 0, r, slot);
    } else {
      x := CopyTemplate(templates, target, r, slot, pool, known, rank);
    }
  }

  /** Counts one more instance of a template and copies it. */
  method CopyTemplate(templates: map<string, Resource>, target: string, ghost owner: Resource?, ghost slot: Slot,
                      ghost pool: Pool, ghost known: Cycles, ghost rank: map<string, nat>) returns (x: Resource)
    requires Holds(templates, pool) && PoolOk(pool, known, rank) && target in templates
    modifies (set n | n in templates :: templates[n])`instanceID
    ensures fresh(x) && Pristine(pool, x) && x.owner == owner && x.slot == slot && x.name == target
    ensures x.instanceID == templates[target].instanceID == old(templates[target].instanceID) + 1
  {
    assert TemplateOk(pool, known, rank, target);
    templates[target].instanceID := templates[target].instanceID + 1;
    x := CopyResource(templates[target], owner, slot);
  }

  /** All of `xs` belong to distinct slots of `r` and lie below it. */
  ghost predicate Pushed(rank: map<string, nat>, r: Resource, t: Template, xs: seq<Resource>) {
    && (forall x {:trigger x in xs} :: x in xs ==>
          x.owner == r && IsSlot(t, x.slot) && Level(rank, x.name) < Level(rank, r.name))
    && (forall i, j :: 0 <= i < j < |xs| ==> xs[i].slot != xs[j].slot)
  }

  lemma PushedMore(rank: map<string, nat>, r: Resource, t: Template, xs: seq<Resource>, x: Resource)
    requires Pushed(rank, r, t, xs)
    requires x.owner == r && IsSlot(t, x.slot) && Level(rank, x.name) < Level(rank, r.name)
    requires forall y :: y in xs ==> y.slot != x.slot
    ensures Pushed(rank, r, t, [x] + xs)
  {
    var all := [x] + xs;
    forall i, j | 0 <= i < j < |all|
      ensures all[i].slot != all[j].slot
    {
      assert all[j] in xs;
    }
  }

  /** One above the rank for a template, zero for the cycle marker. */
  ghost function Level(rank: map<string, nat>, name: string): nat {
    if name in rank then rank[name] + 1 else 0
  }

  /** Every resource that `p` refers to is among `xs`. */
  ghost predicate LinkIn(p: Prop, xs: seq<Resource>) {
    (p.PLink? && p.link != null ==> p.link in xs) && (p.PArray? && p.elementLink != null ==> p.elementLink in xs)
  }

  ghost predicate LinksIn(p: Prop, xs: seq<Resource>) {
    LinkIn(p, xs) && (p.PObject? ==> forall c :: c in p.fields ==> LinkIn(p.fields[c], xs))
  }

  lemma UnlinkedLinksIn(p: Prop, xs: seq<Resource>)
    requires Unlinked(p)
    ensures LinksIn(p, xs)
  {
    if p.PObject? {
      forall c | c in p.fields
        ensures Unlinked(p.fields[c])
      {
        assert Erase(p).fields[c] == Erase(p.fields[c]);
      }
    }
  }

  lemma ChildTarget(pool: Pool, known: Cycles, rank: map<string, nat>, name: string, o: string, c: string)
    requires PoolOk(pool, known, rank) && name in pool && !pool[name].isCollection && NavChild(pool[name], o, c)
    ensures var target := pool[name].props[o].fields[c].target;
            && target in pool && (IsCycle(known, name, c, target) || target != name)
            && Level(rank, RefName(known, name, c, target)) < Level(rank, name)
            && IsSlot(pool[name], ChildOf(o, c))
  {
    assert TemplateOk(pool, known, rank, name);
  }

  lemma FieldTarget(pool: Pool, known: Cycles, rank: map<string, nat>, name: string, f: string)
    requires PoolOk(pool, known, rank) && name in pool && !pool[name].isCollection && NavField(pool[name], f)
    ensures var target := pool[name].props[f].target;
            && target in pool && (IsCycle(known, name, f, target) || target != name)
            && Level(rank, RefName(known, name, f, target)) < Level(rank, name)
  {
    assert TemplateOk(pool, known, rank, name);
  }

  lemma ArrayTarget(pool: Pool, known: Cycles, rank: map<string, nat>, name: string, f: string)
    requires PoolOk(pool, known, rank) && name in pool && !pool[name].isCollection && NavArray(pool[name], f)
    ensures var target := pool[name].props[f].elementType;
            target in pool && Level(rank, target) < Level(rank, name)
  {
    assert TemplateOk(pool, known, rank, name);
  }

  // ---------- One resource ----------

  /** The state of the loop over the members of object `o`: those in `todo` are left. */
  ghost predicate PartlyObject(known: Cycles, r: Resource, o: string, template: map<string, Prop>,
                               fields: map<string, Prop>, aliases: map<string, Prop>,
                               pushed: seq<Resource>, todo: set<string>) {
    && fields.Keys == template.Keys && todo <= template.Keys
    && (forall c :: c in template ==>
          if c in todo then fields[c] == template[c] else LinkedChild(known, r, o, c, template[c], fields[c]))
    && (forall c :: c in template ==> LinkIn(fields[c], pushed))
    && (forall c :: c in aliases <==>
          c in template && c !in todo && IsNav(template[c]) && !IsCycle(known, r.name, c, template[c].target))
    && (forall c :: c in aliases ==> aliases[c] == fields[c])
    && (forall x {:trigger x in pushed} :: x in pushed ==>
          x.slot.ChildOf? && x.slot.inside == o && x.slot.name !in todo)
  }

  lemma ObjectStep(known: Cycles, r: Resource, o: string, template: map<string, Prop>,
                   fields: map<string, Prop>, aliases: map<string, Prop>, pushed: seq<Resource>, todo: set<string>,
                   c: string, x: Resource)
    requires PartlyObject(known, r, o, template, fields, aliases, pushed, todo) && c in todo && IsNav(template[c])
    requires Points(r, x, ChildOf(o, c), RefName(known, r.name, c, template[c].target))
    ensures var child := PLink(true, template[c].target, x);
            PartlyObject(known, r, o, template, fields[c := child],
                         if IsCycle(known, r.name, c, template[c].target) then aliases else aliases[c := child],
                         [x] + pushed, todo - {c})
  {
    assert forall y :: y in [x] + pushed <==> y == x || y in pushed;
  }

  lemma ObjectSkip(known: Cycles, r: Resource, o: string, template: map<string, Prop>,
                   fields: map<string, Prop>, aliases: map<string, Prop>,
                   pushed: seq<Resource>, todo: set<string>, c: string)
    requires PartlyObject(known, r, o, template, fields, aliases, pushed, todo) && c in todo && !IsNav(template[c])
    ensures PartlyObject(known, r, o, template, fields, aliases, pushed, todo - {c})
  {
  }

  /** One member of an object property. */
  method LinkChild(templates: map<string, Resource>, known: Cycles, r: Resource, o: string, template: map<string, Prop>,
                   fields: map<string, Prop>, aliases: map<string, Prop>,
                   pushed: seq<Resource>, ghost todo: set<string>, c: string,
                   ghost pool: Pool, ghost rank: map<string, nat>)
    returns (fields': map<string, Prop>, aliases': map<string, Prop>, pushed': seq<Resource>)
    requires Holds(templates, pool) && PoolOk(pool, known, rank)
    requires r.name in pool && !pool[r.name].isCollection
    requires o != LINKS && o in pool[r.name].props && pool[r.name].props[o] == PObject(template)
    requires Pushed(rank, r, pool[r.name], pushed)
    requires c in todo && PartlyObject(known, r, o, template, fields, aliases, pushed, todo)
    modifies (set n | n in templates :: templates[n])`instanceID
    ensures forall x {:trigger x in pushed'} :: x in pushed' ==> x in pushed || (fresh(x) && Pristine(pool, x))
    ensures Pushed(rank, r, pool[r.name], pushed')
    ensures PartlyObject(known, r, o, template, fields', aliases', pushed', todo - {c})
  {
    var child := template[c];
    if child.PLink? && child.isNav {
      ChildTarget(pool, known, rank, r.name, o, c);
      var x := LinkNavProperty(templates, known, r, c, child.target, ChildOf(o, c), pool, rank);
      ObjectStep(known, r, o, template, fields, aliases, pushed, todo, c, x);
      PushedMore(rank, r, pool[r.name], pushed, x);
      fields' := fields[c := PLink(true, child.target, x)];
      aliases' := if IsCycle(known, r.name, c, child.target) then aliases
                  else aliases[c := PLink(true, child.target, x)];
      pushed' := [x] + pushed;
    } else {
      ObjectSkip(known, r, o, template, fields, aliases, pushed, todo, c);
      fields', aliases', pushed' := fields, aliases, pushed;
    }
  }

  /** The links inside one object property. */
  method LinkObject(templates: map<string, Resource>, known: Cycles, r: Resource, o: string,
                    template: map<string, Prop>,
                    ghost pool: Pool, ghost rank: map<string, nat>)
    returns (fields: map<string, Prop>, aliases: map<string, Prop>, pushed: seq<Resource>)
    requires Holds(templates, pool) && PoolOk(pool, known, rank)
    requires r.name in pool && !pool[r.name].isCollection
    requires o != LINKS && o in pool[r.name].props && pool[r.name].props[o] == PObject(template)
    modifies (set n | n in templates :: templates[n])`instanceID
    ensures forall x {:trigger x in pushed} :: x in pushed ==> fresh(x) && Pristine(pool, x)
    ensures Pushed(rank, r, pool[r.name], pushed)
    ensures PartlyObject(known, r, o, template, fields, aliases, pushed, {})
  {
    fields, aliases, pushed := template, map[], [];
    UnlinkedObject(pool, known, rank, r.name, o);
    var todo := template.Keys;
    while todo != {}
      invariant forall x {:trigger x in pushed} :: x in pushed ==> fresh(x) && Pristine(pool, x)
      invariant Pushed(rank, r, pool[r.name], pushed)
      invariant PartlyObject(known, r, o, template, fields, aliases, pushed, todo)
      decreases |todo|
    {
      var c :| c in todo;
      fields, aliases, pushed :=
        LinkChild(templates, known, r, o, template, fields, aliases, pushed, todo, c, pool, rank);
      todo := todo - {c};
    }
  }

  lemma UnlinkedObject(pool: Pool, known: Cycles, rank: map<string, nat>, name: string, o: string)
    requires PoolOk(pool, known, rank) && name in pool && o in pool[name].props && pool[name].props[o].PObject?
    ensures forall c :: c in pool[name].props[o].fields ==> LinkIn(pool[name].props[o].fields[c], [])
  {
    assert TemplateOk(pool, known, rank, name);
    UnlinkedLinksIn(pool[name].props[o], []);
  }

  ghost predicate SlotIn(slot: Slot, done: set<string>) {
    match slot
    case Field(f) => f in done
    case ChildOf(o, _) => o in done
    case _ => false
  }

  /** The properties `done` have been linked, the others are still the template's. */
  ghost predicate PartlyLinked(known: Cycles, r: Resource, t: Template, props: map<string, Prop>, done: set<string>) {
    && props.Keys == t.props.Keys
    && (forall f {:trigger props[f]} :: f in t.props ==>
          if f in done then LinkedProp(known, r, f, t.props[f], props[f]) else props[f] == t.props[f])
  }

  /** `aliases` are the links inside the objects of `done`; `home` says in which object each is. */
  ghost predicate PartlyAliased(known: Cycles, name: string, t: Template, props: map<string, Prop>,
                                aliases: map<string, Prop>, home: map<string, string>, done: set<string>) {
    && home.Keys == aliases.Keys
    && (forall c :: c in aliases ==>
          && home[c] in done && IsAlias(known, name, t, home[c], c)
          && home[c] in props && props[home[c]].PObject? && c in props[home[c]].fields
          && aliases[c] == props[home[c]].fields[c])
    && (forall o, c {:trigger IsAlias(known, name, t, o, c)} :: o in done && IsAlias(known, name, t, o, c) ==>
          c in aliases)
  }

  /** Every new resource belongs to a handled property, and every link leads to one. */
  ghost predicate PartlyPushed(props: map<string, Prop>, pushed: seq<Resource>, done: set<string>) {
    && (forall f {:trigger props[f]} :: f in props ==> LinksIn(props[f], pushed))
    && (forall x {:trigger x in pushed} :: x in pushed ==> SlotIn(x.slot, done))
  }

  lemma LinksInMore(p: Prop, xs: seq<Resource>, ys: seq<Resource>)
    requires LinksIn(p, xs)
    ensures LinksIn(p, ys + xs)
  {
  }

  lemma PushedStep(props: map<string, Prop>, pushed: seq<Resource>, done: set<string>, f: string, p: Prop,
                   inner: seq<Resource>)
    requires PartlyPushed(props, pushed, done) && LinksIn(p, inner)
    requires forall x {:trigger x in inner} :: x in inner ==> SlotIn(x.slot, {f})
    ensures PartlyPushed(props[f := p], inner + pushed, done + {f})
  {
    forall g {:trigger props[f := p][g]} | g in props[f := p]
      ensures LinksIn(props[f := p][g], inner + pushed)
    {
      if g != f {
        LinksInMore(props[g], pushed, inner);
      }
    }
    forall x {:trigger x in inner + pushed} | x in inner + pushed
      ensures SlotIn(x.slot, done + {f})
    {
      assert x in inner || x in pushed;
    }
  }

  /** A property that is not an object leaves the aliases alone. */
  lemma SameAliases(known: Cycles, name: string, t: Template, props: map<string, Prop>, aliases: map<string, Prop>,
                    home: map<string, string>, done: set<string>, f: string, p: Prop)
    requires PartlyAliased(known, name, t, props, aliases, home, done)
    requires f in t.props && (f == LINKS || !t.props[f].PObject?)
    ensures PartlyAliased(known, name, t, props[f := p], aliases, home, done + {f})
  {
  }

  /** `home'` also knows where the aliases `more` live. */
  ghost predicate Extends(home: map<string, string>, home': map<string, string>, more: map<string, Prop>, o: string) {
    && home'.Keys == home.Keys + more.Keys
    && (forall c :: c in more ==> home'[c] == o)
    && (forall c :: c in home && c !in more ==> home'[c] == home[c])
  }

  lemma MoreAliases(known: Cycles, name: string, t: Template, props: map<string, Prop>, aliases: map<string, Prop>,
                    home: map<string, string>, home': map<string, string>, done: set<string>, o: string,
                    fields: map<string, Prop>, more: map<string, Prop>)
    requires PartlyAliased(known, name, t, props, aliases, home, done) && o !in done && Extends(home, home', more, o)
    requires forall c :: c in more <==> IsAlias(known, name, t, o, c)
    requires forall c :: c in more ==> c in fields && more[c] == fields[c] && c !in aliases
    ensures PartlyAliased(known, name, t, props[o := PObject(fields)], aliases + more, home', done + {o})
  {
    var props', aliases' := props[o := PObject(fields)], aliases + more;
    forall c | c in aliases'
      ensures home'[c] in done + {o} && IsAlias(known, name, t, home'[c], c)
      ensures home'[c] in props' && props'[home'[c]].PObject? && c in props'[home'[c]].fields &&
              aliases'[c] == props'[home'[c]].fields[c]
    {
      assert c in more || c in aliases;
    }
  }

  /** No two objects of a template give rise to the same alias. */
  lemma AliasUnique(pool: Pool, known: Cycles, rank: map<string, nat>, name: string, props: map<string, Prop>,
                    aliases: map<string, Prop>, home: map<string, string>, done: set<string>, o: string, c: string)
    requires PoolOk(pool, known, rank) && name in pool && !pool[name].isCollection && o !in done
    requires PartlyAliased(known, name, pool[name], props, aliases, home, done) &&
             IsAlias(known, name, pool[name], o, c)
    ensures c !in aliases && c !in pool[name].props
  {
    assert TemplateOk(pool, known, rank, name);
    assert forall o' :: IsAlias(known, name, pool[name], o', c) ==> o' == o;
  }

  lemma PushedBoth(rank: map<string, nat>, r: Resource, t: Template, xs: seq<Resource>, ys: seq<Resource>,
                   done: set<string>, f: string)
    requires Pushed(rank, r, t, xs) && Pushed(rank, r, t, ys) && f !in done
    requires forall x {:trigger x in xs} :: x in xs ==> SlotIn(x.slot, {f})
    requires forall y {:trigger y in ys} :: y in ys ==> SlotIn(y.slot, done)
    ensures Pushed(rank, r, t, xs + ys)
  {
    var all := xs + ys;
    assert forall x :: x in all ==> x in xs || x in ys;
    forall i, j | 0 <= i < j < |all|
      ensures all[i].slot != all[j].slot
    {
      if i < |xs| <= j {
        assert all[i] in xs && all[j] in ys;
      }
    }
  }

  /** One property of the visited resource: its linked form, the aliases it gives rise to,
      and the new resources. */
  method LinkProperty(templates: map<string, Resource>, known: Cycles, r: Resource, f: string, p: Prop,
                      ghost pool: Pool, ghost rank: map<string, nat>)
    returns (p': Prop, aliases: map<string, Prop>, pushed: seq<Resource>)
    requires Holds(templates, pool) && PoolOk(pool, known, rank)
    requires r.name in pool && !pool[r.name].isCollection && f in pool[r.name].props && p == pool[r.name].props[f]
    modifies (set n | n in templates :: templates[n])`instanceID
    ensures LinkedProp(known, r, f, p, p') && LinksIn(p', pushed) && Pushed(rank, r, pool[r.name], pushed)
    ensures forall x {:trigger x in pushed} :: x in pushed ==> fresh(x) && Pristine(pool, x) && SlotIn(x.slot, {f})
    ensures forall c :: c in aliases <==> IsAlias(known, r.name, pool[r.name], f, c)
    ensures forall c :: c in aliases ==> p'.PObject? && c in p'.fields && aliases[c] == p'.fields[c]
  {
    assert TemplateOk(pool, known, rank, r.name);
    UnlinkedLinksIn(p, []);
    p', aliases, pushed := p, map[], [];
    if p.PLink? && p.isNav {
      FieldTarget(pool, known, rank, r.name, f);
      var x := LinkNavProperty(templates, known, r, f, p.target, Field(f), pool, rank);
      p', pushed := PLink(true, p.target, x), [x];
    } else if f != LINKS && p.PObject? {
      var fields;
      fields, aliases, pushed := LinkObject(templates, known, r, f, p.fields, pool, rank);
      p' := PObject(fields);
      ObjectIsLinked(known, r, pool[r.name], f, fields, aliases, pushed);
    } else if p.PArray? && p.navArray {
      ArrayTarget(pool, known, rank, r.name, f);
      var x := CopyTemplate(templates, p.elementType, r, Field(f), pool, known, rank);
      p', pushed := PArray(true, p.elementType, x), [x];
    }
  }

  lemma ObjectIsLinked(known: Cycles, r: Resource, t: Template, o: string, fields: map<string, Prop>,
                       aliases: map<string, Prop>,
                       pushed: seq<Resource>)
    requires o in t.props && o != LINKS && t.props[o].PObject?
    requires PartlyObject(known, r, o, t.props[o].fields, fields, aliases, pushed, {})
    ensures LinkedProp(known, r, o, t.props[o], PObject(fields)) && LinksIn(PObject(fields), pushed)
    ensures forall c :: c in aliases <==> IsAlias(known, r.name, t, o, c)
    ensures forall c :: c in aliases ==> c in fields && aliases[c] == fields[c]
  {
  }

  lemma LinkedStep(known: Cycles, r: Resource, t: Template, props: map<string, Prop>, done: set<string>, f: string,
                   p: Prop)
    requires PartlyLinked(known, r, t, props, done) && f in t.props && LinkedProp(known, r, f, t.props[f], p)
    ensures PartlyLinked(known, r, t, props[f := p], done + {f})
  {
  }

  lemma AliasedStep(pool: Pool, known: Cycles, rank: map<string, nat>, name: string, props: map<string, Prop>,
                    aliases: map<string, Prop>, home: map<string, string>,
                    home': map<string, string>, done: set<string>,
                    f: string, p: Prop, more: map<string, Prop>)
    requires PoolOk(pool, known, rank) && name in pool && !pool[name].isCollection && f in pool[name].props &&
             f !in done
    requires PartlyAliased(known, name, pool[name], props, aliases, home, done) && Extends(home, home', more, f)
    requires forall c :: c in more <==> IsAlias(known, name, pool[name], f, c)
    requires forall c :: c in more ==> p.PObject? && c in p.fields && more[c] == p.fields[c]
    requires pool[name].props[f].PObject? ==> p.PObject?
    ensures PartlyAliased(known, name, pool[name], props[f := p], aliases + more, home', done + {f})
  {
    if f != LINKS && pool[name].props[f].PObject? {
      forall c | c in more
        ensures c !in aliases
      {
        AliasUnique(pool, known, rank, name, props, aliases, home, done, f, c);
      }
      MoreAliases(known, name, pool[name], props, aliases, home, home', done, f, p.fields, more);
    } else {
      assert more == map[];
      assert aliases + more == aliases && home' == home;
      SameAliases(known, name, pool[name], props, aliases, home, done, f, p);
    }
  }

  /** Mentioning `Open` unfolds the loop state below, which is otherwise carried as it is. */
  ghost predicate Open(u: bool) {
    true
  }

  /** The whole state of the loop over the properties. */
  ghost predicate Filled(pool: Pool, known: Cycles, rank: map<string, nat>, r: Resource, props: map<string, Prop>,
                         aliases: map<string, Prop>, home: map<string, string>,
                         pushed: seq<Resource>, done: set<string>)
    requires r.name in pool
  {
    forall u {:trigger Open(u)} :: Open(u) ==>
      && PartlyLinked(known, r, pool[r.name], props, done)
      && PartlyAliased(known, r.name, pool[r.name], props, aliases, home, done)
      && PartlyPushed(props, pushed, done) && Pushed(rank, r, pool[r.name], pushed)
  }

  lemma FilledStart(pool: Pool, known: Cycles, rank: map<string, nat>, r: Resource)
    requires PoolOk(pool, known, rank) && r.name in pool && !pool[r.name].isCollection
    ensures Filled(pool, known, rank, r, pool[r.name].props, map[], map[], [], {})
  {
    StartPushed(pool, known, rank, r.name);
  }

  lemma FilledStep(pool: Pool, known: Cycles, rank: map<string, nat>, r: Resource, props: map<string, Prop>,
                   aliases: map<string, Prop>, home: map<string, string>,
                   home': map<string, string>, pushed: seq<Resource>,
                   done: set<string>, f: string, p: Prop, more: map<string, Prop>, inner: seq<Resource>)
    requires PoolOk(pool, known, rank) && r.name in pool && !pool[r.name].isCollection && f in pool[r.name].props &&
             f !in done
    requires Filled(pool, known, rank, r, props, aliases, home, pushed, done) && Extends(home, home', more, f)
    requires LinkedProp(known, r, f, pool[r.name].props[f], p) && LinksIn(p, inner) &&
             Pushed(rank, r, pool[r.name], inner)
    requires forall x {:trigger x in inner} :: x in inner ==> SlotIn(x.slot, {f})
    requires forall c :: c in more <==> IsAlias(known, r.name, pool[r.name], f, c)
    requires forall c :: c in more ==> p.PObject? && c in p.fields && more[c] == p.fields[c]
    ensures Filled(pool, known, rank, r, props[f := p], aliases + more, home', inner + pushed, done + {f})
  {
    assert Open(true);
    LinkedStep(known, r, pool[r.name], props, done, f, p);
    AliasedStep(pool, known, rank, r.name, props, aliases, home, home', done, f, p, more);
    PushedStep(props, pushed, done, f, p, inner);
    PushedBoth(rank, r, pool[r.name], inner, pushed, done, f);
  }

  lemma FilledEnd(pool: Pool, known: Cycles, rank: map<string, nat>, r: Resource, props: map<string, Prop>,
                  aliases: map<string, Prop>, home: map<string, string>, pushed: seq<Resource>)
    requires PoolOk(pool, known, rank) && r.name in pool && !pool[r.name].isCollection
    requires Filled(pool, known, rank, r, props, aliases, home, pushed, pool[r.name].props.Keys)
    ensures LinkedProps(known, r, pool[r.name], props + aliases) && Pushed(rank, r, pool[r.name], pushed)
    ensures forall f {:trigger (props + aliases)[f]} :: f in props + aliases ==> LinksIn((props + aliases)[f], pushed)
  {
    assert Open(true);
    AllLinked(pool, known, rank, r, props, aliases, home, pushed);
  }

  /** One round of the loop over the properties. */
  method LinkNext(templates: map<string, Resource>, known: Cycles, r: Resource, f: string, p: Prop,
                  props: map<string, Prop>, aliases: map<string, Prop>, ghost home: map<string, string>,
                  pushed: seq<Resource>, ghost done: set<string>, ghost pool: Pool, ghost rank: map<string, nat>)
    returns (props': map<string, Prop>, aliases': map<string, Prop>, ghost home': map<string, string>,
             pushed': seq<Resource>)
    requires Holds(templates, pool) && PoolOk(pool, known, rank)
    requires r.name in pool && !pool[r.name].isCollection && f in pool[r.name].props && f !in done &&
             p == pool[r.name].props[f]
    requires Filled(pool, known, rank, r, props, aliases, home, pushed, done)
    modifies (set n | n in templates :: templates[n])`instanceID
    ensures Filled(pool, known, rank, r, props', aliases', home', pushed', done + {f})
    ensures forall x {:trigger x in pushed'} :: x in pushed' ==> x in pushed || (fresh(x) && Pristine(pool, x))
  {
    var linked, more, inner := LinkProperty(templates, known, r, f, p, pool, rank);
    home' := home + map c | c in more :: f;
    FilledStep(pool, known, rank, r, props, aliases, home, home', pushed, done, f, linked, more, inner);
    props', aliases', pushed' := props[f := linked], aliases + more, inner + pushed;
  }

  /** All properties of the visited resource, in any order. */
  method LinkProperties(templates: map<string, Resource>, known: Cycles, r: Resource, template: map<string, Prop>,
                        ghost pool: Pool, ghost rank: map<string, nat>)
    returns (props: map<string, Prop>, aliases: map<string, Prop>, ghost home: map<string, string>,
             pushed: seq<Resource>)
    requires Holds(templates, pool) && PoolOk(pool, known, rank)
    requires r.name in pool && !pool[r.name].isCollection && template == pool[r.name].props
    modifies (set n | n in templates :: templates[n])`instanceID
    ensures Filled(pool, known, rank, r, props, aliases, home, pushed, template.Keys)
    ensures forall x {:trigger x in pushed} :: x in pushed ==> fresh(x) && Pristine(pool, x)
  {
    props, aliases, home, pushed := template, map[], map[], [];
    FilledStart(pool, known, rank, r);
    ghost var done: set<string> := {};
    var todo := template.Keys;
    while todo != {}
      invariant done == template.Keys - todo && todo <= template.Keys
      invariant Filled(pool, known, rank, r, props, aliases, home, pushed, done)
      invariant forall x {:trigger x in pushed} :: x in pushed ==> fresh(x) && Pristine(pool, x)
      decreases |todo|
    {
      var f :| f in todo;
      props, aliases, home, pushed :=
        LinkNext(templates, known, r, f, template[f], props, aliases, home, pushed, done, pool, rank);
      done := done + {f};
      todo := todo - {f};
    }
    assert done == template.Keys;
  }

  lemma StartPushed(pool: Pool, known: Cycles, rank: map<string, nat>, name: string)
    requires PoolOk(pool, known, rank) && name in pool
    ensures PartlyPushed(pool[name].props, [], {})
  {
    assert TemplateOk(pool, known, rank, name);
    forall f {:trigger pool[name].props[f]} | f in pool[name].props
      ensures LinksIn(pool[name].props[f], [])
    {
      UnlinkedLinksIn(pool[name].props[f], []);
    }
  }

  /** The finished properties and aliases together. */
  lemma AllLinked(pool: Pool, known: Cycles, rank: map<string, nat>, r: Resource, props: map<string, Prop>,
                  aliases: map<string, Prop>, home: map<string, string>, pushed: seq<Resource>)
    requires PoolOk(pool, known, rank) && r.name in pool && !pool[r.name].isCollection
    requires PartlyLinked(known, r, pool[r.name], props, props.Keys)
    requires PartlyAliased(known, r.name, pool[r.name], props, aliases, home, props.Keys)
    requires PartlyPushed(props, pushed, props.Keys)
    ensures LinkedProps(known, r, pool[r.name], props + aliases)
    ensures forall f {:trigger (props + aliases)[f]} :: f in props + aliases ==> LinksIn((props + aliases)[f], pushed)
  {
    var t, all := pool[r.name], props + aliases;
    assert TemplateOk(pool, known, rank, r.name);
    forall c | c in aliases
      ensures c !in props && LinksIn(aliases[c], pushed)
    {
      assert IsAlias(known, r.name, t, home[c], c);
      assert LinksIn(props[home[c]], pushed) && LinkedProp(known, r, home[c], t.props[home[c]], props[home[c]]);
    }
    forall o, c {:trigger IsAlias(known, r.name, t, o, c)} | IsAlias(known, r.name, t, o, c)
      ensures o in all && all[o].PObject? && c in all[o].fields && c in all && all[c] == all[o].fields[c]
    {
      assert c in aliases && IsAlias(known, r.name, t, home[c], c);
    }
    forall f {:trigger all[f]} | f in t.props
      ensures f in all && LinkedProp(known, r, f, t.props[f], all[f])
    {
      assert f !in aliases;
    }
  }

  /** Visiting a resource that is not a collection. */
  method LinkFields(templates: map<string, Resource>, known: Cycles, r: Resource,
                    ghost pool: Pool, ghost rank: map<string, nat>) returns (pushed: seq<Resource>)
    requires Holds(templates, pool) && PoolOk(pool, known, rank)
    requires r !in templates.Values && r.name in pool && !pool[r.name].isCollection && Pristine(pool, r)
    modifies r`props, (set n | n in templates :: templates[n])`instanceID
    ensures Linked(pool, known, r)
    ensures forall f :: f in r.props ==> LinksIn(r.props[f], pushed)
    ensures Pushed(rank, r, pool[r.name], pushed)
    ensures forall x {:trigger x in pushed} :: x in pushed ==> fresh(x) && Pristine(pool, x)
  {
    var props, aliases;
    ghost var home;
    props, aliases, home, pushed := LinkProperties(templates, known, r, r.props, pool, rank);
    FilledEnd(pool, known, rank, r, props, aliases, home, pushed);
    assert r !in pushed;
    r.props := props + aliases;
  }

  /** Visiting a collection. */
  method LinkCollection(templates: map<string, Resource>, known: Cycles, r: Resource,
                        ghost pool: Pool, ghost rank: map<string, nat>) returns (x: Resource)
    requires Holds(templates, pool) && PoolOk(pool, known, rank)
    requires r !in templates.Values && r.name in pool && pool[r.name].isCollection && Pristine(pool, r)
    modifies r`collectionOf, (set n | n in templates :: templates[n])`instanceID
    ensures Linked(pool, known, r) && r.collectionOf == x
    ensures Pushed(rank, r, pool[r.name], [x]) && fresh(x) && Pristine(pool, x)
  {
    assert TemplateOk(pool, known, rank, r.name);
    x := CopyTemplate(templates, MemberType(r.name), r, Member, pool, known, rank);
    r.collectionOf := x;
  }
}
