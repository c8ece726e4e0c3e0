/** The schema tree: resources, their properties, and the pool of templates it is linked from. */
module SchemaTree {

  const SERVICE_ROOT := "ServiceRoot"
  const CYCLE := "CycleDetected"
  const COLLECTION := "Collection"
  const LINKS := "Links"

  /** A property, as far as linking and walking look at it.  `target` is the resource type
      that a link reference names; `PArray` is an array of links, every other array and every
      simple value is a `PLeaf`, walkable or not. */
  datatype Prop =
    | PLink(isNav: bool, target: string, link: Resource?)
    | PObject(fields: map<string, Prop>)
    | PArray(navArray: bool, elementType: string, elementLink: Resource?)
    | PLeaf(walkable: bool)

  /** The place in a resource that refers to another resource. */
  datatype Slot = Root | Member | Field(name: string) | ChildOf(inside: string, name: string)

  /** `owner` and `slot` say, once and for all, from where a resource may be referred to. */
  class Resource {
    const name: string
    const isCollection: bool
    ghost const owner: Resource?
    ghost const slot: Slot
    var collectionOf: Resource?
    var props: map<string, Prop>
    var instanceID: int

    constructor (name: string, isCollection: bool, props: map<string, Prop>, instanceID: int,
                 ghost owner: Resource?, ghost slot: Slot)
      ensures this.name == name && this.isCollection == isCollection && this.props == props
      ensures this.owner == owner && this.slot == slot && collectionOf == null && this.instanceID == instanceID
    {
      this.name := name;
      this.isCollection := isCollection;
      this.props := props;
      this.instanceID := instanceID;
      this.collectionOf := null;
      this.owner := owner;
      this.slot := slot;
    }
  }

  /** The property with every link taken off. */
  function Erase(p: Prop): Prop {
    match p
    case PLink(isNav, target, _) => PLink(isNav, target, null)
    case PObject(fields) => PObject(map name | name in fields :: Erase(fields[name]))
    case PArray(navArray, elementType, _) => PArray(navArray, elementType, null)
    case PLeaf(walkable) => PLeaf(walkable)
  }

  ghost predicate Unlinked(p: Prop) {
    Erase(p) == p
  }

  // ---------- Templates ----------

  datatype Template = Template(isCollection: bool, props: map<string, Prop>)

  type Pool = map<string, Template>

  /** The one reference per resource that is known to close a cycle: its field and target. */
  type Cycles = map<string, (string, string)>

  predicate IsCycle(known: Cycles, name: string, field: string, target: string) {
    name in known && known[name] == (field, target)
  }

  /** What a navigation link leads to: a copy of its target, or the cycle marker. */
  function RefName(known: Cycles, name: string, field: string, target: string): string {
    if IsCycle(known, name, field, target) then CYCLE else target
  }

  predicate HasSuffix(s: string, suffix: string) {
    |suffix| <= |s| && s[|s| - |suffix|..] == suffix
  }

  /** The resource type that a collection type collects. */
  function MemberType(collection: string): string {
    if HasSuffix(collection, COLLECTION) then collection[..|collection| - |COLLECTION|] else collection
  }

  /** A collection type is named after its members. */
  lemma MemberTypeIs(name: string)
    ensures MemberType(name + COLLECTION) == name
    ensures !HasSuffix(name, COLLECTION) ==> MemberType(name) == name
  {
  }

  predicate IsNav(p: Prop) {
    p.PLink? && p.isNav
  }

  predicate NavField(t: Template, f: string) {
    f in t.props && IsNav(t.props[f])
  }

  predicate NavChild(t: Template, o: string, c: string) {
    o != LINKS && o in t.props && t.props[o].PObject? && c in t.props[o].fields && IsNav(t.props[o].fields[c])
  }

  predicate NavArray(t: Template, f: string) {
    f in t.props && t.props[f].PArray? && t.props[f].navArray
  }

  /** A slot that linking fills in a resource copied from `t`. */
  predicate IsSlot(t: Template, slot: Slot) {
    match slot
    case Field(f) => NavField(t, f) || NavArray(t, f)
    case ChildOf(o, c) => NavChild(t, o, c)
    case Member => true
    case Root => false
  }

  /** All slots that linking may fill in a resource copied from `t`. */
  function Slots(t: Template): set<Slot> {
    (set f | f in t.props && (NavField(t, f) || NavArray(t, f)) :: Field(f)) +
    (set o, c | o in t.props && t.props[o].PObject? && c in t.props[o].fields && NavChild(t, o, c) :: ChildOf(o, c)) +
    {Member}
  }

  /** Linking also stores the link `c` inside object `o` as a property of the resource itself. */
  predicate IsAlias(known: Cycles, name: string, t: Template, o: string, c: string) {
    NavChild(t, o, c) && !IsCycle(known, name, c, t.props[o].fields[c].target)
  }

  /** The references of template `name` that linking follows lead to templates of lower rank. */
  ghost predicate WellFounded(pool: Pool, known: Cycles, rank: map<string, nat>, name: string)
    requires name in pool && name in rank
  {
    var t := pool[name];
    && (forall f :: NavField(t, f) ==>
          t.props[f].target in pool && t.props[f].target in rank &&
          (IsCycle(known, name, f, t.props[f].target) || rank[t.props[f].target] < rank[name]))
    && (forall o, c :: NavChild(t, o, c) ==>
          t.props[o].fields[c].target in pool && t.props[o].fields[c].target in rank &&
          (IsCycle(known, name, c, t.props[o].fields[c].target) || rank[t.props[o].fields[c].target] < rank[name]))
    && (forall f :: NavArray(t, f) ==>
          t.props[f].elementType in pool && t.props[f].elementType in rank && rank[t.props[f].elementType] < rank[name])
  }

  ghost predicate TemplateOk(pool: Pool, known: Cycles, rank: map<string, nat>, name: string)
    requires name in pool && name in rank
  {
    var t := pool[name];
    && (forall f :: f in t.props ==> Unlinked(t.props[f]))
    && (if t.isCollection then
          && HasSuffix(name, COLLECTION)
          && MemberType(name) in pool && MemberType(name) in rank
          && !pool[MemberType(name)].isCollection && rank[MemberType(name)] < rank[name]
          && (forall f :: f in t.props ==> !NavField(t, f) && !NavArray(t, f))
        else
          && WellFounded(pool, known, rank, name)
          // a link inside an object shares its name with no other property and no other such link
          && (forall o, c :: NavChild(t, o, c) ==> c !in t.props)
          && (forall o, o', c :: NavChild(t, o, c) && NavChild(t, o', c) ==> o == o'))
  }

  /** A pool that can be linked: acyclic once the known cycles are cut. */
  ghost predicate PoolOk(pool: Pool, known: Cycles, rank: map<string, nat>) {
    && SERVICE_ROOT in pool && !pool[SERVICE_ROOT].isCollection
    && CYCLE !in pool && rank.Keys == pool.Keys
    && (forall name {:trigger TemplateOk(pool, known, rank, name)} :: name in pool ==>
          TemplateOk(pool, known, rank, name))
  }

  /** The heap objects that hold the pool. */
  ghost predicate Holds(templates: map<string, Resource>, pool: Pool)
    reads set name | name in templates :: templates[name]`props
    reads set name | name in templates :: templates[name]`collectionOf
  {
    && templates.Keys == pool.Keys
    && forall name {:trigger templates[name]} :: name in templates ==>
         && templates[name].name == name
         && templates[name].isCollection == pool[name].isCollection
         && templates[name].props == pool[name].props
         && templates[name].collectionOf == null
  }
}
