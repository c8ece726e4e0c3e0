/** `detectNavigationLinks` and `detectNavigationArrays`: which links are navigated. */
module Detect {
  import opened SchemaTree

  const RESOURCE_BLOCK := "ResourceBlock"

  /** No link inside `p` is a navigation link. */
  ghost predicate NavFree(p: Prop) {
    match p
    case PLink(isNav, _, _) => !isNav
    case PObject(fields) => forall c :: c in fields ==> NavFree(fields[c])
    case PArray(navArray, _, _) => !navArray
    case PLeaf(_) => true
  }

  /** Navigation links are at the top, or directly inside an object other than "Links". */
  ghost predicate Shallow(f: string, p: Prop) {
    match p
    case PObject(fields) =>
      if f == LINKS then NavFree(p) else forall c :: c in fields ==> fields[c].PLink? || NavFree(fields[c])
    case _ => true
  }

  function MarkChild(p: Prop): Prop {
    if p.PLink? then p.(isNav := true) else p
  }

  function MarkLinks(f: string, p: Prop): Prop {
    match p
    case PLink(_, target, link) => PLink(true, target, link)
    case PObject(fields) => if f == LINKS then p else PObject(map c | c in fields :: MarkChild(fields[c]))
    case _ => p
  }

  function MarkArray(name: string, p: Prop): Prop {
    if name != RESOURCE_BLOCK && p.PArray? && p.elementType != "" then p.(navArray := true) else p
  }

  function Mark(name: string, props: map<string, Prop>): map<string, Prop> {
    map f | f in props :: MarkArray(name, MarkLinks(f, props[f]))
  }

  /** Marks the links inside one object. */
  method MarkObject(fields: map<string, Prop>) returns (marked: map<string, Prop>)
    ensures marked == map c | c in fields :: MarkChild(fields[c])
  {
    marked := fields;
    var todo := fields.Keys;
    while todo != {}
      invariant todo <= fields.Keys && marked.Keys == fields.Keys
      invariant forall c :: c in fields ==> marked[c] == if c in todo then fields[c] else MarkChild(fields[c])
      decreases |todo|
    {
      var c :| c in todo;
      if marked[c].PLink? {
        marked := marked[c := marked[c].(isNav := true)];
      }
      todo := todo - {c};
    }
  }

  method DetectNavigationLinks(r: Resource)
    modifies r`props
    ensures r.props == map f | f in old(r.props) :: MarkLinks(f, old(r.props)[f])
  {
    ghost var before := r.props;
    var todo := r.props.Keys;
    while todo != {}
      invariant todo <= before.Keys && r.props.Keys == before.Keys
      invariant forall f :: f in before ==> r.props[f] == if f in todo then before[f] else MarkLinks(f, before[f])
      decreases |todo|
    {
      var f :| f in todo;
      var p := r.props[f];
      if p.PLink? {
        r.props := r.props[f := p.(isNav := true)];
      } else if f != LINKS && p.PObject? {
        var marked := MarkObject(p.fields);
        r.props := r.props[f := PObject(marked)];
      }
      todo := todo - {f};
    }
  }

  method DetectNavigationArrays(r: Resource)
    modifies r`props
    ensures r.props == map f | f in old(r.props) :: MarkArray(r.name, old(r.props)[f])
  {
    if r.name == RESOURCE_BLOCK {
      return;
    }
    ghost var before := r.props;
    var todo := r.props.Keys;
    while todo != {}
      invariant todo <= before.Keys && r.props.Keys == before.Keys
      invariant forall f :: f in before ==> r.props[f] == if f in todo then before[f] else MarkArray(r.name, before[f])
      decreases |todo|
    {
      var f :| f in todo;
      var p := r.props[f];
      if p.PArray? && p.elementType != "" {
        r.props := r.props[f := p.(navArray := true)];
      }
      todo := todo - {f};
    }
  }

  /** Detection marks every top-level link and no link deeper than walking and linking look. */
  lemma DetectionIsShallow(name: string, props: map<string, Prop>, f: string)
    requires f in props && NavFree(props[f])
    ensures Shallow(f, Mark(name, props)[f])
    ensures props[f].PLink? ==> IsNav(Mark(name, props)[f])
    ensures NavArray(Template(false, Mark(name, props)), f) <==>
            name != RESOURCE_BLOCK && props[f].PArray? && props[f].elementType != ""
    ensures forall c :: NavChild(Template(false, Mark(name, props)), f, c) <==>
              f != LINKS && props[f].PObject? && c in props[f].fields && props[f].fields[c].PLink?
  {
    var p, t := props[f], Template(false, Mark(name, props));
    if p.PObject? && f != LINKS {
      forall c | c in p.fields
        ensures IsNav(MarkChild(p.fields[c])) <==> p.fields[c].PLink?
        ensures MarkChild(p.fields[c]).PLink? || NavFree(MarkChild(p.fields[c]))
      {
        assert NavFree(p.fields[c]);
      }
    }
  }

  /** Marking adds no link and takes none off. */
  lemma DetectionKeepsLinks(name: string, props: map<string, Prop>, f: string)
    requires f in props && Unlinked(props[f])
    ensures Unlinked(Mark(name, props)[f])
  {
    var p := props[f];
    if p.PObject? && f != LINKS {
      var fields := Mark(name, props)[f].fields;
      forall c | c in fields
        ensures Erase(fields[c]) == fields[c]
      {
        assert Erase(p).fields[c] == Erase(p.fields[c]);
      }
      assert Erase(PObject(fields)).fields == fields;
    }
  }
}
