/** `WalkTree`: resolving a URI on the schema tree. */
module Walk {
  import opened Basics
  import opened Text
  import opened SchemaTree

  const PREFIX := "/redfish/v1"

  // ---------- Paths and tokens ----------

  function TrimSuffix(s: string, suffix: string): string {
    if HasSuffix(s, suffix) then s[..|s| - |suffix|] else s
  }

  /** strings.Split(s, "/") */
  function Split(s: string): (tokens: seq<string>)
    decreases |s|
  {
    var n := FirstSlash(s);
    if n == |s| then [s] else [s[..n]] + Split(s[n + 1..])
  }

  function BuildPath(tokens: seq<string>): string {
    PREFIX + "/" + Join(tokens)
  }

  /** The tokens of a path, none for the service root. */
  function Tokens(path: string): Option<seq<string>> {
    if !HasPrefix(path, PREFIX) then None else
    var tokens := Split(TrimSuffix(TrimPrefix(TrimPrefix(path, PREFIX), "/"), "/"));
    Some(if tokens == [""] then [] else tokens)
  }

  lemma {:induction false} FirstSlashHead(s: string)
    ensures SlashFree(s[..FirstSlash(s)]) && (FirstSlash(s) == |s| || s[FirstSlash(s)] == '/')
  {
    if s != [] && s[0] != '/' {
      FirstSlashHead(s[1..]);
      var n := FirstSlash(s[1..]);
      assert s[..n + 1] == [s[0]] + s[1..][..n];
    }
  }

  /** Splitting and joining are inverse, both ways. */
  lemma {:induction false} SplitThenJoin(s: string)
    ensures Split(s) != [] && Join(Split(s)) == s
    ensures forall i :: 0 <= i < |Split(s)| ==> SlashFree(Split(s)[i])
    decreases |s|
  {
    var n := FirstSlash(s);
    FirstSlashHead(s);
    if n == |s| {
      assert s[..n] == s;
    } else {
      SplitThenJoin(s[n + 1..]);
      JoinSplit(Split(s));
      assert Split(s)[1..] == Split(s[n + 1..]);
      assert s == s[..n] + "/" + s[n + 1..];
    }
  }

  lemma JoinThenSplit(tokens: seq<string>)
    requires tokens != [] && forall i :: 0 <= i < |tokens| ==> SlashFree(tokens[i])
    ensures Split(Join(tokens)) == tokens
  {
    SplitThenJoin(Join(tokens));
    JoinInjective(Split(Join(tokens)), tokens);
  }

  /** The joined text of non-empty tokens neither starts nor ends with a slash. */
  lemma {:induction false} JoinEnds(tokens: seq<string>)
    requires tokens != [] && forall i :: 0 <= i < |tokens| ==> SlashFree(tokens[i]) && tokens[i] != ""
    ensures Join(tokens) != "" && Join(tokens)[0] != '/' && Join(tokens)[|Join(tokens)| - 1] != '/'
  {
    var first := tokens[0];
    assert first[0] in first && first[|first| - 1] in first;
    if |tokens| > 1 {
      JoinEnds(tokens[1..]);
    }
  }

  /** A path built from tokens, with or without a trailing slash, has these tokens. */
  lemma TokensOfPath(tokens: seq<string>)
    requires forall i :: 0 <= i < |tokens| ==> SlashFree(tokens[i]) && tokens[i] != ""
    ensures Tokens(BuildPath(tokens)) == Some(tokens)
    ensures Tokens(BuildPath(tokens) + "/") == Some(tokens)
  {
    var text := Join(tokens);
    assert TrimPrefix(BuildPath(tokens), PREFIX) == "/" + text;
    assert TrimPrefix(BuildPath(tokens) + "/", PREFIX) == "/" + text + "/";
    assert TrimPrefix("/" + text, "/") == text && TrimPrefix("/" + text + "/", "/") == text + "/";
    assert TrimSuffix(text + "/", "/") == text;
    if tokens != [] {
      JoinEnds(tokens);
      JoinThenSplit(tokens);
      assert TrimSuffix(text, "/") == text;
      assert Tokens(BuildPath(tokens)) == Some(tokens);
    }
  }

  /** Paths that do not start with the service root's have no tokens, and the root's own has none to follow, with or
      without a slash at its end. */
  lemma RootPaths(path: string)
    ensures Tokens(path).None? <==> !(|PREFIX| <= |path| && path[..|PREFIX|] == PREFIX)
    ensures Tokens(PREFIX) == Some([]) && Tokens(PREFIX + "/") == Some([])
  {
    assert TrimPrefix(PREFIX, PREFIX) == "" && TrimPrefix(PREFIX + "/", PREFIX) == "/";
    assert TrimPrefix("/", "/") == "";
  }

  // ---------- Walking ----------

  /** A resource, or a property inside a resource. */
  datatype Position = At(r: Resource) | Inside(r: Resource, p: Prop)

  datatype Outcome<P> = Found(at: P) | Missing | Panic

  /** The collection callback, given the collection, its path and the instance. */
  type Callback = (string, string, string) -> bool

  /** The property that a token names: in an object, an action goes without its '#'. */
  function Look(s: Position, token: string): Option<Prop>
    reads s.r`props
  {
    match s
    case At(r) => if token in r.props then Some(r.props[token]) else None
    case Inside(_, p) =>
      if !p.PObject? then None
      else if token in p.fields then Some(p.fields[token])
      else if "#" + token in p.fields then Some(p.fields["#" + token])
      else None
  }

  predicate Walkable(p: Prop) {
    p.PObject? || p.PLink? || (p.PLeaf? && p.walkable)
  }

  function Step(cb: Callback, path: string, s: Position, token: string): Outcome<Position>
    reads s.r`props, s.r`collectionOf
  {
    if s.r.isCollection then
      if !cb(s.r.name, path, token) then Missing
      else if s.r.collectionOf == null then Panic
      else Found(At(s.r.collectionOf))
    else
      match Look(s, token)
      case None => Missing
      case Some(p) =>
        if IsNav(p) then if p.link == null then Panic else Found(At(p.link))
        else if Walkable(p) then Found(Inside(s.r, p))
        else Missing
  }

  /** Follows `tokens` from token `i` on. */
  function Follow(cb: Callback, tokens: seq<string>, i: nat, s: Position): Outcome<Position>
    requires i <= |tokens|
    reads *
    decreases |tokens| - i
  {
    if i == |tokens| then Found(s)
    else
      match Step(cb, BuildPath(tokens[..i]), s, tokens[i])
      case Found(next) => Follow(cb, tokens, i + 1, next)
      case Missing => Missing
      case Panic => Panic
  }

  function Resolve(cb: Callback, root: Resource, tokens: seq<string>): Outcome<Position>
    reads *
  {
    Follow(cb, tokens, 0, At(root))
  }

  method WalkTree(root: Resource, cb: Callback, path: string) returns (result: Outcome<Position>)
    ensures result == match Tokens(path) case None => Missing case Some(tokens) => Resolve(cb, root, tokens)
  {
    if !HasPrefix(path, PREFIX) {
      return Missing;
    }
    var tokens := Split(TrimSuffix(TrimPrefix(TrimPrefix(path, PREFIX), "/"), "/"));
    if |tokens| == 1 && |tokens[0]| == 0 {
      assert tokens == [""];
      return Found(At(root));
    }
    var resource: Resource := root;
    var walkingObject, property, i := false, PLeaf(false), 0;
    while i < |tokens|
      invariant 0 <= i <= |tokens| && (walkingObject ==> !resource.isCollection)
      invariant Resolve(cb, root, tokens) ==
        Follow(cb, tokens, i, if walkingObject then Inside(resource, property) else At(resource))
    {
      var token := tokens[i];
      if resource.isCollection {
        if cb(resource.name, BuildPath(tokens[..i]), token) {
          if resource.collectionOf == null {
            return Panic;
          }
          resource := resource.collectionOf;
        } else {
          return Missing;
        }
      } else {
        if !walkingObject {
          if token !in resource.props {
            return Missing;
          }
          property := resource.props[token];
        } else if property.PObject? && token in property.fields {
          property := property.fields[token];
        } else if property.PObject? && "#" + token in property.fields {
          property := property.fields["#" + token];
        } else {
          return Missing;
        }
        if property.PLink? && property.isNav {
          if property.link == null {
            return Panic;
          }
          resource, walkingObject := property.link, false;
        } else if property.PObject? || property.PLink? || (property.PLeaf? && property.walkable) {
          walkingObject := true;
        } else {
          return Missing;
        }
      }
      i := i + 1;
    }
    return Found(if walkingObject then Inside(resource, property) else At(resource));
  }

  // ---------- What walking promises ----------

  /** Following a path is following its first part and then the rest. */
  lemma {:induction false} FollowPrefix(cb: Callback, tokens: seq<string>, n: nat, i: nat, s: Position)
    requires i <= n <= |tokens|
    ensures Follow(cb, tokens, i, s) ==
            match Follow(cb, tokens[..n], i, s)
            case Found(mid) => Follow(cb, tokens, n, mid)
            case Missing => Missing
            case Panic => Panic
    decreases n - i
  {
    if i < n {
      assert tokens[..n][..i] == tokens[..i];
      var next := Step(cb, BuildPath(tokens[..i]), s, tokens[i]);
      if next.Found? {
        FollowPrefix(cb, tokens, n, i + 1, next.at);
      }
    }
  }

  /** The result for one more token is one step from the result for the tokens before it. */
  lemma OneMoreToken(cb: Callback, root: Resource, tokens: seq<string>, token: string)
    ensures Resolve(cb, root, tokens + [token]) ==
            match Resolve(cb, root, tokens)
            case Found(s) => Step(cb, BuildPath(tokens), s, token)
            case Missing => Missing
            case Panic => Panic
  {
    var all := tokens + [token];
    assert all[..|tokens|] == tokens;
    FollowPrefix(cb, all, |tokens|, 0, At(root));
  }

  /** What entering a property leads to, by its kind: objects, plain links and walkable leaves are positions in
      the same resource, a navigation link leads to its resource, and arrays and other leaves nowhere. */
  function Entered(r: Resource, p: Prop): Outcome<Position> {
    match p
    case PObject(_) => Found(Inside(r, p))
    case PLink(false, _, _) => Found(Inside(r, p))
    case PLink(true, _, link) => if link == null then Panic else Found(At(link))
    case PLeaf(true) => Found(Inside(r, p))
    case PLeaf(false) => Missing
    case PArray(_, _, _) => Missing
  }

  /** What one more token does, wherever the tokens before it have led. */
  lemma TokenEnters(cb: Callback, root: Resource, tokens: seq<string>, token: string)
    requires Resolve(cb, root, tokens).Found?
    ensures var s, result := Resolve(cb, root, tokens).at, Resolve(cb, root, tokens + [token]);
            if s.r.isCollection then
              (!cb(s.r.name, BuildPath(tokens), token) ==> result == Missing) &&
              (cb(s.r.name, BuildPath(tokens), token) ==>
                 result == if s.r.collectionOf == null then Panic else Found(At(s.r.collectionOf)))
            else
              match s
              case At(r) => result == if token in r.props then Entered(r, r.props[token]) else Missing
              case Inside(r, PObject(fields)) =>
                result == if token in fields then Entered(r, fields[token])
                          else if "#" + token in fields then Entered(r, fields["#" + token])
                          else Missing
              case Inside(_, _) => result == Missing
  {
    OneMoreToken(cb, root, tokens, token);
  }

  /** Every prefix of a path that resolves resolves. */
  lemma PrefixResolves(cb: Callback, root: Resource, tokens: seq<string>, n: nat)
    requires n <= |tokens| && Resolve(cb, root, tokens).Found?
    ensures Resolve(cb, root, tokens[..n]).Found?
  {
    FollowPrefix(cb, tokens, n, 0, At(root));
  }

  /** A position inside an object is never in a collection. */
  ghost predicate Sound(s: Position) {
    s.Inside? ==> !s.r.isCollection && !IsNav(s.p) && Walkable(s.p)
  }

  lemma {:induction false} CollectionsAreNotObjects(cb: Callback, tokens: seq<string>, i: nat, s: Position)
    requires i <= |tokens| && Sound(s)
    ensures Follow(cb, tokens, i, s).Found? ==> Sound(Follow(cb, tokens, i, s).at)
    decreases |tokens| - i
  {
    if i < |tokens| {
      var next := Step(cb, BuildPath(tokens[..i]), s, tokens[i]);
      if next.Found? {
        CollectionsAreNotObjects(cb, tokens, i + 1, next.at);
      }
    }
  }
}
