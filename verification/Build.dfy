/** `BuildStruct`: from the Redis keyspace back to a JSON payload, under a schema. */
module Build {
  import opened Basics
  import opened Text
  import opened Redis
  import opened Schema

  /** What the file handlers and backend helpers answer for a key that Redis does not hold. */
  datatype Answer = Found(text: string) | NoHandler | UnknownXname

  /** The @odata.context annotation is generated from the store, or taken to be a given text. */
  datatype ContextSource = Generated | Given(text: Option<string>)

  /** The fields of `Redis2Interface`.  `dispatch` and `sortedNames` stand for the handlers
      and for the sorted, comma-separated list of names. */
  datatype Reader = Reader(
    xname: string,
    uri: Key,
    odataType: string,
    odataContext: string,
    dispatch: Key -> Answer,
    sortedNames: set<string> -> string,
    context: ContextSource)

  // ---------- Keys ----------

  /** The key with the xname prepended, unless it already starts with it. */
  function Fallback(xname: string, key: Key): (k: Key)
    requires key != []
    ensures |k| == |key|
  {
    if HasPrefix(key[0], xname) then key else [xname + key[0]] + key[1..]
  }

  /** On the text of a key: the xname is put in front unless the text starts with it. */
  lemma FallbackText(xname: string, key: Key)
    requires key != [] && SlashFree(key[0]) && SlashFree(xname)
    ensures Join(Fallback(xname, key)) == if HasPrefix(Join(key), xname) then Join(key) else xname + Join(key)
  {
    JoinHasPrefix(key, xname);
    JoinPrepend(key, xname);
  }

  lemma FallbackChild(xname: string, key: Key, name: string)
    requires key != []
    ensures Fallback(xname, Child(key, name)) == Child(Fallback(xname, key), name)
    ensures Fallback(xname, Fallback(xname, key)) == Fallback(xname, key)
  {
    assert Child(key, name)[1..] == key[1..] + [name];
  }

  function TrimEmpty(key: Key): Key {
    if |key| > 1 && key[|key| - 1] == "" then TrimEmpty(key[..|key| - 1]) else key
  }

  /** filepath.Base: the last segment that is not empty. */
  function BaseName(key: Key): string {
    if key == [] then "" else if key[|key| - 1] != "" then key[|key| - 1] else BaseName(key[..|key| - 1])
  }

  /** Slashes at the end of a URI do not matter, neither to its text nor to the name of its last segment. */
  lemma TrailingSlashes(key: Key, name: string)
    ensures key != [] ==> TrimEmpty(key + [""]) == TrimEmpty(key) && BaseName(key + [""]) == BaseName(key)
    ensures name != "" ==> TrimEmpty(key + [name]) == key + [name] && BaseName(key + [name]) == name
  {
    assert (key + [""])[..|key|] == key;
  }

  /** Where `BuildStruct` reads: the exact key if it has members, else the prefixed one. */
  function KeySpace(db: Store, xname: string, base: Key): Key
    requires base != []
  {
    if SMembers(db, base).None? || SMembers(db, base) == Some({}) then Fallback(xname, base) else base
  }

  // ---------- Single values ----------

  /** The @odata.context annotation lists the resource's own names, or "*" for 25 and more. */
  function ContextOf(r: Reader, names: set<string>): string {
    var plain := set n | n in names && '@' !in n;
    r.odataContext + "(" + (if |plain| < 25 then r.sortedNames(plain) else "*") + ")"
  }

  function ContextText(db: Store, r: Reader): Option<string> {
    match r.context
    case Given(text) => text
    case Generated =>
      match SMembers(db, TrimEmpty(r.uri))
      case None => None
      case Some(names) => Some(ContextOf(r, names))
  }

  function GenerateOData(db: Store, r: Reader, key: Key): Option<string> {
    var name := BaseName(key);
    if name == ODATA_ID then Some(TrimPrefix(Join(TrimEmpty(r.uri)), r.xname))
    else if name == ODATA_TYPE then Some(r.odataType)
    else if name == ODATA_CONTEXT then ContextText(db, r)
    else None
  }

  function ValueForKey(db: Store, r: Reader, key: Key): Answer {
    match Get(db, key)
    case Some(text) => Found(text)
    case None =>
      match GenerateOData(db, r, key)
      case Some(text) => Found(text)
      case None => r.dispatch(key)
  }

  function Decode(kind: SimpleKind, text: string): Option<Json> {
    match kind
    case Enum => Some(JStr(text))
    case String => Some(JStr(text))
    case Integer =>
      (match ParseInt(text)
       case Some(n) => Some(JNum(n as real))
       case None => None)
    case Bool =>
      (match ParseBool(text)
       case Some(b) => Some(JBool(b))
       case None => None)
  }

  function BuildSimple(db: Store, r: Reader, kind: SimpleKind, key: Key): Option<Json> {
    match ValueForKey(db, r, key)
    case Found(text) => Decode(kind, text)
    case NoHandler => Some(JNull)
    case UnknownXname => None
  }

  function LinkJson(text: string): Json {
    JObj(map[ODATA_ID := JStr(text)])
  }

  /** The link stored beneath `key`; a missing one reads as the empty text. */
  function StoredLink(db: Store, r: Reader, key: Key): Json {
    var stored := Get(db, Child(key, ODATA_ID));
    LinkJson(TrimPrefix(if stored.Some? then stored.value else "", r.xname))
  }

  function JStrs(items: seq<string>): seq<Json> {
    seq(|items|, i requires 0 <= i < |items| => JStr(items[i]))
  }

  function BuildActionMember(db: Store, r: Reader, key: Key): Option<Json> {
    match Lookup(db, key)
    case Some(List(items)) => Some(JArr(JStrs(items)))
    case Some(Str(text)) => Some(JStr(TrimPrefix(text, r.xname)))
    case _ => None
  }

  // ---------- What is generated, and actions ----------

  /** What a read gives for the annotations that no key holds: the URI without the xname and without slashes
      at its end, the type of the resource, and its context with the listed names. */
  lemma GeneratedValues(db: Store, r: Reader, key: Key, name: string)
    requires key != [] && name != "" && Get(db, Child(key, name)).None?
    ensures name == ODATA_ID ==>
              BuildSimple(db, r, String, Child(key, name)) ==
                Some(JStr(var uri := Join(TrimEmpty(r.uri)); if r.xname <= uri then uri[|r.xname|..] else uri))
    ensures name == ODATA_TYPE ==> BuildSimple(db, r, String, Child(key, name)) == Some(JStr(r.odataType))
    ensures name == ODATA_CONTEXT && r.context.Generated? && SMembers(db, TrimEmpty(r.uri)).Some? ==>
              var plain := set n | n in SMembers(db, TrimEmpty(r.uri)).value && '@' !in n;
              BuildSimple(db, r, String, Child(key, name)) ==
                Some(JStr(r.odataContext + "(" + (if |plain| < 25 then r.sortedNames(plain) else "*") + ")"))
    ensures name !in {ODATA_ID, ODATA_TYPE, ODATA_CONTEXT} ==>
              BuildSimple(db, r, String, Child(key, name)) ==
                match r.dispatch(Child(key, name))
                case Found(text) => Some(JStr(text))
                case NoHandler => Some(JNull)
                case UnknownXname => None
  {
    assert BaseName(Child(key, name)) == name;
  }

  /** A stored text reads as itself, or as the number or boolean that it says; one that says none makes the
      read fail. */
  lemma StoredTextReads(db: Store, r: Reader, kind: SimpleKind, key: Key, text: string)
    requires Get(db, key) == Some(text)
    ensures kind.Enum? || kind.String? ==> BuildSimple(db, r, kind, key) == Some(JStr(text))
    ensures kind.Integer? && ParseInt(text).Some? ==>
              BuildSimple(db, r, kind, key) == Some(JNum(ParseInt(text).value as real))
    ensures kind.Bool? && ParseBool(text).Some? ==> BuildSimple(db, r, kind, key) == Some(JBool(ParseBool(text).value))
    ensures (kind.Integer? && ParseInt(text).None?) || (kind.Bool? && ParseBool(text).None?) ==>
              BuildSimple(db, r, kind, key).None?
  {
  }

  /** An action reads as its members: the texts of a list as they are, a text without the xname; anything else
      makes the read fail. */
  lemma ActionReads(db: Store, r: Reader, key: Key)
    ensures BuildAction(db, r, key).Some? <==>
              SMembers(db, key).Some? && forall name :: name in SMembers(db, key).value ==>
                Child(key, name) in db && !db[Child(key, name)].Set?
    ensures BuildAction(db, r, key).Some? ==>
              var j := BuildAction(db, r, key).value;
              && j.JObj? && j.fields.Keys == SMembers(db, key).value
              && forall name :: name in j.fields ==>
                   var value := db[Child(key, name)];
                   && (value.List? ==>
                         j.fields[name].JArr? && |j.fields[name].items| == |value.items| &&
                         forall i :: 0 <= i < |value.items| ==> j.fields[name].items[i] == JStr(value.items[i]))
                   && (value.Str? ==>
                         j.fields[name] == JStr(if r.xname <= value.text then value.text[|r.xname|..] else value.text))
  {
    if SMembers(db, key).Some? {
      forall name | name in SMembers(db, key).value
        ensures BuildActionMember(db, r, Child(key, name)).Some? <==>
                  Child(key, name) in db && !db[Child(key, name)].Set?
      {
      }
    }
  }

  // ---------- Counts ----------

  /** The array that the annotation `k` counts, if any. */
  function CountBase(k: string): Option<string> {
    if |ODATA_COUNT| <= |k| && k[|k| - |ODATA_COUNT|..] == ODATA_COUNT then Some(k[..|k| - |ODATA_COUNT|]) else None
  }

  lemma CountBaseOf(name: string)
    ensures CountBase(name + ODATA_COUNT) == Some(name)
  {
  }

  function CountOf(j: Json): Json {
    JNum(if j.JArr? then |j.items| as real else 0.0)
  }

  predicate CountsArray(fields: map<string, Json>, k: string) {
    CountBase(k).Some? && CountBase(k).value in fields && fields[CountBase(k).value].JArr?
  }

  function CountKeys(fields: map<string, Json>): set<string> {
    set name | name in fields && fields[name].JArr? :: name + ODATA_COUNT
  }

  lemma InCountKeys(fields: map<string, Json>, k: string)
    ensures k in CountKeys(fields) <==> CountsArray(fields, k)
  {
    if CountsArray(fields, k) {
      assert k == CountBase(k).value + ODATA_COUNT;
    }
    if k in CountKeys(fields) {
      var name :| name in fields && fields[name].JArr? && k == name + ODATA_COUNT;
      CountBaseOf(name);
    }
  }

  /** The payload: every field, and the count of every array. */
  ghost function Assemble(fields: map<string, Json>): map<string, Json> {
    map k | k in fields.Keys + CountKeys(fields) ::
      InCountKeys(fields, k);
      if CountsArray(fields, k) then CountOf(fields[CountBase(k).value]) else fields[k]
  }

  lemma AssembleOne(name: string, j: Json)
    requires !j.JArr?
    ensures var fields := map[name := j]; Assemble(fields) == fields
  {
    var fields := map[name := j];
    forall k
      ensures !CountsArray(fields, k)
    {
    }
    assert CountKeys(fields) == {};
  }

  /** One assignment of the loop: the field and, for an array, its count. */
  function Write(payload: map<string, Json>, name: string, j: Json): map<string, Json> {
    if j.JArr? then payload[name := j][name + ODATA_COUNT := CountOf(j)] else payload[name := j]
  }

  // ---------- What is read ----------

  ghost function BuildObject(db: Store, r: Reader, schema: Schema, base: Key): Option<map<string, Json>>
    requires base != []
    decreases schema, 1
  {
    var keySpace := KeySpace(db, r.xname, base);
    match SMembers(db, keySpace)
    case None => None
    case Some(names) =>
      if exists name :: name in names && BuildMember(db, r, schema, keySpace, name).None? then None
      else Some(Assemble(map name | name in names :: OrNull(BuildMember(db, r, schema, keySpace, name))))
  }

  ghost function OrNull(j: Option<Json>): Json {
    if j.Some? then j.value else JNull
  }

  ghost function BuildMember(db: Store, r: Reader, schema: Schema, keySpace: Key, name: string): Option<Json>
    requires keySpace != []
    decreases schema, 0
  {
    if name in schema.props then BuildField(db, r, schema.props[name], Child(keySpace, name)) else None
  }

  ghost function BuildField(db: Store, r: Reader, p: Property, key: Key): Option<Json>
    requires key != []
    decreases p, 2
  {
    match p.typ
    case Simple(kind) => BuildSimple(db, r, kind, key)
    case Action => BuildAction(db, r, key)
    case Object(schema) =>
      (match BuildObject(db, r, schema, key)
       case Some(fields) => Some(JObj(fields))
       case None => None)
    case Array(element) => BuildArray(db, r, element, key)
    case Link(isNav, expand) =>
      if expand.Some? then BuildExpanded(db, r, expand.value.members, key)
      else if isNav then Some(LinkJson(TrimPrefix(Join(key), r.xname)))
      else Some(StoredLink(db, r, key))
    case Unknown => None
  }

  ghost function BuildAction(db: Store, r: Reader, key: Key): Option<Json> {
    match SMembers(db, key)
    case None => None
    case Some(names) =>
      if exists name :: name in names && BuildActionMember(db, r, Child(key, name)).None? then None
      else Some(JObj(map name | name in names :: OrNull(BuildActionMember(db, r, Child(key, name)))))
  }

  /** An object without known properties, as for elements of a kind that has none. */
  ghost function BuildBare(db: Store, r: Reader, base: Key): Option<map<string, Json>>
    requires base != []
  {
    match SMembers(db, KeySpace(db, r.xname, base))
    case None => None
    case Some(names) => if names == {} then Some(map[]) else None
  }

  ghost function BuildElement(db: Store, r: Reader, element: Property, key: Key, item: string): Option<Json>
    requires key != []
    decreases element, 0
  {
    match element.typ
    case Simple(_) => Some(JStr(item))
    case Link(_, _) => Some(StoredLink(db, r, Child(key, item)))
    case Object(schema) =>
      (match BuildObject(db, r, schema, Child(key, item))
       case Some(fields) => Some(JObj(fields))
       case None => None)
    case _ =>
      (match BuildBare(db, r, Child(key, item))
       case Some(fields) => Some(JObj(fields))
       case None => None)
  }

  ghost function BuildArray(db: Store, r: Reader, element: Property, key: Key): Option<Json>
    requires key != []
    decreases element, 1
  {
    match LRange(db, key)
    case None => None
    case Some(items) =>
      if exists i :: 0 <= i < |items| && BuildElement(db, r, element, key, items[i]).None? then None
      else Some(JArr(seq(|items|, i requires 0 <= i < |items| => OrNull(BuildElement(db, r, element, key, items[i])))))
  }

  /** A member of an expanded link that cannot be built reads as null. */
  ghost function BuildExpanded(db: Store, r: Reader, members: Schema, key: Key): Option<Json>
    requires key != []
    decreases members, 2
  {
    match LRange(db, key)
    case None => None
    case Some(items) =>
      Some(JArr(seq(|items|, i requires 0 <= i < |items| =>
        match BuildObject(db, r, members, Child(key, items[i]))
        case Some(fields) => JObj(fields)
        case None => JNull)))
  }

  /** A navigation link reads as its own path without the xname, whatever is stored; a plain link as the stored
      text without the xname, and one without a text as the empty one. */
  lemma LinksRead(db: Store, r: Reader, p: Property, key: Key)
    requires key != [] && p.typ.Link? && p.typ.expand.None?
    ensures var stored := Get(db, Child(key, ODATA_ID));
            var text := if p.typ.isNav then Join(key) else if stored.Some? then stored.value else "";
            BuildField(db, r, p, key) ==
              Some(JObj(map[ODATA_ID := JStr(if r.xname <= text then text[|r.xname|..] else text)]))
  {
  }

  /** An embedded collection reads as its members in list order, those that cannot be built as null, and fails
      only where its key holds no list. */
  lemma ExpandedReads(db: Store, r: Reader, members: Schema, key: Key)
    requires key != []
    ensures BuildExpanded(db, r, members, key).Some? <==> LRange(db, key).Some?
    ensures LRange(db, key).Some? ==>
              var items, j := LRange(db, key).value, BuildExpanded(db, r, members, key).value;
              && j.JArr? && |j.items| == |items|
              && forall i :: 0 <= i < |items| ==>
                   var member := BuildObject(db, r, members, Child(key, items[i]));
                   if member.None? then j.items[i].JNull? else j.items[i] == JObj(member.value)
  {
  }

  /** An element of a kind without known properties reads as the empty object, and fails where anything
      is stored for it, under its key or the prefixed one. */
  lemma BareElementReads(db: Store, r: Reader, element: Property, key: Key, item: string)
    requires key != [] && (element.typ.Array? || element.typ.Action? || element.typ.Unknown?)
    ensures BuildElement(db, r, element, key, item) ==
              if SMembers(db, KeySpace(db, r.xname, Child(key, item))) == Some({}) then Some(JObj(map[])) else None
  {
  }

  // ---------- What may be built ----------

  /** The payload after writing the fields in the order `names`. */
  ghost function WriteAll(fields: map<string, Json>, names: seq<string>): map<string, Json>
    requires forall i :: 0 <= i < |names| ==> names[i] in fields
  {
    if names == [] then map[]
    else
      var last := names[|names| - 1];
      Write(WriteAll(fields, names[..|names| - 1]), last, fields[last])
  }

  ghost predicate IsOrder(names: seq<string>, all: set<string>) {
    && (forall i :: 0 <= i < |names| ==> names[i] in all)
    && (forall name :: name in all ==> name in names)
    && (forall i, j :: 0 <= i < j < |names| ==> names[i] != names[j])
  }

  /** Writing all fields in the order `names` gives `payload`. */
  ghost predicate Written(fields: map<string, Json>, names: seq<string>, payload: map<string, Json>) {
    IsOrder(names, fields.Keys) && WriteAll(fields, names) == payload
  }

  /** `payload` is what `BuildStruct` yields for some order in which members are listed, here
      and in every object beneath. */
  ghost predicate CanBuild(db: Store, r: Reader, schema: Schema, base: Key, payload: map<string, Json>)
    requires base != []
    decreases schema, 1
  {
    var keySpace := KeySpace(db, r.xname, base);
    SMembers(db, keySpace).Some? &&
    exists fields, names :: Written(fields, names, payload) && fields.Keys == SMembers(db, keySpace).value &&
      forall name :: name in fields ==> CanBuildMember(db, r, schema, keySpace, name, fields[name])
  }

  ghost predicate CanBuildMember(db: Store, r: Reader, schema: Schema, keySpace: Key, name: string, j: Json)
    requires keySpace != []
    decreases schema, 0
  {
    name in schema.props && CanBuildField(db, r, schema.props[name], Child(keySpace, name), j)
  }

  ghost predicate CanBuildField(db: Store, r: Reader, p: Property, key: Key, j: Json)
    requires key != []
    decreases p, 2
  {
    match p.typ
    case Object(schema) => j.JObj? && CanBuild(db, r, schema, key, j.fields)
    case Array(element) => CanBuildArray(db, r, element, key, j)
    case Link(_, Some(expansion)) => CanBuildExpanded(db, r, expansion.members, key, j)
    case _ => BuildField(db, r, p, key) == Some(j)
  }

  ghost predicate CanBuildElement(db: Store, r: Reader, element: Property, key: Key, item: string, j: Json)
    requires key != []
    decreases element, 0
  {
    match element.typ
    case Object(schema) => j.JObj? && CanBuild(db, r, schema, Child(key, item), j.fields)
    case _ => BuildElement(db, r, element, key, item) == Some(j)
  }

  ghost predicate CanBuildArray(db: Store, r: Reader, element: Property, key: Key, j: Json)
    requires key != []
    decreases element, 1
  {
    var items := LRange(db, key);
    && items.Some? && j.JArr? && |j.items| == |items.value|
    && forall i :: 0 <= i < |j.items| ==> CanBuildElement(db, r, element, key, items.value[i], j.items[i])
  }

  ghost predicate CanBuildExpanded(db: Store, r: Reader, members: Schema, key: Key, j: Json)
    requires key != []
    decreases members, 3
  {
    var items := LRange(db, key);
    && items.Some? && j.JArr? && |j.items| == |items.value|
    && forall i :: 0 <= i < |j.items| ==> CanExpand(db, r, members, Child(key, items.value[i]), j.items[i])
  }

  /** A member of an expanded link that cannot be built reads as null. */
  ghost predicate CanExpand(db: Store, r: Reader, members: Schema, key: Key, j: Json)
    requires key != []
    decreases members, 2
  {
    if BuildObject(db, r, members, key).None? then j == JNull else j.JObj? && CanBuild(db, r, members, key, j.fields)
  }

  lemma {:induction false} WriteAllLocal(fields: map<string, Json>, other: map<string, Json>, names: seq<string>)
    requires forall i :: 0 <= i < |names| ==>
               names[i] in fields && names[i] in other && fields[names[i]] == other[names[i]]
    ensures WriteAll(fields, names) == WriteAll(other, names)
  {
    if names != [] {
      WriteAllLocal(fields, other, names[..|names| - 1]);
    }
  }

  /** One more field, written last. */
  lemma WriteOneMore(fields: map<string, Json>, names: seq<string>, payload: map<string, Json>, name: string, j: Json)
    requires Written(fields, names, payload) && name !in fields
    ensures Written(fields[name := j], names + [name], Write(payload, name, j))
  {
    var all, order := fields[name := j], names + [name];
    OrderOneMore(names, fields.Keys, name);
    assert all.Keys == fields.Keys + {name};
    WriteAllLocal(fields, all, names);
    assert order[..|order| - 1] == names;
  }

  lemma OrderOneMore(names: seq<string>, all: set<string>, name: string)
    requires IsOrder(names, all) && name !in all
    ensures IsOrder(names + [name], all + {name})
  {
    var order := names + [name];
    assert forall i :: 0 <= i < |order| ==> order[i] == if i < |names| then names[i] else name;
    assert forall n :: n in all ==> n in names;
  }

  // ---------- The code ----------

  /** Whether it fails does not depend on the order in which members are listed; what it yields
      is one of the payloads that some order gives. */
  method BuildStruct(db: Store, r: Reader, schema: Schema, base: Key) returns (out: Option<map<string, Json>>)
    requires base != []
    ensures out.Some? <==> BuildObject(db, r, schema, base).Some?
    ensures out.Some? ==> CanBuild(db, r, schema, base, out.value)
    decreases schema, 1
  {
    var keySpace, names := FindMembers(db, r.xname, base);
    if names.None? {
      return None;
    }
    var payload: map<string, Json> := map[];
    ghost var fields: map<string, Json>, order: seq<string> := map[], [];
    var todo := names.value;
    while todo != {}
      invariant todo <= names.value && fields.Keys == names.value - todo
      invariant Written(fields, order, payload)
      invariant forall name :: name in fields ==> BuildMember(db, r, schema, keySpace, name).Some?
      invariant forall name :: name in fields ==> CanBuildMember(db, r, schema, keySpace, name, fields[name])
    {
      var name :| name in todo;
      var field := BuildNamed(db, r, schema, keySpace, name);
      if field.None? {
        return None;
      }
      WriteOneMore(fields, order, payload, name, field.value);
      payload := Write(payload, name, field.value);
      fields, order := fields[name := field.value], order + [name];
      todo := todo - {name};
    }
    out := Some(payload);
  }

  /** The member set at the exact key, or at the prefixed one if that has no members. */
  method FindMembers(db: Store, xname: string, base: Key) returns (keySpace: Key, names: Option<set<string>>)
    requires base != []
    ensures keySpace == KeySpace(db, xname, base) && names == SMembers(db, keySpace) && keySpace != []
  {
    keySpace, names := base, SMembers(db, base);
    if names.None? || names.value == {} {
      if !HasPrefix(base[0], xname) {
        keySpace := [xname + base[0]] + base[1..];
      }
      names := SMembers(db, keySpace);
    }
  }

  method BuildNamed(db: Store, r: Reader, schema: Schema, keySpace: Key, name: string) returns (j: Option<Json>)
    requires keySpace != []
    ensures j.Some? <==> BuildMember(db, r, schema, keySpace, name).Some?
    ensures j.Some? ==> CanBuildMember(db, r, schema, keySpace, name, j.value)
    decreases schema, 0
  {
    if name !in schema.props {
      return None;
    }
    j := BuildProperty(db, r, schema.props[name], Child(keySpace, name));
  }

  method BuildProperty(db: Store, r: Reader, p: Property, key: Key) returns (j: Option<Json>)
    requires key != []
    ensures j.Some? <==> BuildField(db, r, p, key).Some?
    ensures j.Some? ==> CanBuildField(db, r, p, key, j.value)
    decreases p, 2
  {
    match p.typ {
      case Simple(kind) => j := BuildSimple(db, r, kind, key);
      case Action => j := BuildActionFields(db, r, key);
      case Object(schema) =>
        var fields := BuildStruct(db, r, schema, key);
        j := if fields.Some? then Some(JObj(fields.value)) else None;
      case Array(element) => j := BuildElements(db, r, element, key);
      case Link(isNav, expand) =>
        if expand.Some? {
          j := BuildAutoExpandedLink(db, r, expand.value.members, key);
        } else if isNav {
          j := Some(LinkJson(TrimPrefix(Join(key), r.xname)));
        } else {
          j := Some(StoredLink(db, r, key));
        }
      case Unknown => j := None;
    }
  }

  method BuildActionFields(db: Store, r: Reader, key: Key) returns (j: Option<Json>)
    ensures j == BuildAction(db, r, key)
  {
    var names := SMembers(db, key);
    if names.None? {
      return None;
    }
    var payload: map<string, Json> := map[];
    var todo := names.value;
    while todo != {}
      invariant todo <= names.value
      invariant payload.Keys == names.value - todo
      invariant forall name :: name in payload ==> BuildActionMember(db, r, Child(key, name)) == Some(payload[name])
    {
      var name :| name in todo;
      var member := BuildActionMember(db, r, Child(key, name));
      if member.None? {
        return None;
      }
      payload := payload[name := member.value];
      todo := todo - {name};
    }
    j := Some(JObj(payload));
    assert payload == map name | name in names.value :: OrNull(BuildActionMember(db, r, Child(key, name)));
  }

  method BuildElements(db: Store, r: Reader, element: Property, key: Key) returns (j: Option<Json>)
    requires key != []
    ensures j.Some? <==> BuildArray(db, r, element, key).Some?
    ensures j.Some? ==> CanBuildArray(db, r, element, key, j.value)
    decreases element, 1
  {
    var items := LRange(db, key);
    if items.None? {
      return None;
    }
    var built: seq<Json> := [];
    for i := 0 to |items.value|
      invariant |built| == i
      invariant forall n :: 0 <= n < i ==> BuildElement(db, r, element, key, items.value[n]).Some?
      invariant forall n :: 0 <= n < i ==> CanBuildElement(db, r, element, key, items.value[n], built[n])
    {
      var value := BuildOneElement(db, r, element, key, items.value[i]);
      if value.None? {
        return None;
      }
      built := built + [value.value];
    }
    j := Some(JArr(built));
    ElementsBuilt(db, r, element, key, built);
  }

  lemma ElementsBuilt(db: Store, r: Reader, element: Property, key: Key, built: seq<Json>)
    requires key != [] && LRange(db, key).Some? && |built| == |LRange(db, key).value|
    requires forall n :: 0 <= n < |built| ==> BuildElement(db, r, element, key, LRange(db, key).value[n]).Some?
    requires forall n :: 0 <= n < |built| ==> CanBuildElement(db, r, element, key, LRange(db, key).value[n], built[n])
    ensures BuildArray(db, r, element, key).Some? && CanBuildArray(db, r, element, key, JArr(built))
  {
  }

  method BuildOneElement(db: Store, r: Reader, element: Property, key: Key, item: string) returns (j: Option<Json>)
    requires key != []
    ensures j.Some? <==> BuildElement(db, r, element, key, item).Some?
    ensures j.Some? ==> CanBuildElement(db, r, element, key, item, j.value)
    decreases element, 0
  {
    match element.typ {
      case Simple(_) => j := Some(JStr(item));
      case Link(_, _) => j := Some(StoredLink(db, r, Child(key, item)));
      case Object(schema) =>
        var fields := BuildStruct(db, r, schema, Child(key, item));
        j := if fields.Some? then Some(JObj(fields.value)) else None;
      case _ =>
        var names := SMembers(db, KeySpace(db, r.xname, Child(key, item)));
        j := if names == Some({}) then Some(JObj(map[])) else None;
    }
  }

  method BuildAutoExpandedLink(db: Store, r: Reader, members: Schema, key: Key) returns (j: Option<Json>)
    requires key != []
    ensures j.Some? <==> BuildExpanded(db, r, members, key).Some?
    ensures j.Some? ==> CanBuildExpanded(db, r, members, key, j.value)
    decreases members, 2
  {
    var items := LRange(db, key);
    if items.None? {
      return None;
    }
    var built: seq<Json> := [];
    for i := 0 to |items.value|
      invariant |built| == i
      invariant forall n :: 0 <= n < i ==> CanExpand(db, r, members, Child(key, items.value[n]), built[n])
    {
      var fields := BuildStruct(db, r, members, Child(key, items.value[i]));
      built := built + [if fields.Some? then JObj(fields.value) else JNull];
    }
    j := Some(JArr(built));
  }
}
