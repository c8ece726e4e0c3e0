/** Reading back what was written: `BuildStruct` after `Interface2Redis` and `RedisInsert`. */
module RoundTrip {
  import opened Basics
  import opened Text
  import opened Redis
  import opened Schema
  import opened Convert
  import opened Insert
  import opened Build

  /** Navigation links and actions are dropped on the way in; everything else stays. */
  predicate Stays(p: Property, j: Json) {
    (j.JNull? && p.nullAllowed) || !(p.typ.Action? || (p.typ.Link? && p.typ.isNav))
  }

  // ---------- What reads back ----------

  function NullReads(p: Property): Json {
    match p.typ
    case Object(_) => JObj(map[])
    case Array(_) => JArr([])
    case Link(_, _) => LinkJson("")
    case _ => JNull
  }

  function SimpleReads(kind: SimpleKind, j: Json): Json {
    if kind.Integer? && j.JNum? then JNum(Int64OfFloat(j.n) as real) else j
  }

  ghost function Reads(p: Property, j: Json): Json
    decreases j, 2
  {
    if j.JNull? && p.nullAllowed then NullReads(p)
    else
      match p.typ
      case Simple(kind) => SimpleReads(kind, j)
      case Object(schema) => if j.JObj? then JObj(ReadsObject(schema, j)) else j
      case Array(element) =>
        if j.JArr? then
          JArr(seq(|j.items|, i requires 0 <= i < |j.items| => ReadsElement(element, j.items[i])))
        else j
      case _ => LinkReads(j)
  }

  function LinkReads(j: Json): Json {
    if LinkText(j).Some? then LinkJson(LinkText(j).value) else j
  }

  /** Elements of simple arrays come back as text. */
  ghost function ReadsElement(element: Property, j: Json): Json
    decreases j, 1
  {
    match element.typ
    case Simple(kind) => JStr(if SimpleText(kind, j).Some? then SimpleText(kind, j).value else "")
    case Object(schema) => if j.JObj? then JObj(ReadsObject(schema, j)) else j
    case _ => LinkReads(j)
  }

  ghost function ReadsObject(schema: Schema, j: Json): map<string, Json>
    requires j.JObj?
    decreases j, 0
  {
    Assemble(map name | name in j.fields && name in schema.props && Stays(schema.props[name], j.fields[name]) ::
               Reads(schema.props[name], j.fields[name]))
  }

  // ---------- Which payloads read back ----------

  /** A null member of a simple kind reads as null only if nobody else answers for its key. */
  predicate NullReadable(r: Reader, p: Property, key: Key)
    requires key != []
  {
    match p.typ
    case Simple(_) =>
      BaseName(key) !in {ODATA_ID, ODATA_TYPE, ODATA_CONTEXT} && r.dispatch(key).NoHandler?
    case Object(_) => Fallback(r.xname, key) == key
    case Array(_) => true
    case Link(isNav, expand) => !isNav && expand.None?
    case _ => false
  }

  predicate LinkReadable(r: Reader, j: Json) {
    LinkText(j).Some? && TrimPrefix(LinkText(j).value, r.xname) == LinkText(j).value
  }

  ghost predicate Readable(r: Reader, p: Property, j: Json, key: Key)
    requires key != []
    decreases j, 2
  {
    if j.JNull? && p.nullAllowed then NullReadable(r, p, key)
    else
      match p.typ
      case Simple(kind) => SimpleText(kind, j).Some?
      case Object(schema) => j.JObj? && ReadableObject(r, schema, j, key)
      case Array(element) =>
        j.JArr? && forall i :: 0 <= i < |j.items| ==> ReadableElement(r, element, j.items[i], Child(key, FormatNat(i)))
      case Link(isNav, expand) => if isNav then j.JObj? else expand.None? && LinkReadable(r, j)
      case Action => true
      case Unknown => false
  }

  ghost predicate ReadableElement(r: Reader, element: Property, j: Json, key: Key)
    requires key != []
    decreases j, 1
  {
    match element.typ
    case Simple(kind) => (j.JNull? && element.nullAllowed) || SimpleText(kind, j).Some?
    case Object(schema) => j.JObj? && ReadableObject(r, schema, j, key)
    case Link(isNav, _) => !isNav && LinkReadable(r, j)
    case _ => false
  }

  /** Known names only, something left to store, and every member readable in turn. */
  ghost predicate ReadableObject(r: Reader, schema: Schema, j: Json, key: Key)
    requires key != [] && j.JObj?
    decreases j, 0
  {
    && (forall name :: name in j.fields ==>
          name in schema.props && Readable(r, schema.props[name], j.fields[name], Child(key, name)))
    && (exists name :: name in j.fields && name in schema.props && Stays(schema.props[name], j.fields[name]))
  }

  // ---------- The proof ----------

  lemma SimpleRoundTrip(db: Store, r: Reader, kind: SimpleKind, j: Json, key: Key)
    requires SimpleText(kind, j).Some? && Shows(db, IStr(SimpleText(kind, j).value), key)
    ensures BuildSimple(db, r, kind, key) == Some(SimpleReads(kind, j))
  {
    assert Under(key, key) && Lookup(db, key) == Some(Str(SimpleText(kind, j).value));
    match (kind, j)
    case (Integer, JNum(n)) => ParseFormatInt(Int64OfFloat(n));
    case _ =>
  }

  lemma NullRoundTrip(db: Store, r: Reader, p: Property, key: Key)
    requires key != [] && NullReadable(r, p, key) && Shows(db, INil, key)
    ensures BuildField(db, r, p, key) == Some(NullReads(p))
  {
    assert Under(key, key) && Lookup(db, key) == None;
    UnderChild(key, ODATA_ID, Child(key, ODATA_ID));
    assert Lookup(db, Child(key, ODATA_ID)) == None;
    if p.typ.Array? {
      assert BuildArray(db, r, p.typ.arrayOf, key).value.items == [];
    }
    if p.typ.Object? {
      var none: map<string, Json> := map[];
      assert Assemble(none) == map[];
    }
  }

  lemma LinkStored(db: Store, text: string, key: Key)
    requires Shows(db, LinkData(text), key)
    ensures Get(db, Child(key, ODATA_ID)) == Some(text)
  {
    ShowsField(db, map[ODATA_ID := IStr(text)], key, ODATA_ID);
    assert Under(Child(key, ODATA_ID), Child(key, ODATA_ID));
  }

  lemma LinkInsertable(text: string)
    ensures Insertable(LinkData(text))
  {
    assert ODATA_ID in LinkData(text).fields;
  }

  lemma LinkRoundTrip(db: Store, r: Reader, j: Json, key: Key)
    requires LinkReadable(r, j) && Shows(db, LinkData(LinkText(j).value), key)
    ensures StoredLink(db, r, key) == LinkReads(j)
  {
    LinkStored(db, LinkText(j).value, key);
  }

  /** One field: it converts, what it converts to can be inserted, and it reads back. */
  lemma {:induction false} FieldRoundTrip(db: Store, r: Reader, p: Property, j: Json, key: Key, path: seq<string>)
    requires key != [] && Readable(r, p, j, key)
    ensures var c := ConvertField(p, j, path, None);
            && c.Conv? && (Kept(c) <==> Stays(p, j)) && Insertable(c.value)
            && (Kept(c) && Shows(db, c.value, key) ==> BuildField(db, r, p, key) == Some(Reads(p, j)))
    decreases j, 4
  {
    var c := ConvertField(p, j, path, None);
    if j.JNull? && p.nullAllowed {
      if Shows(db, c.value, key) {
        NullRoundTrip(db, r, p, key);
      }
    } else {
      var v := ConvertValue(p, j, path, None);
      match p.typ
      case Simple(kind) =>
        assert v == Some(IStr(SimpleText(kind, j).value));
        if Shows(db, c.value, key) {
          SimpleRoundTrip(db, r, kind, j, key);
        }
      case Object(schema) =>
        ObjectRoundTrip(db, r, schema, j, key, path);
        assert v == Some(IObj(ConvertObject(schema, j, path, None).value));
      case Array(element) =>
        assert ReadableArray(r, element, j, key);
        ArrayConverts(db, r, element, j, key, path);
        assert v == ConvertArray(element, j, path, None);
        if Shows(db, c.value, key) {
          ArrayRoundTrip(db, r, element, j, key, path);
        }
      case Link(isNav, _) =>
        if !isNav {
          LinkInsertable(LinkText(j).value);
          assert v == Some(LinkData(LinkText(j).value));
          if Shows(db, c.value, key) {
            LinkRoundTrip(db, r, j, key);
          }
        }
      case Action =>
      case Unknown =>
    }
  }

  lemma SimpleConverts(element: Property, j: Json, path: seq<string>)
    requires element.typ.Simple? && ((j.JNull? && element.nullAllowed) || SimpleText(element.typ.kind, j).Some?)
    ensures var c := ConvertField(element, j, path, None);
            c.Conv? && (c.value.INil? || c.value.IStr?) && JStr(PushText(c.value)) == ReadsElement(element, j)
  {
    if j.JNull? {
      assert SimpleText(element.typ.kind, j).None?;
    }
  }

  lemma {:induction false} ElementConverts(db: Store, r: Reader, element: Property, j: Json, key: Key,
                                           path: seq<string>)
    requires key != [] && ReadableElement(r, element, j, key)
    ensures var c := ConvertField(element, j, path, None);
            && c.Conv? && Insertable(c.value)
            && (element.typ.Simple? ==>
                  (c.value.INil? || c.value.IStr?) && JStr(PushText(c.value)) == ReadsElement(element, j))
            && (!element.typ.Simple? ==> c.value.IObj?)
    decreases j, 3
  {
    var v := ConvertValue(element, j, path, None);
    match element.typ
    case Simple(kind) => SimpleConverts(element, j, path);
    case Object(schema) => ObjectRoundTrip(db, r, schema, j, key, path);
    case Link(_, _) =>
      LinkInsertable(LinkText(j).value);
      assert v == Some(LinkData(LinkText(j).value));
    case _ =>
  }

  lemma {:induction false} ElementRoundTrip(db: Store, r: Reader, element: Property, j: Json, key: Key, item: string,
                                            path: seq<string>)
    requires key != [] && ReadableElement(r, element, j, Child(key, item)) && !element.typ.Simple?
    requires ConvertField(element, j, path, None).Conv?
    requires Shows(db, ConvertField(element, j, path, None).value, Child(key, item))
    ensures BuildElement(db, r, element, key, item) == Some(ReadsElement(element, j))
    decreases j, 3
  {
    match element.typ
    case Object(schema) => ObjectRoundTrip(db, r, schema, j, Child(key, item), path);
    case Link(_, _) => LinkRoundTrip(db, r, j, Child(key, item));
    case _ =>
  }

  ghost predicate ReadableArray(r: Reader, element: Property, j: Json, key: Key)
    requires key != [] && j.JArr?
    decreases j, 0
  {
    forall i :: 0 <= i < |j.items| ==> ReadableElement(r, element, j.items[i], Child(key, FormatNat(i)))
  }

  lemma ArrayConverts(db: Store, r: Reader, element: Property, j: Json, key: Key, path: seq<string>)
    requires key != [] && j.JArr? && ReadableArray(r, element, j, key)
    ensures ConvertArray(element, j, path, None).Some?
    ensures var v := ConvertArray(element, j, path, None).value;
            && Insertable(v) && v == IArr(!element.typ.Simple?, v.elements) && |v.elements| == |j.items|
            && (forall i :: 0 <= i < |j.items| ==>
                  ConvertElement(element, j, i, path, None).Conv? &&
                  v.elements[i] == ConvertElement(element, j, i, path, None).value)
            && (element.typ.Simple? ==> Pushable(v.elements) && forall i :: 0 <= i < |j.items| ==>
                  JStr(PushText(v.elements[i])) == ReadsElement(element, j.items[i]))
    decreases j, 0
  {
    forall i | 0 <= i < |j.items|
      ensures var c := ConvertElement(element, j, i, path, None);
              && c.Conv? && Insertable(c.value)
              && (element.typ.Simple? ==>
                    (c.value.INil? || c.value.IStr?) && JStr(PushText(c.value)) == ReadsElement(element, j.items[i]))
              && (!element.typ.Simple? ==> c.value.IObj?)
    {
      ElementConverts(db, r, element, j.items[i], Child(key, FormatNat(i)), path + [FormatNat(i)]);
    }
  }

  lemma ArrayRoundTrip(db: Store, r: Reader, element: Property, j: Json, key: Key, path: seq<string>)
    requires key != [] && j.JArr? && ReadableArray(r, element, j, key)
    requires ConvertArray(element, j, path, None).Some?
    requires Shows(db, ConvertArray(element, j, path, None).value, key)
    ensures BuildArray(db, r, element, key) ==
              Some(JArr(seq(|j.items|, i requires 0 <= i < |j.items| => ReadsElement(element, j.items[i]))))
    decreases j, 1
  {
    ArrayConverts(db, r, element, j, key, path);
    var elements := ConvertArray(element, j, path, None).value.elements;
    assert Under(key, key);
    var items := LRange(db, key).value;
    if element.typ.Simple? {
      assert items == PushTexts(elements);
    } else {
      assert items == Indices(|elements|);
      forall i | 0 <= i < |j.items|
        ensures BuildElement(db, r, element, key, items[i]) == Some(ReadsElement(element, j.items[i]))
      {
        IndexNamedFinds(i, |elements|);
        ShowsElement(db, elements, key, i, FormatNat(i));
        ElementRoundTrip(db, r, element, j.items[i], key, FormatNat(i), path + [FormatNat(i)]);
      }
    }
    assert BuildArray(db, r, element, key).Some?;
    assert BuildArray(db, r, element, key).value.items ==
             seq(|j.items|, i requires 0 <= i < |j.items| => ReadsElement(element, j.items[i]));
  }

  lemma ObjectConverts(db: Store, r: Reader, schema: Schema, j: Json, key: Key, path: seq<string>)
    requires key != [] && j.JObj? && ReadableObject(r, schema, j, key)
    ensures ConvertObject(schema, j, path, None).Some?
    ensures var fields := ConvertObject(schema, j, path, None).value;
            && Insertable(IObj(fields))
            && (forall name :: name in fields <==> name in j.fields && Stays(schema.props[name], j.fields[name]))
            && (forall name :: name in fields ==>
                  ConvertField(schema.props[name], j.fields[name], path + [name], None).Conv? &&
                  Kept(ConvertField(schema.props[name], j.fields[name], path + [name], None)) &&
                  fields[name] == ConvertField(schema.props[name], j.fields[name], path + [name], None).value)
    decreases j, 0
  {
    forall name | name in j.fields
      ensures var c := ConvertMember(schema, j, name, path, None);
              c == ConvertField(schema.props[name], j.fields[name], path + [name], None) &&
              c.Conv? && (Kept(c) <==> Stays(schema.props[name], j.fields[name])) && Insertable(c.value)
    {
      FieldRoundTrip(db, r, schema.props[name], j.fields[name], Child(key, name), path + [name]);
    }
    var some :| some in j.fields && some in schema.props && Stays(schema.props[some], j.fields[some]);
    assert Kept(ConvertMember(schema, j, some, path, None));
    assert some in ConvertObject(schema, j, path, None).value;
  }

  lemma ObjectReads(db: Store, r: Reader, schema: Schema, j: Json, key: Key, path: seq<string>)
    requires key != [] && j.JObj? && ReadableObject(r, schema, j, key)
    requires ConvertObject(schema, j, path, None).Some?
    requires Shows(db, IObj(ConvertObject(schema, j, path, None).value), key)
    ensures BuildObject(db, r, schema, key) == Some(ReadsObject(schema, j))
    decreases j, 1
  {
    ObjectConverts(db, r, schema, j, key, path);
    var fields := ConvertObject(schema, j, path, None).value;
    assert Under(key, key) && Lookup(db, key) == Some(Set(fields.Keys));
    assert KeySpace(db, r.xname, key) == key;
    forall name | name in fields
      ensures BuildMember(db, r, schema, key, name) == Some(Reads(schema.props[name], j.fields[name]))
    {
      ShowsField(db, fields, key, name);
      FieldRoundTrip(db, r, schema.props[name], j.fields[name], Child(key, name), path + [name]);
    }
    assert (map name | name in fields.Keys :: OrNull(BuildMember(db, r, schema, key, name))) ==
           (map name | name in j.fields && name in schema.props && Stays(schema.props[name], j.fields[name]) ::
              Reads(schema.props[name], j.fields[name]));
  }

  /** A readable object converts without error, inserts without panic, and reads back as
      `ReadsObject` from any store that shows it. */
  lemma ObjectRoundTrip(db: Store, r: Reader, schema: Schema, j: Json, key: Key, path: seq<string>)
    requires key != [] && j.JObj? && ReadableObject(r, schema, j, key)
    ensures ConvertObject(schema, j, path, None).Some?
    ensures Insertable(IObj(ConvertObject(schema, j, path, None).value))
    ensures Shows(db, IObj(ConvertObject(schema, j, path, None).value), key) ==>
              BuildObject(db, r, schema, key) == Some(ReadsObject(schema, j))
    decreases j, 2
  {
    ObjectConverts(db, r, schema, j, key, path);
    if Shows(db, IObj(ConvertObject(schema, j, path, None).value), key) {
      ObjectReads(db, r, schema, j, key, path);
    }
  }

  // ---------- Plain payloads come back unchanged ----------

  /** The payload with the count of every array added next to it, and nothing else changed. */
  ghost function WithCounts(j: Json): Json {
    match j
    case JObj(fields) => JObj(Assemble(map name | name in fields :: WithCounts(fields[name])))
    case JArr(items) => JArr(seq(|items|, i requires 0 <= i < |items| => WithCounts(items[i])))
    case _ => j
  }

  predicate PlainSimple(kind: SimpleKind, j: Json) {
    match kind
    case Integer => j.JNum? && j.n == j.n.Floor as real && MIN_INT64 <= j.n.Floor <= MAX_INT64
    case Bool => j.JBool?
    case _ => j.JStr?
  }

  /** A link and nothing more, not starting with the reader's xname. */
  predicate PlainLink(r: Reader, j: Json) {
    LinkReadable(r, j) && j == LinkJson(LinkText(j).value)
  }

  /** Typed by the schema: no nulls, no navigation links or actions, no empty objects, whole
      numbers that fit 64 bits, and arrays of texts, objects or links. */
  ghost predicate Plain(r: Reader, p: Property, j: Json)
    decreases j, 1
  {
    match p.typ
    case Simple(kind) => PlainSimple(kind, j)
    case Object(schema) => j.JObj? && PlainObject(r, schema, j)
    case Array(element) => j.JArr? && forall i :: 0 <= i < |j.items| ==> PlainElement(r, element, j.items[i])
    case Link(isNav, expand) => !isNav && expand.None? && PlainLink(r, j)
    case _ => false
  }

  ghost predicate PlainElement(r: Reader, element: Property, j: Json)
    decreases j, 1
  {
    match element.typ
    case Simple(kind) => (kind.String? || kind.Enum?) && j.JStr?
    case Object(schema) => j.JObj? && PlainObject(r, schema, j)
    case Link(isNav, _) => !isNav && PlainLink(r, j)
    case _ => false
  }

  ghost predicate PlainObject(r: Reader, schema: Schema, j: Json)
    requires j.JObj?
    decreases j, 0
  {
    j.fields != map[] && forall name :: name in j.fields ==>
      name in schema.props && Plain(r, schema.props[name], j.fields[name])
  }

  lemma LinkHasNoCounts(text: string)
    ensures WithCounts(LinkJson(text)) == LinkJson(text)
  {
    var fields := map[ODATA_ID := JStr(text)];
    assert (map name | name in fields :: WithCounts(fields[name])) == fields;
    forall k
      ensures !CountsArray(fields, k)
    {
    }
    assert CountKeys(fields) == {};
    assert Assemble(fields) == fields;
  }

  lemma {:induction false} PlainReads(r: Reader, p: Property, j: Json, key: Key)
    requires key != [] && Plain(r, p, j)
    ensures Readable(r, p, j, key) && Stays(p, j) && Reads(p, j) == WithCounts(j)
    decreases j, 2
  {
    match p.typ
    case Simple(kind) =>
    case Object(schema) => PlainObjectReads(r, schema, j, key);
    case Array(element) =>
      forall i | 0 <= i < |j.items|
        ensures ReadableElement(r, element, j.items[i], Child(key, FormatNat(i)))
        ensures ReadsElement(element, j.items[i]) == WithCounts(j.items[i])
      {
        PlainElementReads(r, element, j.items[i], Child(key, FormatNat(i)));
      }
      assert Reads(p, j).items == WithCounts(j).items;
    case Link(_, _) => LinkHasNoCounts(LinkText(j).value);
  }

  lemma {:induction false} PlainElementReads(r: Reader, element: Property, j: Json, key: Key)
    requires key != [] && PlainElement(r, element, j)
    ensures ReadableElement(r, element, j, key) && ReadsElement(element, j) == WithCounts(j)
    decreases j, 1
  {
    match element.typ
    case Simple(kind) =>
    case Object(schema) => PlainObjectReads(r, schema, j, key);
    case Link(_, _) => LinkHasNoCounts(LinkText(j).value);
  }

  lemma {:induction false} PlainObjectReads(r: Reader, schema: Schema, j: Json, key: Key)
    requires key != [] && j.JObj? && PlainObject(r, schema, j)
    ensures ReadableObject(r, schema, j, key) && JObj(ReadsObject(schema, j)) == WithCounts(j)
    decreases j, 0
  {
    forall name | name in j.fields
      ensures Readable(r, schema.props[name], j.fields[name], Child(key, name))
      ensures Stays(schema.props[name], j.fields[name])
      ensures Reads(schema.props[name], j.fields[name]) == WithCounts(j.fields[name])
    {
      PlainReads(r, schema.props[name], j.fields[name], Child(key, name));
    }
    var some :| some in j.fields;
    assert (map name | name in j.fields && name in schema.props && Stays(schema.props[name], j.fields[name]) ::
              Reads(schema.props[name], j.fields[name])) ==
           (map name | name in j.fields :: WithCounts(j.fields[name]));
  }

  /** The round trip: a plain payload written under any key reads back as itself with the
      array counts added, from every store that shows what was written. */
  lemma PlainRoundTrip(db: Store, r: Reader, schema: Schema, j: Json, key: Key)
    requires key != [] && j.JObj? && PlainObject(r, schema, j)
    ensures ConvertObject(schema, j, [], None).Some?
    ensures Insertable(IObj(ConvertObject(schema, j, [], None).value))
    ensures Shows(db, IObj(ConvertObject(schema, j, [], None).value), key) ==>
              BuildObject(db, r, schema, key).Some? &&
              JObj(BuildObject(db, r, schema, key).value) == WithCounts(j)
  {
    PlainObjectReads(r, schema, j, key);
    ObjectRoundTrip(db, r, schema, j, key, []);
  }
}
