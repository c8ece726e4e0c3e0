/** Which plain payloads come back the same in whatever order they are read. */
module Counts {
  import opened Basics
  import opened Text
  import opened Redis
  import opened Schema
  import opened Convert
  import opened Insert
  import opened Build
  import opened RoundTrip
  import opened Order

  /** Wherever the payload itself carries the count of one of its arrays, it is right. */
  ghost predicate CountsRight(j: Json) {
    match j
    case JObj(fields) => CountsAgree(fields) && forall name :: name in fields ==> CountsRight(fields[name])
    case JArr(items) => forall i :: 0 <= i < |items| ==> CountsRight(items[i])
    case _ => true
  }

  lemma SameShape(j: Json)
    ensures WithCounts(j).JArr? <==> j.JArr?
    ensures j.JArr? ==> |WithCounts(j).items| == |j.items|
    ensures forall n :: WithCounts(j) == JNum(n) <==> j == JNum(n)
  {
  }

  lemma SameCounts(fields: map<string, Json>, counted: map<string, Json>)
    requires counted.Keys == fields.Keys && forall name :: name in fields ==> counted[name] == WithCounts(fields[name])
    ensures CountsAgree(counted) <==> CountsAgree(fields)
  {
    forall name | name in fields
      ensures counted[name].JArr? <==> fields[name].JArr?
      ensures fields[name].JArr? ==> CountOf(counted[name]) == CountOf(fields[name])
      ensures forall n :: counted[name] == JNum(n) <==> fields[name] == JNum(n)
    {
      SameShape(fields[name]);
    }
  }

  lemma {:induction false} FieldCounts(db: Store, r: Reader, p: Property, j: Json, key: Key, path: seq<string>)
    requires key != [] && Plain(r, p, j) && ConvertField(p, j, path, None).Conv? &&
             Shows(db, ConvertField(p, j, path, None).value, key)
    ensures AgreesField(db, r, p, key) <==> CountsRight(j)
    decreases j, 4
  {
    match p.typ
    case Object(schema) =>
      ObjectConverted(schema, p, j, path);
      ObjectCounts(db, r, schema, j, key, path);
    case Array(element) => ArrayCounts(db, r, element, j, key, path);
    case Link(_, _) =>
    case Simple(_) =>
  }

  lemma ObjectConverted(schema: Schema, p: Property, j: Json, path: seq<string>)
    requires j.JObj? && p.typ == Object(schema) && ConvertField(p, j, path, None).Conv?
    ensures ConvertObject(schema, j, path, None).Some?
    ensures ConvertField(p, j, path, None).value == IObj(ConvertObject(schema, j, path, None).value)
  {
  }

  lemma LinkCountsRight(j: Json)
    ensures j.JStr? || (LinkText(j).Some? && j == LinkJson(LinkText(j).value)) ==> CountsRight(j)
  {
  }

  lemma SameElements(db: Store, r: Reader, element: Property, j: Json, key: Key)
    requires key != [] && j.JArr? && LRange(db, key) == Some(Indices(|j.items|))
    requires forall i :: 0 <= i < |j.items| ==>
               (AgreesElement(db, r, element, Child(key, Indices(|j.items|)[i])) <==> CountsRight(j.items[i]))
    ensures AgreesArray(db, r, element, key) <==> CountsRight(j)
  {
    var items := Indices(|j.items|);
    forall i | 0 <= i < |items|
      ensures items[i] in items
    {
    }
  }

  lemma {:induction false} ArrayCounts(db: Store, r: Reader, element: Property, j: Json, key: Key, path: seq<string>)
    requires key != [] && j.JArr? && (forall i :: 0 <= i < |j.items| ==> PlainElement(r, element, j.items[i]))
    requires ConvertArray(element, j, path, None).Some? && Shows(db, ConvertArray(element, j, path, None).value, key)
    ensures AgreesArray(db, r, element, key) <==> CountsRight(j)
    decreases j, 1
  {
    forall i | 0 <= i < |j.items|
      ensures ReadableElement(r, element, j.items[i], Child(key, FormatNat(i)))
    {
      PlainElementReads(r, element, j.items[i], Child(key, FormatNat(i)));
    }
    ArrayConverts(db, r, element, j, key, path);
    var elements := ConvertArray(element, j, path, None).value.elements;
    assert Under(key, key) && Reaches(ConvertArray(element, j, path, None).value, key, |key|);
    if element.typ.Object? {
      assert LRange(db, key) == Some(Indices(|elements|));
      forall i | 0 <= i < |elements|
        ensures AgreesElement(db, r, element, Child(key, Indices(|elements|)[i])) <==> CountsRight(j.items[i])
      {
        IndexNamedFinds(i, |elements|);
        ShowsElement(db, elements, key, i, FormatNat(i));
        ObjectConverted(element.typ.schema, element, j.items[i], path + [FormatNat(i)]);
        ObjectCounts(db, r, element.typ.schema, j.items[i], Child(key, FormatNat(i)), path + [FormatNat(i)]);
      }
      SameElements(db, r, element, j, key);
    } else {
      forall i | 0 <= i < |j.items|
        ensures CountsRight(j.items[i])
      {
        assert PlainElement(r, element, j.items[i]);
        LinkCountsRight(j.items[i]);
      }
    }
  }

  lemma {:induction false} ObjectCounts(db: Store, r: Reader, schema: Schema, j: Json, key: Key, path: seq<string>)
    requires key != [] && j.JObj? && PlainObject(r, schema, j)
    requires ConvertObject(schema, j, path, None).Some? &&
             Shows(db, IObj(ConvertObject(schema, j, path, None).value), key)
    ensures Agrees(db, r, schema, key) <==> CountsRight(j)
    decreases j, 3
  {
    PlainObjectReads(r, schema, j, key);
    ObjectConverts(db, r, schema, j, key, path);
    ObjectRoundTrip(db, r, schema, j, key, path);
    var fields := ConvertObject(schema, j, path, None).value;
    assert Under(key, key) && Reaches(IObj(fields), key, |key|) && Lookup(db, key) == Some(Set(fields.Keys));
    forall name | name in j.fields
      ensures name in fields
      ensures BuildMember(db, r, schema, key, name) == Some(WithCounts(j.fields[name]))
      ensures AgreesMember(db, r, schema, key, name) <==> CountsRight(j.fields[name])
    {
      MemberCounts(db, r, schema, j, key, path, name);
    }
    assert fields.Keys == j.fields.Keys;
    SameMembers(db, r, schema, j, key);
  }

  lemma SameMembers(db: Store, r: Reader, schema: Schema, j: Json, key: Key)
    requires key != [] && j.JObj? && j.fields != map[] && Lookup(db, key) == Some(Set(j.fields.Keys))
    requires BuildObject(db, r, schema, key).Some?
    requires forall name :: name in j.fields ==>
               BuildMember(db, r, schema, key, name) == Some(WithCounts(j.fields[name]))
    requires forall name :: name in j.fields ==>
               (AgreesMember(db, r, schema, key, name) <==> CountsRight(j.fields[name]))
    ensures Agrees(db, r, schema, key) <==> CountsRight(j)
  {
    var some :| some in j.fields;
    assert KeySpace(db, r.xname, key) == key && MembersOf(db, key) == j.fields.Keys;
    SameCounts(j.fields, FieldsRead(db, r, schema, key));
  }

  lemma {:induction false} MemberCounts(db: Store, r: Reader, schema: Schema, j: Json, key: Key, path: seq<string>,
                                        name: string)
    requires key != [] && j.JObj? && PlainObject(r, schema, j) && name in j.fields
    requires ConvertObject(schema, j, path, None).Some? &&
             Shows(db, IObj(ConvertObject(schema, j, path, None).value), key)
    ensures name in ConvertObject(schema, j, path, None).value
    ensures BuildMember(db, r, schema, key, name) == Some(WithCounts(j.fields[name]))
    ensures AgreesMember(db, r, schema, key, name) <==> CountsRight(j.fields[name])
    decreases j, 0
  {
    PlainObjectReads(r, schema, j, key);
    ObjectConverts(db, r, schema, j, key, path);
    var fields, child := ConvertObject(schema, j, path, None).value, Child(key, name);
    PlainReads(r, schema.props[name], j.fields[name], child);
    ShowsField(db, fields, key, name);
    FieldRoundTrip(db, r, schema.props[name], j.fields[name], child, path + [name]);
    FieldCounts(db, r, schema.props[name], j.fields[name], child, path + [name]);
  }

  /** A plain payload that is shown by the store comes back as itself with its counts in every
      order if and only if the counts that it carries itself are right. */
  lemma PlainInEveryOrder(db: Store, r: Reader, schema: Schema, j: Json, key: Key)
    requires key != [] && j.JObj? && PlainObject(r, schema, j) && ConvertObject(schema, j, [], None).Some?
    requires Shows(db, IObj(ConvertObject(schema, j, [], None).value), key)
    ensures (forall payload :: CanBuild(db, r, schema, key, payload) ==> JObj(payload) == WithCounts(j)) <==>
              CountsRight(j)
  {
    PlainRoundTrip(db, r, schema, j, key);
    ObjectCounts(db, r, schema, j, key, []);
    OrderExactly(db, r, schema, key);
  }
}
