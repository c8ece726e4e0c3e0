/** Reading a resource depends on no key outside the resource. */
module Isolation {
  import opened Redis
  import opened Schema
  import opened Build
  import opened Order

  /** The readers differ at most in where the generated annotation comes from. */
  ghost predicate SameReader(r: Reader, r': Reader) {
    r'.xname == r.xname && r'.uri == r.uri && r'.odataType == r.odataType && r'.dispatch == r.dispatch
  }

  /** The two keyspaces that a read at `base` may consult, and the generated annotation. */
  ghost predicate SameRegion(db: Store, db': Store, r: Reader, r': Reader, base: Key)
    requires base != []
  {
    && SameReader(r, r')
    && Agree(db, db', base)
    && Agree(db, db', Fallback(r.xname, base))
    && ContextText(db, r) == ContextText(db', r')
  }

  lemma RegionChild(db: Store, db': Store, r: Reader, r': Reader, base: Key, keySpace: Key, name: string)
    requires base != [] && SameRegion(db, db', r, r', base)
    requires keySpace == base || keySpace == Fallback(r.xname, base)
    ensures SameRegion(db, db', r, r', Child(keySpace, name))
  {
    FallbackChild(r.xname, base, name);
    FallbackChild(r.xname, keySpace, name);
    forall k | Under(Child(keySpace, name), k)
      ensures Lookup(db, k) == Lookup(db', k)
    {
      UnderChild(keySpace, name, k);
    }
    forall k | Under(Child(Fallback(r.xname, base), name), k)
      ensures Lookup(db, k) == Lookup(db', k)
    {
      UnderChild(Fallback(r.xname, base), name, k);
    }
  }

  lemma RegionKeySpace(db: Store, db': Store, r: Reader, r': Reader, base: Key)
    requires base != [] && SameRegion(db, db', r, r', base)
    ensures KeySpace(db, r.xname, base) == KeySpace(db', r'.xname, base)
    ensures SMembers(db, KeySpace(db, r.xname, base)) == SMembers(db', KeySpace(db, r.xname, base))
  {
    assert Under(base, base) && Lookup(db, base) == Lookup(db', base);
    var other := Fallback(r.xname, base);
    assert Under(other, other) && Lookup(db, other) == Lookup(db', other);
  }

  lemma LeavesAgree(db: Store, db': Store, r: Reader, r': Reader, kind: SimpleKind, key: Key)
    requires key != [] && SameRegion(db, db', r, r', key)
    ensures BuildSimple(db, r, kind, key) == BuildSimple(db', r', kind, key)
    ensures StoredLink(db, r, key) == StoredLink(db', r', key)
    ensures LRange(db, key) == LRange(db', key)
  {
    assert Under(key, key) && Lookup(db, key) == Lookup(db', key);
    UnderChild(key, ODATA_ID, Child(key, ODATA_ID));
    assert Lookup(db, Child(key, ODATA_ID)) == Lookup(db', Child(key, ODATA_ID));
  }

  lemma ActionsAgree(db: Store, db': Store, r: Reader, r': Reader, key: Key)
    requires SameReader(r, r') && Agree(db, db', key)
    ensures BuildAction(db, r, key) == BuildAction(db', r', key)
  {
    assert Under(key, key) && Lookup(db, key) == Lookup(db', key);
    forall name
      ensures BuildActionMember(db, r, Child(key, name)) == BuildActionMember(db', r', Child(key, name))
    {
      UnderChild(key, name, Child(key, name));
      assert Lookup(db, Child(key, name)) == Lookup(db', Child(key, name));
    }
    if SMembers(db, key).Some? {
      var names := SMembers(db, key).value;
      assert (map name | name in names :: OrNull(BuildActionMember(db, r, Child(key, name)))) ==
             (map name | name in names :: OrNull(BuildActionMember(db', r', Child(key, name))));
    }
  }

  lemma {:induction false} ObjectIsolated(db: Store, db': Store, r: Reader, r': Reader, schema: Schema, base: Key)
    requires base != [] && SameRegion(db, db', r, r', base)
    ensures BuildObject(db, r, schema, base) == BuildObject(db', r', schema, base)
    ensures Agrees(db, r, schema, base) == Agrees(db', r', schema, base)
    decreases schema, 1
  {
    RegionKeySpace(db, db', r, r', base);
    var keySpace := KeySpace(db, r.xname, base);
    if SMembers(db, keySpace).Some? {
      var names := SMembers(db, keySpace).value;
      forall name | name in names
        ensures BuildMember(db, r, schema, keySpace, name) == BuildMember(db', r', schema, keySpace, name)
        ensures AgreesMember(db, r, schema, keySpace, name) == AgreesMember(db', r', schema, keySpace, name)
      {
        RegionChild(db, db', r, r', base, keySpace, name);
        if name in schema.props {
          FieldIsolated(db, db', r, r', schema.props[name], Child(keySpace, name));
        }
      }
      assert (map name | name in names :: OrNull(BuildMember(db, r, schema, keySpace, name))) ==
             (map name | name in names :: OrNull(BuildMember(db', r', schema, keySpace, name)));
    }
  }

  lemma {:induction false} FieldIsolated(db: Store, db': Store, r: Reader, r': Reader, p: Property, key: Key)
    requires key != [] && SameRegion(db, db', r, r', key)
    ensures BuildField(db, r, p, key) == BuildField(db', r', p, key)
    ensures AgreesField(db, r, p, key) == AgreesField(db', r', p, key)
    decreases p, 2
  {
    match p.typ
    case Simple(kind) => LeavesAgree(db, db', r, r', kind, key);
    case Action => ActionsAgree(db, db', r, r', key);
    case Object(schema) => ObjectIsolated(db, db', r, r', schema, key);
    case Array(element) => ArrayIsolated(db, db', r, r', element, key);
    case Link(_, expand) =>
      LeavesAgree(db, db', r, r', String, key);
      if expand.Some? {
        ExpandedIsolated(db, db', r, r', expand.value.members, key);
      }
    case Unknown =>
  }

  lemma {:induction false} ElementIsolated(db: Store, db': Store, r: Reader, r': Reader, element: Property, key: Key,
                                           item: string)
    requires key != [] && SameRegion(db, db', r, r', key)
    ensures BuildElement(db, r, element, key, item) == BuildElement(db', r', element, key, item)
    ensures AgreesElement(db, r, element, Child(key, item)) == AgreesElement(db', r', element, Child(key, item))
    decreases element, 0
  {
    RegionChild(db, db', r, r', key, key, item);
    LeavesAgree(db, db', r, r', String, Child(key, item));
    RegionKeySpace(db, db', r, r', Child(key, item));
    match element.typ
    case Object(schema) => ObjectIsolated(db, db', r, r', schema, Child(key, item));
    case _ =>
  }

  lemma {:induction false} ArrayIsolated(db: Store, db': Store, r: Reader, r': Reader, element: Property, key: Key)
    requires key != [] && SameRegion(db, db', r, r', key)
    ensures BuildArray(db, r, element, key) == BuildArray(db', r', element, key)
    ensures AgreesArray(db, r, element, key) == AgreesArray(db', r', element, key)
    decreases element, 1
  {
    LeavesAgree(db, db', r, r', String, key);
    if LRange(db, key).Some? {
      var items := LRange(db, key).value;
      forall i | 0 <= i < |items|
        ensures BuildElement(db, r, element, key, items[i]) == BuildElement(db', r', element, key, items[i])
        ensures AgreesElement(db, r, element, Child(key, items[i])) ==
                  AgreesElement(db', r', element, Child(key, items[i]))
      {
        ElementIsolated(db, db', r, r', element, key, items[i]);
      }
      assert seq(|items|, i requires 0 <= i < |items| => OrNull(BuildElement(db, r, element, key, items[i]))) ==
             seq(|items|, i requires 0 <= i < |items| => OrNull(BuildElement(db', r', element, key, items[i])));
    }
  }

  lemma {:induction false} ExpandedIsolated(db: Store, db': Store, r: Reader, r': Reader, members: Schema, key: Key)
    requires key != [] && SameRegion(db, db', r, r', key)
    ensures BuildExpanded(db, r, members, key) == BuildExpanded(db', r', members, key)
    ensures AgreesExpanded(db, r, members, key) == AgreesExpanded(db', r', members, key)
    decreases members, 2
  {
    LeavesAgree(db, db', r, r', String, key);
    if LRange(db, key).Some? {
      var items := LRange(db, key).value;
      forall i | 0 <= i < |items|
        ensures BuildObject(db, r, members, Child(key, items[i])) == BuildObject(db', r', members, Child(key, items[i]))
        ensures Agrees(db, r, members, Child(key, items[i])) == Agrees(db', r', members, Child(key, items[i]))
      {
        RegionChild(db, db', r, r', key, key, items[i]);
        ObjectIsolated(db, db', r, r', members, Child(key, items[i]));
      }
      assert BuildExpanded(db, r, members, key).value.items == BuildExpanded(db', r', members, key).value.items;
    }
  }

  /** The answer for a resource is the same on any two stores that agree on the keys under
      its URI and under its xname-prefixed URI. */
  lemma ReadIsolation(db: Store, db': Store, r: Reader, schema: Schema)
    requires r.uri != [] && TrimEmpty(r.uri) == r.uri
    requires Agree(db, db', r.uri) && Agree(db, db', Fallback(r.xname, r.uri))
    ensures BuildObject(db, r, schema, r.uri) == BuildObject(db', r, schema, r.uri)
    ensures Agrees(db, r, schema, r.uri) == Agrees(db', r, schema, r.uri)
  {
    assert Under(r.uri, r.uri) && Lookup(db, r.uri) == Lookup(db', r.uri);
    ObjectIsolated(db, db', r, r, schema, r.uri);
  }
}
