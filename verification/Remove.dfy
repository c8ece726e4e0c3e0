/** `redisRemoveObject`, `redisRemoveField` and `redisRemoveArray`: which keys they delete. */
module Remove {
  import opened Basics
  import opened Redis
  import opened Schema

  /** The schema property of a member, if there is a schema and it knows the name. */
  function PropOf(schema: Option<Schema>, name: string): Option<Property> {
    if schema.Some? && name in schema.value.props then Some(schema.value.props[name]) else None
  }

  function FieldsOf(p: Option<Property>): Option<Schema> {
    if p.Some? && p.value.typ.Object? then Some(p.value.typ.schema) else None
  }

  predicate IsNavLink(p: Option<Property>) {
    p.Some? && p.value.typ.Link? && p.value.typ.isNav
  }

  /** What removing a list does with its elements: nothing, remove them as objects, or fail
      because the property has no element property. */
  datatype Elements = Leave | Into(schema: Option<Schema>) | Trap

  function ElementsFor(element: Property): Elements {
    if element.typ.Simple? then Leave else Into(FieldsOf(Some(element)))
  }

  function ElementsOf(p: Option<Property>): Elements {
    if p.None? then Leave
    else
      match p.value.typ
      case Array(element) => ElementsFor(element)
      case Link(_, Some(expansion)) => ElementsFor(expansion.arrayOf)
      case _ => Trap
  }

  predicate HasMember(db: Store, key: Key, name: string) {
    key in db && db[key].Set? && name in db[key].members
  }

  predicate HasItem(db: Store, key: Key, item: string) {
    key in db && db[key].List? && item in db[key].items
  }

  // ---------- Which keys go ----------

  /** Removing the object at `k[..i]` deletes key `k`. */
  predicate ObjectDeletes(db: Store, schema: Option<Schema>, k: Key, i: nat)
    requires i <= |k|
    decreases |k| - i, 0
  {
    i == |k| || (HasMember(db, k[..i], k[i]) && FieldDeletes(db, PropOf(schema, k[i]), k, i + 1))
  }

  predicate FieldDeletes(db: Store, p: Option<Property>, k: Key, i: nat)
    requires i <= |k|
    decreases |k| - i, 1
  {
    match Lookup(db, k[..i])
    case None => false
    case Some(Str(_)) => i == |k|
    case Some(Set(_)) => !IsNavLink(p) && ObjectDeletes(db, FieldsOf(p), k, i)
    case Some(List(_)) => ArrayDeletes(db, p, k, i)
  }

  predicate ArrayDeletes(db: Store, p: Option<Property>, k: Key, i: nat)
    requires i <= |k|
    decreases |k| - i, 0
  {
    i == |k| || (ElementsOf(p).Into? && HasItem(db, k[..i], k[i]) && ObjectDeletes(db, ElementsOf(p).schema, k, i + 1))
  }

  // ---------- Where removal panics ----------

  /** Removing the object at `k[..i]` panics at key `k`. */
  predicate ObjectTrips(db: Store, schema: Option<Schema>, k: Key, i: nat)
    requires i <= |k|
    decreases |k| - i, 0
  {
    if i == |k| then SMembers(db, k).None?
    else HasMember(db, k[..i], k[i]) && FieldTrips(db, PropOf(schema, k[i]), k, i + 1)
  }

  predicate FieldTrips(db: Store, p: Option<Property>, k: Key, i: nat)
    requires i <= |k|
    decreases |k| - i, 1
  {
    match Lookup(db, k[..i])
    case Some(Set(_)) => !IsNavLink(p) && ObjectTrips(db, FieldsOf(p), k, i)
    case Some(List(_)) => ArrayTrips(db, p, k, i)
    case _ => false
  }

  predicate ArrayTrips(db: Store, p: Option<Property>, k: Key, i: nat)
    requires i <= |k|
    decreases |k| - i, 0
  {
    match ElementsOf(p)
    case Leave => false
    case Trap => i == |k|
    case Into(schema) => i < |k| && HasItem(db, k[..i], k[i]) && ObjectTrips(db, schema, k, i + 1)
  }

  // ---------- Locality ----------

  lemma {:induction false} ObjectLocal(db: Store, db': Store, schema: Option<Schema>, k: Key, i: nat)
    requires i <= |k| && SameAlong(db, db', k, i)
    ensures ObjectDeletes(db, schema, k, i) == ObjectDeletes(db', schema, k, i)
    ensures ObjectTrips(db, schema, k, i) == ObjectTrips(db', schema, k, i)
    decreases |k| - i, 0
  {
    assert k[..|k|] == k;
    if i < |k| {
      FieldLocal(db, db', PropOf(schema, k[i]), k, i + 1);
    }
  }

  lemma {:induction false} FieldLocal(db: Store, db': Store, p: Option<Property>, k: Key, i: nat)
    requires i <= |k| && SameAlong(db, db', k, i)
    ensures FieldDeletes(db, p, k, i) == FieldDeletes(db', p, k, i)
    ensures FieldTrips(db, p, k, i) == FieldTrips(db', p, k, i)
    decreases |k| - i, 1
  {
    ObjectLocal(db, db', FieldsOf(p), k, i);
    ArrayLocal(db, db', p, k, i);
  }

  lemma {:induction false} ArrayLocal(db: Store, db': Store, p: Option<Property>, k: Key, i: nat)
    requires i <= |k| && SameAlong(db, db', k, i)
    ensures ArrayDeletes(db, p, k, i) == ArrayDeletes(db', p, k, i)
    ensures ArrayTrips(db, p, k, i) == ArrayTrips(db', p, k, i)
    decreases |k| - i, 0
  {
    if i < |k| && ElementsOf(p).Into? {
      ObjectLocal(db, db', ElementsOf(p).schema, k, i + 1);
    }
  }

  // ---------- Effects ----------

  ghost predicate ObjectRemoved(db: Store, db': Store, schema: Option<Schema>, key: Key) {
    forall k :: Lookup(db', k) ==
      if Under(key, k) && ObjectDeletes(db, schema, k, |key|) then None else Lookup(db, k)
  }

  ghost predicate FieldRemoved(db: Store, db': Store, p: Option<Property>, key: Key) {
    forall k :: Lookup(db', k) ==
      if Under(key, k) && FieldDeletes(db, p, k, |key|) then None else Lookup(db, k)
  }

  ghost predicate ArrayRemoved(db: Store, db': Store, p: Option<Property>, key: Key) {
    forall k :: Lookup(db', k) ==
      if Under(key, k) && ArrayDeletes(db, p, k, |key|) then None else Lookup(db, k)
  }

  ghost predicate ObjectSmooth(db: Store, schema: Option<Schema>, key: Key) {
    forall k :: Under(key, k) ==> !ObjectTrips(db, schema, k, |key|)
  }

  ghost predicate FieldSmooth(db: Store, p: Option<Property>, key: Key) {
    forall k :: Under(key, k) ==> !FieldTrips(db, p, k, |key|)
  }

  ghost predicate ArraySmooth(db: Store, p: Option<Property>, key: Key) {
    forall k :: Under(key, k) ==> !ArrayTrips(db, p, k, |key|)
  }

  // ---------- Progress of the loops ----------

  /** The set at `key` is gone and so is what its members `names` delete. */
  ghost predicate MembersGone(db: Store, db': Store, schema: Option<Schema>, key: Key, names: set<string>) {
    forall k :: Lookup(db', k) ==
      if Under(key, k) &&
         (|k| == |key| || (k[|key|] in names && FieldDeletes(db, PropOf(schema, k[|key|]), k, |key| + 1)))
      then None else Lookup(db, k)
  }

  lemma MembersStart(db: Store, db': Store, schema: Option<Schema>, key: Key)
    requires db' == db - {key}
    ensures MembersGone(db, db', schema, key, {})
  {
    forall k
      ensures Lookup(db', k) == if Under(key, k) && |k| == |key| then None else Lookup(db, k)
    {
      assert Under(key, k) && |k| == |key| <==> k == key;
    }
  }

  /** A member not yet visited still has its whole subtree. */
  lemma MemberUntouched(db: Store, db': Store, schema: Option<Schema>, key: Key, names: set<string>, name: string,
                        k: Key)
    requires MembersGone(db, db', schema, key, names) && name !in names
    requires Under(Child(key, name), k)
    ensures SameAlong(db, db', k, |key| + 1)
  {
    forall q | Under(Child(key, name), q)
      ensures Lookup(db, q) == Lookup(db', q)
    {
      UnderChild(key, name, q);
    }
    SameUnderAlong(db, db', Child(key, name), k);
  }

  lemma MembersStep(db: Store, before: Store, after: Store, schema: Option<Schema>, key: Key, names: set<string>,
                    name: string)
    requires MembersGone(db, before, schema, key, names) && name !in names
    requires FieldRemoved(before, after, PropOf(schema, name), Child(key, name))
    ensures MembersGone(db, after, schema, key, names + {name})
  {
    forall k
      ensures Lookup(after, k) ==
        if Under(key, k) &&
           (|k| == |key| || (k[|key|] in names + {name} && FieldDeletes(db, PropOf(schema, k[|key|]), k, |key| + 1)))
        then None else Lookup(db, k)
    {
      UnderChild(key, name, k);
      if Under(Child(key, name), k) {
        MemberUntouched(db, before, schema, key, names, name, k);
        FieldLocal(db, before, PropOf(schema, name), k, |key| + 1);
      }
    }
  }

  lemma MemberSmooth(db: Store, before: Store, schema: Option<Schema>, key: Key, names: set<string>, name: string)
    requires MembersGone(db, before, schema, key, names) && name !in names
    ensures FieldSmooth(before, PropOf(schema, name), Child(key, name)) <==>
              FieldSmooth(db, PropOf(schema, name), Child(key, name))
  {
    forall k | Under(Child(key, name), k)
      ensures FieldTrips(before, PropOf(schema, name), k, |key| + 1) ==
                FieldTrips(db, PropOf(schema, name), k, |key| + 1)
    {
      MemberUntouched(db, before, schema, key, names, name, k);
      FieldLocal(db, before, PropOf(schema, name), k, |key| + 1);
    }
  }

  lemma MembersDone(db: Store, db': Store, schema: Option<Schema>, key: Key, names: set<string>)
    requires SMembers(db, key) == Some(names) && MembersGone(db, db', schema, key, names)
    ensures ObjectRemoved(db, db', schema, key)
  {
    forall k
      ensures Lookup(db', k) == if Under(key, k) && ObjectDeletes(db, schema, k, |key|) then None else Lookup(db, k)
    {
      assert Under(key, k) ==> k[..|key|] == key;
    }
  }

  lemma ObjectSmoothIff(db: Store, schema: Option<Schema>, key: Key, names: set<string>)
    requires SMembers(db, key) == Some(names)
    ensures ObjectSmooth(db, schema, key) <==>
              forall name {:trigger Child(key, name)} :: name in names ==>
                FieldSmooth(db, PropOf(schema, name), Child(key, name))
  {
    if ObjectSmooth(db, schema, key) {
      forall name, k | name in names && Under(Child(key, name), k)
        ensures !FieldTrips(db, PropOf(schema, name), k, |key| + 1)
      {
        UnderChild(key, name, k);
        assert !ObjectTrips(db, schema, k, |key|);
      }
    }
    if forall name {:trigger Child(key, name)} :: name in names ==>
         FieldSmooth(db, PropOf(schema, name), Child(key, name)) {
      forall k | Under(key, k)
        ensures !ObjectTrips(db, schema, k, |key|)
      {
        if |k| > |key| && HasMember(db, key, k[|key|]) {
          UnderChild(key, k[|key|], k);
          assert FieldSmooth(db, PropOf(schema, k[|key|]), Child(key, k[|key|]));
        }
        assert |k| == |key| ==> k == key;
      }
    }
  }

  ghost function ItemSet(items: seq<string>): set<string> {
    set x | x in items
  }

  lemma ItemSetNext(items: seq<string>, i: nat)
    requires i < |items|
    ensures ItemSet(items[..i + 1]) == ItemSet(items[..i]) + {items[i]}
  {
    assert items[..i + 1] == items[..i] + [items[i]];
  }

  /** The elements `items` of the list at `key` are gone, the list itself is not. */
  ghost predicate ItemsGone(db: Store, db': Store, schema: Option<Schema>, key: Key, items: set<string>) {
    forall k :: Lookup(db', k) ==
      if Under(key, k) && |k| > |key| && k[|key|] in items && ObjectDeletes(db, schema, k, |key| + 1)
      then None else Lookup(db, k)
  }

  lemma ItemUntouched(db: Store, db': Store, schema: Option<Schema>, key: Key, items: set<string>, item: string, k: Key)
    requires ItemsGone(db, db', schema, key, items) && item !in items
    requires Under(Child(key, item), k)
    ensures SameAlong(db, db', k, |key| + 1)
  {
    forall q | Under(Child(key, item), q)
      ensures Lookup(db, q) == Lookup(db', q)
    {
      UnderChild(key, item, q);
    }
    SameUnderAlong(db, db', Child(key, item), k);
  }

  lemma ItemAbsent(db: Store, db': Store, schema: Option<Schema>, key: Key, items: set<string>, item: string)
    requires ItemsGone(db, db', schema, key, items) && item in items
    ensures Child(key, item) !in db'
  {
    UnderChild(key, item, Child(key, item));
    assert Lookup(db', Child(key, item)) == None;
  }

  /** Removing an element again, after a repeated index, changes nothing. */
  lemma RemoveAbsent(db: Store, db': Store, schema: Option<Schema>, key: Key)
    requires key !in db && ObjectRemoved(db, db', schema, key)
    ensures db' == db
  {
    forall k
      ensures Lookup(db', k) == Lookup(db, k)
    {
      if Under(key, k) {
        assert |k| == |key| ==> k == key;
        assert k[..|key|] == key;
      }
    }
    SameLookups(db, db');
  }

  lemma ItemsStep(db: Store, before: Store, after: Store, schema: Option<Schema>, key: Key, items: set<string>,
                  item: string)
    requires ItemsGone(db, before, schema, key, items)
    requires ObjectRemoved(before, after, schema, Child(key, item))
    ensures ItemsGone(db, after, schema, key, items + {item})
  {
    if item in items {
      ItemAbsent(db, before, schema, key, items, item);
      RemoveAbsent(before, after, schema, Child(key, item));
      assert items + {item} == items;
    } else {
      forall k
        ensures Lookup(after, k) ==
          if Under(key, k) && |k| > |key| && k[|key|] in items + {item} && ObjectDeletes(db, schema, k, |key| + 1)
          then None else Lookup(db, k)
      {
        UnderChild(key, item, k);
        if Under(Child(key, item), k) {
          ItemUntouched(db, before, schema, key, items, item, k);
          ObjectLocal(db, before, schema, k, |key| + 1);
        }
      }
    }
  }

  lemma ItemSmooth(db: Store, before: Store, schema: Option<Schema>, key: Key, items: set<string>, item: string)
    requires ItemsGone(db, before, schema, key, items)
    requires forall x :: x in items ==> ObjectSmooth(db, schema, Child(key, x))
    ensures ObjectSmooth(before, schema, Child(key, item)) <==> ObjectSmooth(db, schema, Child(key, item))
  {
    if item in items {
      ItemAbsent(db, before, schema, key, items, item);
      forall k | Under(Child(key, item), k)
        ensures !ObjectTrips(before, schema, k, |key| + 1)
      {
        assert |k| == |key| + 1 ==> k == Child(key, item);
        assert k[..|key| + 1] == Child(key, item);
      }
    } else {
      forall k | Under(Child(key, item), k)
        ensures ObjectTrips(before, schema, k, |key| + 1) == ObjectTrips(db, schema, k, |key| + 1)
      {
        ItemUntouched(db, before, schema, key, items, item, k);
        ObjectLocal(db, before, schema, k, |key| + 1);
      }
    }
  }

  lemma ItemsDone(db: Store, before: Store, p: Option<Property>, key: Key, items: seq<string>)
    requires Lookup(db, key) == Some(List(items)) && !ElementsOf(p).Trap?
    requires ElementsOf(p).Into? ==> ItemsGone(db, before, ElementsOf(p).schema, key, ItemSet(items))
    requires ElementsOf(p).Leave? ==> before == db
    ensures ArrayRemoved(db, before - {key}, p, key)
  {
    forall k
      ensures Lookup(before - {key}, k) ==
                if Under(key, k) && ArrayDeletes(db, p, k, |key|) then None else Lookup(db, k)
    {
      assert Under(key, k) ==> k[..|key|] == key;
      assert Under(key, k) && |k| == |key| <==> k == key;
    }
  }

  lemma ArraySmoothIff(db: Store, p: Option<Property>, key: Key, items: seq<string>)
    requires Lookup(db, key) == Some(List(items)) && ElementsOf(p).Into?
    ensures ArraySmooth(db, p, key) <==>
              forall item :: item in items ==> ObjectSmooth(db, ElementsOf(p).schema, Child(key, item))
  {
    if ArraySmooth(db, p, key) {
      forall item, k | item in items && Under(Child(key, item), k)
        ensures !ObjectTrips(db, ElementsOf(p).schema, k, |key| + 1)
      {
        UnderChild(key, item, k);
        assert !ArrayTrips(db, p, k, |key|);
      }
    }
    if forall item :: item in items ==> ObjectSmooth(db, ElementsOf(p).schema, Child(key, item)) {
      forall k | Under(key, k)
        ensures !ArrayTrips(db, p, k, |key|)
      {
        if |k| > |key| && HasItem(db, key, k[|key|]) {
          UnderChild(key, k[|key|], k);
          assert ObjectSmooth(db, ElementsOf(p).schema, Child(key, k[|key|]));
        }
      }
    }
  }

  /** A field is removed as what its key holds. */
  lemma FieldByType(db: Store, p: Option<Property>, key: Key)
    ensures Lookup(db, key).None? ==> FieldRemoved(db, db, p, key) && FieldSmooth(db, p, key)
    ensures Lookup(db, key).Some? && Lookup(db, key).value.Str? ==>
              FieldRemoved(db, db - {key}, p, key) && FieldSmooth(db, p, key)
    ensures Lookup(db, key).Some? && Lookup(db, key).value.Set? && IsNavLink(p) ==>
              FieldRemoved(db, db, p, key) && FieldSmooth(db, p, key)
  {
    forall k | Under(key, k)
      ensures k[..|key|] == key && (|k| == |key| <==> k == key)
    {
    }
  }

  lemma SetField(db: Store, db': Store, p: Option<Property>, key: Key)
    requires Lookup(db, key).Some? && Lookup(db, key).value.Set? && !IsNavLink(p)
    ensures ObjectRemoved(db, db', FieldsOf(p), key) <==> FieldRemoved(db, db', p, key)
    ensures ObjectSmooth(db, FieldsOf(p), key) <==> FieldSmooth(db, p, key)
  {
    forall k | Under(key, k)
      ensures FieldDeletes(db, p, k, |key|) == ObjectDeletes(db, FieldsOf(p), k, |key|)
      ensures FieldTrips(db, p, k, |key|) == ObjectTrips(db, FieldsOf(p), k, |key|)
    {
      assert k[..|key|] == key;
    }
  }

  lemma ListField(db: Store, db': Store, p: Option<Property>, key: Key)
    requires Lookup(db, key).Some? && Lookup(db, key).value.List?
    ensures ArrayRemoved(db, db', p, key) <==> FieldRemoved(db, db', p, key)
    ensures ArraySmooth(db, p, key) <==> FieldSmooth(db, p, key)
  {
    forall k | Under(key, k)
      ensures FieldDeletes(db, p, k, |key|) == ArrayDeletes(db, p, k, |key|)
      ensures FieldTrips(db, p, k, |key|) == ArrayTrips(db, p, k, |key|)
    {
      assert k[..|key|] == key;
    }
  }

  lemma GoneConfined(db: Store, db': Store, schema: Option<Schema>, key: Key, names: set<string>)
    requires MembersGone(db, db', schema, key, names)
    ensures Confined(db, db', key)
  {
  }

  lemma ItemsConfined(db: Store, db': Store, schema: Option<Schema>, key: Key, items: set<string>)
    requires ItemsGone(db, db', schema, key, items)
    ensures Confined(db, db', key)
  {
  }

  // ---------- Lists ----------

  /** Removing a list takes its elements along where the property has objects, links or lists for elements, an
      embedded collection included; it leaves them where the elements are simple or there is no
      schema, and panics where the property is of any other kind. */
  lemma ListRemoval(db: Store, p: Option<Property>, key: Key, item: string, k: Key)
    requires HasItem(db, key, item) && Under(Child(key, item), k)
    ensures p.None? ==> !ArrayDeletes(db, p, k, |key|) && !ArrayTrips(db, p, k, |key|)
    ensures p.Some? && (p.value.typ.Array? || (p.value.typ.Link? && p.value.typ.expand.Some?)) ==>
              var element := if p.value.typ.Array? then p.value.typ.arrayOf else p.value.typ.expand.value.arrayOf;
              var inner := if element.typ.Object? then Some(element.typ.schema) else None;
              && (element.typ.Simple? ==> !ArrayDeletes(db, p, k, |key|) && !ArrayTrips(db, p, k, |key|))
              && (!element.typ.Simple? ==>
                    && (ArrayDeletes(db, p, k, |key|) <==> ObjectDeletes(db, inner, k, |key| + 1))
                    && (ArrayTrips(db, p, k, |key|) <==> ObjectTrips(db, inner, k, |key| + 1)))
    ensures p.Some? && !p.value.typ.Array? && !(p.value.typ.Link? && p.value.typ.expand.Some?) ==>
              ArrayTrips(db, p, key, |key|) && !ArraySmooth(db, p, key)
  {
    UnderChild(key, item, k);
    assert k[..|key|] == key && Under(key, key);
  }

  // ---------- What a panic leaves ----------

  /** Some of what removal leads to is gone, and everything else is as it was. */
  ghost predicate ObjectPartly(db: Store, db': Store, schema: Option<Schema>, key: Key) {
    forall k :: Lookup(db', k) == Lookup(db, k) || (k !in db' && Under(key, k) && ObjectDeletes(db, schema, k, |key|))
  }

  ghost predicate FieldPartly(db: Store, db': Store, p: Option<Property>, key: Key) {
    forall k :: Lookup(db', k) == Lookup(db, k) || (k !in db' && Under(key, k) && FieldDeletes(db, p, k, |key|))
  }

  ghost predicate ArrayPartly(db: Store, db': Store, p: Option<Property>, key: Key) {
    forall k :: Lookup(db', k) == Lookup(db, k) || (k !in db' && Under(key, k) && ArrayDeletes(db, p, k, |key|))
  }

  lemma PartlyInside(db: Store, db': Store, p: Option<Property>, key: Key)
    requires Lookup(db, key).Some?
    ensures Lookup(db, key).value.Set? && !IsNavLink(p) && ObjectPartly(db, db', FieldsOf(p), key) ==>
              FieldPartly(db, db', p, key)
    ensures Lookup(db, key).value.List? && ArrayPartly(db, db', p, key) ==> FieldPartly(db, db', p, key)
  {
    forall k | Under(key, k)
      ensures k[..|key|] == key
    {
    }
  }

  lemma MembersPartly(db: Store, before: Store, after: Store, schema: Option<Schema>, key: Key, done: set<string>,
                      name: string)
    requires MembersGone(db, before, schema, key, done) && name !in done && SMembers(db, key).Some?
    requires name in SMembers(db, key).value && done <= SMembers(db, key).value
    requires FieldPartly(before, after, PropOf(schema, name), Child(key, name))
    ensures ObjectPartly(db, after, schema, key)
  {
    forall k
      ensures Lookup(after, k) == Lookup(db, k) || (k !in after && Under(key, k) && ObjectDeletes(db, schema, k, |key|))
    {
      assert Under(key, k) ==> k[..|key|] == key;
      UnderChild(key, name, k);
      if Under(Child(key, name), k) {
        MemberUntouched(db, before, schema, key, done, name, k);
        assert k[..|k|] == k;
        FieldLocal(db, before, PropOf(schema, name), k, |key| + 1);
      }
    }
  }

  lemma ItemsPartly(db: Store, before: Store, after: Store, p: Option<Property>, key: Key, seen: set<string>,
                    item: string)
    requires key in db && db[key].List? && ElementsOf(p).Into? && item in db[key].items && item !in seen
    requires forall x :: x in seen ==> x in db[key].items
    requires ItemsGone(db, before, ElementsOf(p).schema, key, seen)
    requires ObjectPartly(before, after, ElementsOf(p).schema, Child(key, item))
    ensures ArrayPartly(db, after, p, key)
  {
    var schema := ElementsOf(p).schema;
    forall k
      ensures Lookup(after, k) == Lookup(db, k) || (k !in after && Under(key, k) && ArrayDeletes(db, p, k, |key|))
    {
      assert Under(key, k) ==> k[..|key|] == key;
      UnderChild(key, item, k);
      if Under(Child(key, item), k) {
        ItemUntouched(db, before, schema, key, seen, item, k);
        assert k[..|k|] == k;
        ObjectLocal(db, before, schema, k, |key| + 1);
      }
    }
  }
}
