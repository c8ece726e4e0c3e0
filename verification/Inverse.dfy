/** Removing undoes inserting, and removing never leaves the resource. */
module Inverse {
  import opened Basics
  import opened Text
  import opened Redis
  import opened Schema
  import opened Convert
  import opened Insert
  import opened Remove

  // ---------- Data that fits its schema ----------

  /** `v` is something that the converter yields for a property `p`. */
  ghost predicate Fits(p: Option<Property>, v: Inter)
    decreases v, 1
  {
    match v
    case INil => true
    case IStr(_) => true
    case IObj(fields) => !IsNavLink(p) && FitsObject(FieldsOf(p), v)
    case IArr(false, _) => !ElementsOf(p).Trap?
    case IArr(true, elements) =>
      ElementsOf(p).Into? &&
      forall i :: 0 <= i < |elements| ==> elements[i].IObj? ==> FitsObject(ElementsOf(p).schema, elements[i])
  }

  ghost predicate FitsObject(schema: Option<Schema>, v: Inter)
    requires v.IObj?
    decreases v, 0
  {
    forall name :: name in v.fields ==> Fits(PropOf(schema, name), v.fields[name])
  }

  lemma {:induction false} FieldFits(p: Property, j: Json, path: seq<string>, cb: Callback)
    ensures ConvertField(p, j, path, cb).Conv? ==> Fits(Some(p), ConvertField(p, j, path, cb).value)
    decreases j, 3
  {
    var v := ConvertValue(p, j, path, cb);
    if !(j.JNull? && p.nullAllowed) && v.Some? {
      match p.typ
      case Object(schema) => ObjectFits(schema, j, path, cb);
      case Array(element) => ArrayFits(p, element, j, path, cb);
      case Link(isNav, _) =>
        if !isNav {
          assert v == Some(LinkData(LinkText(j).value));
          assert FitsObject(None, LinkData(LinkText(j).value));
        }
      case _ =>
    }
  }

  lemma {:induction false} ArrayFits(p: Property, element: Property, j: Json, path: seq<string>, cb: Callback)
    requires j.JArr? && p.typ == Array(element) && ConvertArray(element, j, path, cb).Some?
    ensures Fits(Some(p), ConvertArray(element, j, path, cb).value)
    decreases j, 2
  {
    var elements := ConvertArray(element, j, path, cb).value.elements;
    if !element.typ.Simple? {
      forall i | 0 <= i < |elements| && elements[i].IObj?
        ensures FitsObject(FieldsOf(Some(element)), elements[i])
      {
        FieldFits(element, j.items[i], path + [FormatNat(i)], cb);
        assert elements[i] == ConvertElement(element, j, i, path, cb).value;
      }
    }
  }

  /** Everything that `Interface2Redis` yields fits the schema, with any callback. */
  lemma {:induction false} ObjectFits(schema: Schema, j: Json, path: seq<string>, cb: Callback)
    requires j.JObj? && ConvertObject(schema, j, path, cb).Some?
    ensures FitsObject(Some(schema), IObj(ConvertObject(schema, j, path, cb).value))
    decreases j, 2
  {
    var fields := ConvertObject(schema, j, path, cb).value;
    forall name | name in fields
      ensures Fits(PropOf(Some(schema), name), fields[name])
    {
      if name in schema.props {
        FieldFits(schema.props[name], j.fields[name], path + [name], cb);
      }
      assert fields[name] == ConvertMember(schema, j, name, path, cb).value;
    }
  }

  // ---------- Removal finds exactly what was stored ----------

  lemma {:induction false} ObjectFound(db: Store, schema: Option<Schema>, v: Inter, k: Key, i: nat)
    requires i <= |k| && v.IObj? && FitsObject(schema, v) && Insertable(v) && Holds(db, v, k[..i])
    ensures At(v, k, i).Some? ==> ObjectDeletes(db, schema, k, i)
    ensures !ObjectTrips(db, schema, k, i)
    decreases v, 0
  {
    var key := k[..i];
    assert Under(key, key) && Lookup(db, key) == Some(Set(v.fields.Keys));
    assert k[..|k|] == k;
    if i < |k| && k[i] in v.fields {
      HoldsField(db, v.fields, key, k[i]);
      assert k[..i + 1] == Child(key, k[i]);
      FieldFound(db, PropOf(schema, k[i]), v.fields[k[i]], k, i + 1);
    }
  }

  lemma {:induction false} FieldFound(db: Store, p: Option<Property>, v: Inter, k: Key, i: nat)
    requires i <= |k| && Fits(p, v) && Insertable(v) && Holds(db, v, k[..i])
    ensures At(v, k, i).Some? ==> FieldDeletes(db, p, k, i)
    ensures !FieldTrips(db, p, k, i)
    decreases v, 1
  {
    var key := k[..i];
    assert Under(key, key) && Lookup(db, key) == At(v, key, i);
    match v
    case INil =>
    case IStr(_) =>
    case IObj(_) => ObjectFound(db, FieldsOf(p), v, k, i);
    case IArr(false, _) => LeafArrayFound(db, p, v, k, i);
    case IArr(true, elements) => ArrayFound(db, p, elements, k, i);
  }

  lemma LeafArrayFound(db: Store, p: Option<Property>, v: Inter, k: Key, i: nat)
    requires i <= |k| && v.IArr? && !v.isObject && !ElementsOf(p).Trap? && Holds(db, v, k[..i])
    ensures At(v, k, i).Some? ==> FieldDeletes(db, p, k, i)
    ensures !FieldTrips(db, p, k, i)
  {
    var key := k[..i];
    assert Under(key, key) && Lookup(db, key) == At(v, key, i);
    if i < |k| && ElementsOf(p).Into? {
      NothingTrips(db, v, key, ElementsOf(p).schema, k, i);
    }
  }

  /** Nothing is stored beneath a simple list, so removal has nothing to trip over. */
  lemma NothingTrips(db: Store, v: Inter, key: Key, schema: Option<Schema>, k: Key, i: nat)
    requires i < |k| && key == k[..i] && v.IArr? && !v.isObject && Holds(db, v, key)
    ensures !ObjectTrips(db, schema, k, i + 1)
  {
    var child := k[..i + 1];
    assert child[..i] == key;
    assert Under(key, child) && Lookup(db, child) == At(v, child, i) == None;
    assert k[..|k|] == k;
  }

  lemma ArrayFound(db: Store, p: Option<Property>, elements: seq<Inter>, k: Key, i: nat)
    requires i <= |k| && Fits(p, IArr(true, elements)) && Insertable(IArr(true, elements))
    requires Holds(db, IArr(true, elements), k[..i])
    ensures At(IArr(true, elements), k, i).Some? ==> FieldDeletes(db, p, k, i)
    ensures !FieldTrips(db, p, k, i)
    decreases IArr(true, elements), 0
  {
    var key := k[..i];
    assert Under(key, key) && Lookup(db, key) == At(IArr(true, elements), key, i);
    if i < |k| {
      if IndexNamed(k[i], |elements|).Some? {
        var n := IndexNamed(k[i], |elements|).value;
        HoldsElement(db, elements, key, n, k[i]);
        assert k[..i + 1] == Child(key, k[i]);
        ObjectFound(db, ElementsOf(p).schema, elements[n], k, i + 1);
        assert elements != [] && Indices(|elements|)[n] == k[i];
      } else {
        NotAnIndex(k[i], |elements|);
      }
    }
  }

  lemma NotAnIndex(name: string, n: nat)
    requires IndexNamed(name, n).None?
    ensures name !in Indices(n)
  {
    forall i | 0 <= i < n
      ensures Indices(n)[i] != name
    {
      IndexNamedFinds(i, n);
    }
  }

  /** Removing a resource right after inserting it under an empty keyspace succeeds and
      restores the exact store from before the insertion. */
  lemma RemoveUndoesInsert(db: Store, inserted: Store, removed: Store, schema: Schema, v: Inter, key: Key)
    requires v.IObj? && FitsObject(Some(schema), v) && Insertable(v)
    requires Fresh(db, key) && Confined(db, inserted, key) && Holds(inserted, v, key)
    ensures ObjectSmooth(inserted, Some(schema), key)
    ensures ObjectRemoved(inserted, removed, Some(schema), key) ==> removed == db
  {
    forall k | Under(key, k)
      ensures !ObjectTrips(inserted, Some(schema), k, |key|)
      ensures At(v, k, |key|).Some? ==> ObjectDeletes(inserted, Some(schema), k, |key|)
    {
      ObjectFound(inserted, Some(schema), v, k, |key|);
    }
    if ObjectRemoved(inserted, removed, Some(schema), key) {
      forall k
        ensures Lookup(removed, k) == Lookup(db, k)
      {
        assert Under(key, k) ==> k !in db;
      }
      SameLookups(db, removed);
    }
  }

  // ---------- Removal stays inside ----------

  /** What stands at the key of a navigation link keeps removal from `k`, the key itself or one beneath
      it: nothing or a set keep it from both; a text, and a list that is not that of an embedded
      collection, from what lies beneath. */
  ghost predicate LinkShields(p: Option<Property>, here: Option<Value>, beneath: bool) {
    here.None? || here.value.Set? || (beneath && (here.value.Str? || !ElementsOf(p).Into?))
  }

  /** `k` lies at or beneath a navigation link of the object at `k[..i]` or of an object nested in it,
      and the link shields it. */
  ghost predicate BehindNavLink(db: Store, schema: Option<Schema>, k: Key, i: nat)
    requires i <= |k|
    decreases |k| - i
  {
    i < |k| &&
    var p := PropOf(schema, k[i]);
    var here := Lookup(db, k[..i + 1]);
    if IsNavLink(p) then LinkShields(p, here, i + 1 < |k|)
    else if ElementsOf(p).Into? then
      i + 1 < |k| && (here.None? || !here.value.Set?) && BehindNavLink(db, ElementsOf(p).schema, k, i + 2)
    else BehindNavLink(db, FieldsOf(p), k, i + 1)
  }

  /** No removal reaches a key that a navigation link shields, in any store. */
  lemma {:induction false} NavLinkShields(db: Store, schema: Option<Schema>, k: Key, i: nat)
    requires i <= |k| && BehindNavLink(db, schema, k, i)
    ensures !ObjectDeletes(db, schema, k, i)
    decreases |k| - i
  {
    var p := PropOf(schema, k[i]);
    if IsNavLink(p) {
      LinkFieldDeletes(db, p, k, i + 1);
    } else if ElementsOf(p).Into? {
      NavLinkShields(db, ElementsOf(p).schema, k, i + 2);
      assert !ArrayDeletes(db, p, k, i + 1);
    } else {
      NavLinkShields(db, FieldsOf(p), k, i + 1);
      assert !ArrayDeletes(db, p, k, i + 1);
    }
  }

  /** Removing a navigation link deletes its key if that holds a text or a list, and of what lies beneath
      only the listed elements of an embedded collection. */
  lemma LinkFieldDeletes(db: Store, p: Option<Property>, k: Key, i: nat)
    requires i <= |k| && IsNavLink(p)
    ensures i == |k| ==> (FieldDeletes(db, p, k, i) <==> k in db && !db[k].Set?)
    ensures i < |k| ==>
              (FieldDeletes(db, p, k, i) <==>
                 ElementsOf(p).Into? && HasItem(db, k[..i], k[i]) && ObjectDeletes(db, ElementsOf(p).schema, k, i + 1))
  {
    assert k[..|k|] == k;
    assert ArrayDeletes(db, p, k, i) <==>
           (i == |k| ||
            (ElementsOf(p).Into? && HasItem(db, k[..i], k[i]) && ObjectDeletes(db, ElementsOf(p).schema, k, i + 1)));
  }

  /** A listed navigation link whose key holds a list makes removal panic, unless the link is that of an
      embedded collection. */
  lemma NavLinkListPanics(db: Store, schema: Option<Schema>, key: Key, name: string)
    requires IsNavLink(PropOf(schema, name)) && HasMember(db, key, name)
    requires Child(key, name) in db && db[Child(key, name)].List? && ElementsOf(PropOf(schema, name)).Trap?
    ensures !ObjectSmooth(db, schema, key)
  {
    var k := Child(key, name);
    assert k[..|key|] == key && k[..|key| + 1] == k && k[|key|] == name && Under(key, k);
    assert ObjectTrips(db, schema, k, |key|);
  }

  /** Where removal does not panic, the key of a listed navigation link goes if and only if it holds
      a text or a list. */
  lemma NavLinkFate(db: Store, schema: Option<Schema>, key: Key, name: string)
    requires IsNavLink(PropOf(schema, name)) && HasMember(db, key, name) && ObjectSmooth(db, schema, key)
    ensures ObjectDeletes(db, schema, Child(key, name), |key|) <==>
              Child(key, name) in db && !db[Child(key, name)].Set?
    ensures Child(key, name) in db && db[Child(key, name)].List? ==> !ElementsOf(PropOf(schema, name)).Trap?
  {
    var k := Child(key, name);
    assert k[..|key|] == key && k[..|key| + 1] == k && k[|key|] == name;
    LinkFieldDeletes(db, PropOf(schema, name), k, |key| + 1);
    if k in db && db[k].List? && ElementsOf(PropOf(schema, name)).Trap? {
      NavLinkListPanics(db, schema, key, name);
    }
  }

  /** A key strictly beneath a listed navigation link goes if and only if the link is that of an embedded
      collection of objects, its key holds the list, and removing the listed element leads to it. */
  lemma BeneathNavLink(db: Store, schema: Option<Schema>, key: Key, name: string, k: Key)
    requires IsNavLink(PropOf(schema, name)) && HasMember(db, key, name)
    requires Under(Child(key, name), k) && |key| + 1 < |k|
    ensures var elements := ElementsOf(PropOf(schema, name));
            ObjectDeletes(db, schema, k, |key|) <==>
              elements.Into? && HasItem(db, Child(key, name), k[|key| + 1]) &&
              ObjectDeletes(db, elements.schema, k, |key| + 2)
  {
    UnderChild(key, name, k);
    assert k[..|key|] == key && k[..|key| + 1] == Child(key, name) && k[|key|] == name;
    LinkFieldDeletes(db, PropOf(schema, name), k, |key| + 1);
  }
}
