/** A POST that panics half-way, and a second one of the same name: what the first has left shows in the second. */
module Leftovers {
  import opened Basics
  import opened Text
  import opened Redis
  import opened Schema
  import opened Convert
  import opened Insert
  import opened Build
  import opened Order
  import opened Collections
  import opened Members
  import opened Dispatcher

  /** An object with one text. */
  function Element(name: string): Property {
    Property(true, false, Object(Schema(map[name := TEXT])))
  }

  /** Resources have an id and a list of such objects, which may be null. */
  predicate Shape(schema: Schema, list: string, name: string) {
    && list !in {ID, MEMBER_ID, ODATA_ID, ODATA_TYPE, ODATA_CONTEXT} && ID in schema.props && schema.props[ID] == TEXT
    && list in schema.props && schema.props[list] == Property(false, false, Array(Element(name)))
  }

  function Item(name: string, text: string): Json {
    JObj(map[name := JStr(text)])
  }

  function ItemData(name: string, text: string): Inter {
    IObj(map[name := IStr(text)])
  }

  function Body(id: string, list: string, items: seq<Json>): Json {
    JObj(map[ID := JStr(id), list := JArr(items)])
  }

  function Data(id: string, list: string, elements: seq<Inter>): Inter {
    IObj(WithOData(map[ID := IStr(id), list := IArr(true, elements)]))
  }

  // ---------- Conversion ----------

  lemma ItemConverts(name: string, text: string, path: seq<string>)
    ensures ConvertField(Element(name), Item(name, text), path, None) == Conv(ItemData(name, text), false)
  {
    var schema, j := Schema(map[name := TEXT]), Item(name, text);
    assert ConvertValue(TEXT, j.fields[name], path + [name], None) == Some(IStr(text));
    assert ConvertMember(schema, j, name, path, None) == Conv(IStr(text), false);
    assert ConvertObject(schema, j, path, None).Some?;
    assert ConvertObject(schema, j, path, None).value == map[name := IStr(text)];
    assert ConvertValue(Element(name), j, path, None) == Some(ItemData(name, text));
  }

  lemma BodyConverts(schema: Schema, id: string, list: string, name: string, items: seq<Json>, elements: seq<Inter>)
    requires Shape(schema, list, name) && |elements| == |items|
    requires forall i :: 0 <= i < |items| ==>
               var c := ConvertElement(Element(name), JArr(items), i, [list], None);
               !c.Bad? && c.value == elements[i]
    ensures NewData(schema, Body(id, list, items)) == Some(Data(id, list, elements))
  {
    var j, fields := Body(id, list, items), map[ID := IStr(id), list := IArr(true, elements)];
    assert [] + [list] == [list] && j.fields[list] == JArr(items) && j.fields[ID] == JStr(id);
    assert ConvertArray(Element(name), JArr(items), [list], None).Some?;
    assert ConvertArray(Element(name), JArr(items), [list], None).value.elements == elements;
    assert ConvertValue(schema.props[list], JArr(items), [list], None) == Some(IArr(true, elements));
    assert ConvertMember(schema, j, list, [], None) == Conv(IArr(true, elements), false);
    assert ConvertValue(TEXT, JStr(id), [] + [ID], None) == Some(IStr(id));
    assert ConvertMember(schema, j, ID, [], None) == Conv(IStr(id), false);
    assert ConvertObject(schema, j, [], None).Some?;
    assert ConvertObject(schema, j, [], None).value == fields;
  }

  /** The second element of the first payload is null, which conversion keeps as such. */
  lemma PayloadsConvert(schema: Schema, id: string, list: string, name: string, x: string, y: string)
    requires Shape(schema, list, name)
    ensures NewData(schema, Body(id, list, [Item(name, x), JNull])) == Some(Data(id, list, [ItemData(name, x), INil]))
    ensures NewData(schema, Body(id, list, [Item(name, y)])) == Some(Data(id, list, [ItemData(name, y)]))
  {
    ItemConverts(name, x, [list] + [FormatNat(0)]);
    ItemConverts(name, y, [list] + [FormatNat(0)]);
    BodyConverts(schema, id, list, name, [Item(name, x), JNull], [ItemData(name, x), INil]);
    BodyConverts(schema, id, list, name, [Item(name, y)], [ItemData(name, y)]);
  }

  // ---------- The store between ----------

  /** Only the list makes the first insertion panic, at its second element. */
  lemma FirstTrips(db: Store, id: string, list: string, name: string, x: string, key: Key)
    requires list !in {ID, ODATA_ID, ODATA_TYPE, ODATA_CONTEXT} && Fresh(db, key)
    ensures var v := Data(id, list, [ItemData(name, x), INil]);
            && InsertTrips(db, v, key)
            && forall n :: n in v.fields ==> (InsertTrips(db, v.fields[n], Child(key, n)) <==> n == list)
  {
    var elements := [ItemData(name, x), INil];
    var v, at := Data(id, list, elements), Child(key, list);
    FreshChild(db, key, list);
    assert Under(at, at) && LRange(db, at) == Some([]);
    assert v.fields[list] == IArr(true, elements);
    assert ElementTrips(db, elements[1], Child(at, FormatNat(1)));
    assert InsertTrips(db, v.fields[list], at);
  }

  /** The list at `at` as the first POST leaves it. */
  ghost predicate Half(db: Store, name: string, x: string, at: Key) {
    && LRange(db, at) == Some([FormatNat(0), FormatNat(1)])
    && Lookup(db, Child(at, FormatNat(0))) == Some(Set({name}))
    && Lookup(db, Child(at, FormatNat(1))) == None
  }

  lemma FirstLeaves(db: Store, between: Store, id: string, list: string, name: string, x: string, key: Key)
    requires list !in {ID, ODATA_ID, ODATA_TYPE, ODATA_CONTEXT} && Fresh(db, key)
    requires LeftByPanic(db, between, Data(id, list, [ItemData(name, x), INil]), key)
    ensures Half(between, name, x, Child(key, list))
  {
    var elements := [ItemData(name, x), INil];
    var v, at := Data(id, list, elements), Child(key, list);
    FirstTrips(db, id, list, name, x, key);
    FreshChild(db, key, list);
    var mid := OnlyMemberLeft(db, between, v, key, list);
    assert v.fields[list] == IArr(true, elements);
    forall k | Under(at, k)
      ensures Lookup(mid, k) == None
    {
      assert Lookup(db, k) == None;
    }
    ListHalf(mid, between, name, x, at);
  }

  lemma ListHalf(db: Store, between: Store, name: string, x: string, at: Key)
    requires forall k :: Under(at, k) ==> Lookup(db, k) == None
    requires LeftByPanic(db, between, IArr(true, [ItemData(name, x), INil]), at)
    ensures Half(between, name, x, at)
  {
    var elements, first := [ItemData(name, x), INil], Child(at, FormatNat(0));
    NothingAt(db, name, x, at);
    ListLeft(db, between, IArr(true, elements), at, 1);
    assert Indices(2) == [FormatNat(0), FormatNat(1)] && [] + Indices(2) == Indices(2);
    assert Under(first, first) && Lookup(between, first) == InsertAt(db, elements[0], first, |at| + 1);
    assert {} + map[name := IStr(x)].Keys == {name};
    var second := Child(at, FormatNat(1));
    UnderChild(at, FormatNat(1), second);
    NotBelow(1);
    assert second[|at|] == FormatNat(1) && Lookup(between, second) == Lookup(db, second);
  }

  /** Where nothing is stored the second element is the first that panics. */
  lemma NothingAt(db: Store, name: string, x: string, at: Key)
    requires forall k :: Under(at, k) ==> Lookup(db, k) == None
    ensures LRange(db, at) == Some([]) && MembersOf(db, Child(at, FormatNat(0))) == {}
    ensures var elements := [ItemData(name, x), INil];
            NoneTrips(db, elements, at, 1) && ElementTrips(db, elements[1], Child(at, FormatNat(1)))
  {
    var first := Child(at, FormatNat(0));
    UnderChild(at, FormatNat(0), first);
    assert Under(at, at) && Lookup(db, at) == None && Lookup(db, first) == None;
    FirstIsSafe(db, name, x, first);
  }

  lemma FirstIsSafe(db: Store, name: string, text: string, key: Key)
    requires SMembers(db, key).Some?
    ensures !InsertTrips(db, ItemData(name, text), key)
  {
    var fields := map[name := IStr(text)];
    assert name in fields && !InsertTrips(db, IStr(text), Child(key, name));
    forall n | n in fields
      ensures !InsertTrips(db, fields[n], Child(key, n))
    {
    }
  }

  // ---------- The store after ----------

  lemma SecondIsSafe(between: Store, id: string, list: string, name: string, x: string, y: string, key: Key)
    requires list !in {ID, ODATA_ID, ODATA_TYPE, ODATA_CONTEXT} && key !in between &&
             Half(between, name, x, Child(key, list))
    ensures !InsertTrips(between, Data(id, list, [ItemData(name, y)]), key)
  {
    var elements, at := [ItemData(name, y)], Child(key, list);
    var v := Data(id, list, elements);
    FirstIsSafe(between, name, y, Child(at, FormatNat(0)));
    assert !InsertTrips(between, IArr(true, elements), at);
    assert v.fields[list] == IArr(true, elements);
    forall n | n in v.fields
      ensures !InsertTrips(between, v.fields[n], Child(key, n))
    {
    }
  }

  /** The list as the second POST leaves it: its own element twice, around an index with nothing beneath. */
  ghost predicate Whole(db: Store, name: string, y: string, at: Key) {
    && LRange(db, at) == Some([FormatNat(0), FormatNat(1), FormatNat(0)])
    && Lookup(db, Child(at, FormatNat(0))) == Some(Set({name}))
    && Lookup(db, Child(Child(at, FormatNat(0)), name)) == Some(Str(y))
    && Lookup(db, Child(at, FormatNat(1))) == None
  }

  lemma SecondStores(between: Store, after: Store, id: string, list: string, name: string, x: string, y: string,
                     key: Key)
    requires list !in {ID, ODATA_ID, ODATA_TYPE, ODATA_CONTEXT} && Half(between, name, x, Child(key, list))
    requires forall k :: Under(key, k) ==>
               Lookup(after, k) == InsertAt(between, Data(id, list, [ItemData(name, y)]), k, |key|)
    ensures Whole(after, name, y, Child(key, list))
  {
    var elements, at := [ItemData(name, y)], Child(key, list);
    var v := IArr(true, elements);
    assert Data(id, list, elements).fields[list] == v;
    forall k | Under(at, k)
      ensures Lookup(after, k) == InsertAt(between, v, k, |at|)
    {
      UnderChild(key, list, k);
    }
    ListWhole(between, after, name, x, y, at);
  }

  lemma ListWhole(between: Store, after: Store, name: string, x: string, y: string, at: Key)
    requires Half(between, name, x, at)
    requires forall k :: Under(at, k) ==>
               Lookup(after, k) == InsertAt(between, IArr(true, [ItemData(name, y)]), k, |at|)
    ensures Whole(after, name, y, at)
  {
    var elements, first, second := [ItemData(name, y)], Child(at, FormatNat(0)), Child(at, FormatNat(1));
    var text := Child(first, name);
    assert Under(at, at) && Indices(1) == [FormatNat(0)];
    assert [FormatNat(0), FormatNat(1)] + Indices(1) == [FormatNat(0), FormatNat(1), FormatNat(0)];
    UnderChild(at, FormatNat(0), first);
    UnderChild(at, FormatNat(0), text);
    UnderChild(at, FormatNat(1), second);
    IndexNamedFinds(0, 1);
    NotBelow(1);
    assert first[..|at|] == at && text[..|at|] == at && second[..|at|] == at;
    assert map[name := IStr(y)].Keys == {name} && {name} + {name} == {name};
    assert InsertAt(between, elements[0], first, |at| + 1) == Some(Set(MembersOf(between, first) + {name}));
    assert text[|at|] == FormatNat(0) && text[|at| + 1] == name;
    assert InsertAt(between, IStr(y), text, |at| + 2) == Some(Str(y));
    assert InsertAt(between, elements[0], text, |at| + 1) == Some(Str(y));
  }

  // ---------- What is read ----------

  lemma ListReads(db: Store, r: Reader, name: string, y: string, at: Key)
    requires at != [] && r.xname == "" && Whole(db, name, y, at)
    ensures BuildArray(db, r, Element(name), at) == Some(JArr([Item(name, y), JObj(map[]), Item(name, y)]))
  {
    var schema, first, second := Schema(map[name := TEXT]), Child(at, FormatNat(0)), Child(at, FormatNat(1));
    var none: map<string, Json> := map[];
    assert BuildMember(db, r, schema, first, name) == Some(JStr(y));
    assert KeySpace(db, r.xname, first) == first && FieldsRead(db, r, schema, first) == map[name := JStr(y)];
    RightMembers(db, r, schema, first);
    AssembleOne(name, JStr(y));
    assert KeySpace(db, r.xname, second) == second && FieldsRead(db, r, schema, second) == none;
    assert Assemble(none) == none && BuildObject(db, r, schema, second) == Some(none);
    assert BuildElement(db, r, Element(name), at, FormatNat(0)) == Some(Item(name, y));
    assert BuildElement(db, r, Element(name), at, FormatNat(1)) == Some(JObj(none));
    var items := LRange(db, at).value;
    assert items == [FormatNat(0), FormatNat(1), FormatNat(0)];
    assert BuildArray(db, r, Element(name), at).value.items == [Item(name, y), JObj(none), Item(name, y)];
  }

  // ---------- The run ----------

  /** A POST whose list has a null for its second element panics, in every order of the payload, and leaves
      the first element.  A POST of the same name with one element is then answered as a success,
      and is read with three. */
  method PostTwice(d: Dispatcher, uri: Key, names: set<string>, schema: Schema, id: string, list: string, name: string,
                   x: string, y: string, ghost ids: seq<string>, ghost indices: seq<nat>)
    returns (aborted: Status, created: Status)
    requires Shape(schema, list, name) && id != "" && SlashFree(id) && id !in names && id !in ids
    requires Consistent(d.db, uri, names, ids, indices) && Bounded(indices, MAX_INT64) && Fresh(d.db, Child(uri, id))
    modifies d
    ensures aborted.Aborted? && created.Created?
    ensures forall r: Reader :: r.xname == "" ==>
              BuildArray(d.db, r, Element(name), Child(Child(uri, id), list)) ==
                Some(JArr([Item(name, y), JObj(map[]), Item(name, y)]))
  {
    ghost var before, between, key := d.db, d.db, Child(uri, id);
    var first, second := Body(id, list, [Item(name, x), JNull]), Body(id, list, [Item(name, y)]);
    PayloadsConvert(schema, id, list, name, x, y);
    assert NewId(first.fields) == Some(id) && NewId(second.fields) == Some(id);
    FirstTrips(before, id, list, name, x, key);
    aborted, created, between := CreateAgain(d, uri, names, schema, first, second, ids, indices);
    FirstLeaves(before, between, id, list, name, x, key);
    assert id in IdSet(ids) <==> id in ids;
    SecondIsSafe(between, id, list, name, x, y, key);
    SecondStores(between, d.db, id, list, name, x, y, key);
    forall r: Reader | r.xname == ""
      ensures BuildArray(d.db, r, Element(name), Child(key, list)) ==
                Some(JArr([Item(name, y), JObj(map[]), Item(name, y)]))
    {
      ListReads(d.db, r, name, y, Child(key, list));
    }
  }
}
