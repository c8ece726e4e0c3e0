/** When the order in which Redis lists members shows in what `BuildStruct` yields. */
module Order {
  import opened Basics
  import opened Redis
  import opened Schema
  import opened Build

  // ---------- One object ----------

  /** Wherever a field is the count annotation of an array, it holds that array's length. */
  ghost predicate CountsAgree(fields: map<string, Json>) {
    forall name :: name in fields && fields[name].JArr? && name + ODATA_COUNT in fields ==>
      fields[name + ODATA_COUNT] == CountOf(fields[name])
  }

  /** The settled value of a key. */
  ghost function Settle(fields: map<string, Json>, k: string): Json {
    if CountsArray(fields, k) then CountOf(fields[CountBase(k).value])
    else if k in fields then fields[k]
    else JNull
  }

  /** Some writes have been made, each key with its settled value. */
  ghost predicate Settled(fields: map<string, Json>, names: seq<string>, payload: map<string, Json>) {
    forall k ::
      && (k in payload <==> k in names || (CountsArray(fields, k) && CountBase(k).value in names))
      && (k in payload ==> payload[k] == Settle(fields, k))
  }

  lemma SettledWriteAt(fields: map<string, Json>, names: seq<string>, payload: map<string, Json>, name: string,
                       k: string)
    requires CountsAgree(fields) && name in fields
    requires k in payload <==> k in names || (CountsArray(fields, k) && CountBase(k).value in names)
    requires k in payload ==> payload[k] == Settle(fields, k)
    ensures k in Write(payload, name, fields[name]) <==>
              k in names + [name] || (CountsArray(fields, k) && CountBase(k).value in names + [name])
    ensures k in Write(payload, name, fields[name]) ==> Write(payload, name, fields[name])[k] == Settle(fields, k)
  {
    CountBaseOf(name);
    if CountBase(k).Some? {
      assert k == CountBase(k).value + ODATA_COUNT;
    }
  }

  lemma SettledWrite(fields: map<string, Json>, names: seq<string>, payload: map<string, Json>, name: string)
    requires CountsAgree(fields) && Settled(fields, names, payload) && name in fields
    ensures Settled(fields, names + [name], Write(payload, name, fields[name]))
  {
    forall k
      ensures k in Write(payload, name, fields[name]) <==>
                k in names + [name] || (CountsArray(fields, k) && CountBase(k).value in names + [name])
      ensures k in Write(payload, name, fields[name]) ==> Write(payload, name, fields[name])[k] == Settle(fields, k)
    {
      SettledWriteAt(fields, names, payload, name, k);
    }
  }

  lemma {:induction false} WritesSettle(fields: map<string, Json>, names: seq<string>)
    requires CountsAgree(fields) && forall i :: 0 <= i < |names| ==> names[i] in fields
    ensures Settled(fields, names, WriteAll(fields, names))
  {
    if names != [] {
      var first, last := names[..|names| - 1], names[|names| - 1];
      WritesSettle(fields, first);
      SettledWrite(fields, first, WriteAll(fields, first), last);
      assert first + [last] == names;
    }
  }

  /** With agreeing counts every order of the iteration builds the same payload ... */
  lemma OrderInvisible(fields: map<string, Json>, names: seq<string>)
    requires CountsAgree(fields) && IsOrder(names, fields.Keys)
    ensures WriteAll(fields, names) == Assemble(fields)
  {
    WritesSettle(fields, names);
    var payload := WriteAll(fields, names);
    forall k
      ensures k in payload <==> k in Assemble(fields)
      ensures k in payload ==> payload[k] == Assemble(fields)[k]
    {
      InCountKeys(fields, k);
    }
  }

  lemma {:induction false} SomeOrder(all: set<string>) returns (names: seq<string>)
    ensures IsOrder(names, all)
    decreases |all|
  {
    if all == {} {
      names := [];
    } else {
      var name :| name in all;
      var rest := SomeOrder(all - {name});
      names := rest + [name];
    }
  }

  lemma OrderOfTwoMore(rest: seq<string>, all: set<string>, a: string, b: string)
    requires a in all && b in all && a != b && IsOrder(rest, all - {a, b})
    ensures IsOrder(rest + [a, b], all)
  {
    var names := rest + [a, b];
    assert forall i :: 0 <= i < |rest| ==> names[i] == rest[i] && rest[i] in all - {a, b};
    assert names[|rest|] == a && names[|rest| + 1] == b;
    forall name | name in all
      ensures name in names
    {
      assert name != a && name != b ==> name in rest;
    }
  }

  /** ... and with a disagreeing count two orders build different ones. */
  lemma OrderShows(fields: map<string, Json>) returns (one: seq<string>, other: seq<string>)
    requires !CountsAgree(fields)
    ensures IsOrder(one, fields.Keys) && IsOrder(other, fields.Keys)
    ensures WriteAll(fields, one) != WriteAll(fields, other)
  {
    var name :| name in fields && fields[name].JArr? && name + ODATA_COUNT in fields &&
                fields[name + ODATA_COUNT] != CountOf(fields[name]);
    var count := name + ODATA_COUNT;
    var rest := SomeOrder(fields.Keys - {name, count});
    one, other := rest + [name, count], rest + [count, name];
    OrderOfTwoMore(rest, fields.Keys, name, count);
    assert fields.Keys - {name, count} == fields.Keys - {count, name};
    OrderOfTwoMore(rest, fields.Keys, count, name);
    assert one[..|one| - 1] == rest + [name] && other[..|other| - 1] == rest + [count];
    assert |count + ODATA_COUNT| > |count|;
    assert WriteAll(fields, one)[count] == fields[count];
    assert WriteAll(fields, other)[count] == CountOf(fields[name]);
  }


  // ---------- Whole payloads ----------

  ghost function FieldsRead(db: Store, r: Reader, schema: Schema, base: Key): map<string, Json>
    requires base != []
  {
    var keySpace := KeySpace(db, r.xname, base);
    map name | name in MembersOf(db, keySpace) :: OrNull(BuildMember(db, r, schema, keySpace, name))
  }

  /** At every object that is read, the count annotations agree with the arrays. */
  ghost predicate Agrees(db: Store, r: Reader, schema: Schema, base: Key)
    requires base != []
    decreases schema, 1
  {
    BuildObject(db, r, schema, base).Some? ==>
      && CountsAgree(FieldsRead(db, r, schema, base))
      && var keySpace := KeySpace(db, r.xname, base);
         forall name :: name in MembersOf(db, keySpace) ==> AgreesMember(db, r, schema, keySpace, name)
  }

  ghost predicate AgreesMember(db: Store, r: Reader, schema: Schema, keySpace: Key, name: string)
    requires keySpace != []
    decreases schema, 0
  {
    name in schema.props ==> AgreesField(db, r, schema.props[name], Child(keySpace, name))
  }

  ghost predicate AgreesField(db: Store, r: Reader, p: Property, key: Key)
    requires key != []
    decreases p, 2
  {
    match p.typ
    case Object(schema) => Agrees(db, r, schema, key)
    case Array(element) => AgreesArray(db, r, element, key)
    case Link(_, Some(expansion)) => AgreesExpanded(db, r, expansion.members, key)
    case _ => true
  }

  ghost predicate AgreesElement(db: Store, r: Reader, element: Property, key: Key)
    requires key != []
    decreases element, 0
  {
    match element.typ
    case Object(schema) => Agrees(db, r, schema, key)
    case _ => true
  }

  ghost predicate AgreesArray(db: Store, r: Reader, element: Property, key: Key)
    requires key != []
    decreases element, 1
  {
    LRange(db, key).Some? ==>
      forall item :: item in LRange(db, key).value ==> AgreesElement(db, r, element, Child(key, item))
  }

  ghost predicate AgreesExpanded(db: Store, r: Reader, members: Schema, key: Key)
    requires key != []
    decreases members, 2
  {
    LRange(db, key).Some? ==> forall item :: item in LRange(db, key).value ==> Agrees(db, r, members, Child(key, item))
  }

  // ---------- Agreeing counts leave one payload ----------

  lemma {:induction false} OnlyPayload(db: Store, r: Reader, schema: Schema, base: Key, payload: map<string, Json>)
    requires base != [] && CanBuild(db, r, schema, base, payload)
    ensures BuildObject(db, r, schema, base).Some?
    ensures Agrees(db, r, schema, base) ==> BuildObject(db, r, schema, base) == Some(payload)
    decreases schema, 1
  {
    var keySpace := KeySpace(db, r.xname, base);
    var fields, names :| Written(fields, names, payload) && fields.Keys == SMembers(db, keySpace).value &&
      forall name :: name in fields ==> CanBuildMember(db, r, schema, keySpace, name, fields[name]);
    forall name | name in fields
      ensures BuildMember(db, r, schema, keySpace, name).Some?
      ensures AgreesMember(db, r, schema, keySpace, name) ==>
                BuildMember(db, r, schema, keySpace, name) == Some(fields[name])
    {
      OnlyField(db, r, schema.props[name], Child(keySpace, name), fields[name]);
    }
    SameFields(db, r, schema, base, fields);
    if Agrees(db, r, schema, base) {
      OrderInvisible(fields, names);
    }
  }

  lemma SameFields(db: Store, r: Reader, schema: Schema, base: Key, fields: map<string, Json>)
    requires base != [] && SMembers(db, KeySpace(db, r.xname, base)) == Some(fields.Keys)
    requires forall name :: name in fields ==>
               var member := BuildMember(db, r, schema, KeySpace(db, r.xname, base), name);
               && member.Some?
               && (AgreesMember(db, r, schema, KeySpace(db, r.xname, base), name) ==> member == Some(fields[name]))
    ensures BuildObject(db, r, schema, base) == Some(Assemble(FieldsRead(db, r, schema, base)))
    ensures Agrees(db, r, schema, base) ==> FieldsRead(db, r, schema, base) == fields
  {
    assert FieldsRead(db, r, schema, base).Keys == fields.Keys;
  }

  lemma {:induction false} OnlyField(db: Store, r: Reader, p: Property, key: Key, j: Json)
    requires key != [] && CanBuildField(db, r, p, key, j)
    ensures BuildField(db, r, p, key).Some?
    ensures AgreesField(db, r, p, key) ==> BuildField(db, r, p, key) == Some(j)
    decreases p, 2
  {
    match p.typ
    case Object(schema) => OnlyPayload(db, r, schema, key, j.fields);
    case Array(element) => OnlyArray(db, r, element, key, j);
    case Link(_, Some(expansion)) => OnlyExpanded(db, r, expansion.members, key, j);
    case _ =>
  }

  lemma {:induction false} OnlyElement(db: Store, r: Reader, element: Property, key: Key, item: string, j: Json)
    requires key != [] && CanBuildElement(db, r, element, key, item, j)
    ensures BuildElement(db, r, element, key, item).Some?
    ensures AgreesElement(db, r, element, Child(key, item)) ==> BuildElement(db, r, element, key, item) == Some(j)
    decreases element, 0
  {
    match element.typ
    case Object(schema) => OnlyPayload(db, r, schema, Child(key, item), j.fields);
    case _ =>
  }

  lemma {:induction false} OnlyArray(db: Store, r: Reader, element: Property, key: Key, j: Json)
    requires key != [] && CanBuildArray(db, r, element, key, j)
    ensures BuildArray(db, r, element, key).Some?
    ensures AgreesArray(db, r, element, key) ==> BuildArray(db, r, element, key) == Some(j)
    decreases element, 1
  {
    var items := LRange(db, key).value;
    forall i {:trigger items[i]} | 0 <= i < |items|
      ensures BuildElement(db, r, element, key, items[i]).Some?
      ensures AgreesArray(db, r, element, key) ==> BuildElement(db, r, element, key, items[i]) == Some(j.items[i])
    {
      assert items[i] in items;
      OnlyElement(db, r, element, key, items[i], j.items[i]);
    }
    assert BuildArray(db, r, element, key).Some?;
    if AgreesArray(db, r, element, key) {
      assert BuildArray(db, r, element, key).value.items == j.items;
    }
  }

  lemma {:induction false} OnlyExpanded(db: Store, r: Reader, members: Schema, key: Key, j: Json)
    requires key != [] && CanBuildExpanded(db, r, members, key, j)
    ensures AgreesExpanded(db, r, members, key) ==> BuildExpanded(db, r, members, key) == Some(j)
    decreases members, 3
  {
    var items := LRange(db, key).value;
    if AgreesExpanded(db, r, members, key) {
      var built := BuildExpanded(db, r, members, key).value.items;
      forall i | 0 <= i < |items|
        ensures built[i] == j.items[i]
      {
        assert items[i] in items && CanExpand(db, r, members, Child(key, items[i]), j.items[i]);
        if BuildObject(db, r, members, Child(key, items[i])).Some? {
          OnlyPayload(db, r, members, Child(key, items[i]), j.items[i].fields);
        }
      }
      assert built == j.items;
    }
  }

  // ---------- The payload with all counts right is possible ----------

  /** A field of whose name no other is shorter. */
  lemma {:induction false} Shortest(names: set<string>) returns (name: string)
    requires names != {}
    ensures name in names && forall n :: n in names ==> |name| <= |n|
    decreases |names|
  {
    var some :| some in names;
    if names == {some} {
      name := some;
    } else {
      name := Shortest(names - {some});
      if |some| < |name| {
        name := some;
      }
    }
  }

  predicate Counted(fields: map<string, Json>, names: set<string>, k: string) {
    CountsArray(fields, k) && CountBase(k).value in names
  }

  /** The value of a key once the fields `names` have been written, shorter names later. */
  ghost function Late(fields: map<string, Json>, names: set<string>, k: string): Option<Json> {
    if Counted(fields, names, k) then Some(CountOf(fields[CountBase(k).value]))
    else if k in names && k in fields then Some(fields[k])
    else None
  }

  ghost predicate CountsLast(fields: map<string, Json>, names: set<string>, payload: map<string, Json>) {
    forall k :: Late(fields, names, k) == if k in payload then Some(payload[k]) else None
  }

  lemma {:induction false} LongestFirst(fields: map<string, Json>, names: set<string>) returns (order: seq<string>)
    requires names <= fields.Keys
    ensures IsOrder(order, names) && CountsLast(fields, names, WriteAll(fields, order))
    decreases |names|
  {
    if names == {} {
      order := [];
    } else {
      var name := Shortest(names);
      var before := LongestFirst(fields, names - {name});
      order := before + [name];
      OrderWithLast(before, names, name);
      CountsLastStep(fields, names, name, WriteAll(fields, before));
      WriteLast(fields, before, name);
    }
  }

  lemma OrderWithLast(before: seq<string>, names: set<string>, name: string)
    requires name in names && IsOrder(before, names - {name})
    ensures IsOrder(before + [name], names)
  {
    OrderOneMore(before, names - {name}, name);
    assert names - {name} + {name} == names;
  }

  lemma WriteLast(fields: map<string, Json>, before: seq<string>, name: string)
    requires name in fields && forall i :: 0 <= i < |before| ==> before[i] in fields
    ensures WriteAll(fields, before + [name]) == Write(WriteAll(fields, before), name, fields[name])
  {
    assert (before + [name])[..|before|] == before;
  }

  lemma CountsLastStep(fields: map<string, Json>, names: set<string>, name: string, payload: map<string, Json>)
    requires names <= fields.Keys && name in names && forall n :: n in names ==> |name| <= |n|
    requires CountsLast(fields, names - {name}, payload)
    ensures CountsLast(fields, names, Write(payload, name, fields[name]))
  {
    var next := Write(payload, name, fields[name]);
    forall k
      ensures Late(fields, names, k) == if k in next then Some(next[k]) else None
    {
      LateStep(fields, names, name, k);
      CountBaseOf(name);
    }
  }

  /** Only the field's own key and the key of its count change their late value. */
  lemma LateStep(fields: map<string, Json>, names: set<string>, name: string, k: string)
    requires names <= fields.Keys && name in names && forall n :: n in names ==> |name| <= |n|
    ensures Late(fields, names, k) ==
            if k == name then Some(fields[name])
            else if k == name + ODATA_COUNT && fields[name].JArr? then Some(CountOf(fields[name]))
            else Late(fields, names - {name}, k)
  {
    CountBaseIs(name, k);
    if CountBase(k).Some? {
      CountBaseIs(CountBase(k).value, k);
    }
  }

  lemma CountBaseIs(name: string, k: string)
    ensures CountBase(k) == Some(name) <==> k == name + ODATA_COUNT
    ensures |name| < |name + ODATA_COUNT|
  {
    CountBaseOf(name);
    if CountBase(k) == Some(name) {
      assert k == k[..|k| - |ODATA_COUNT|] + k[|k| - |ODATA_COUNT|..];
    }
  }

  /** Writing longer names first puts every count right. */
  lemma AssembleIsWritten(fields: map<string, Json>) returns (order: seq<string>)
    ensures Written(fields, order, Assemble(fields))
  {
    order := LongestFirst(fields, fields.Keys);
    var payload := WriteAll(fields, order);
    forall k
      ensures k in payload <==> k in Assemble(fields)
      ensures k in payload ==> payload[k] == Assemble(fields)[k]
    {
      InCountKeys(fields, k);
    }
  }

  lemma {:induction false} RightMembers(db: Store, r: Reader, schema: Schema, base: Key)
    requires base != [] && BuildObject(db, r, schema, base).Some?
    ensures SMembers(db, KeySpace(db, r.xname, base)) == Some(FieldsRead(db, r, schema, base).Keys)
    ensures BuildObject(db, r, schema, base) == Some(Assemble(FieldsRead(db, r, schema, base)))
    ensures forall name :: name in FieldsRead(db, r, schema, base) ==>
              && BuildMember(db, r, schema, KeySpace(db, r.xname, base), name) ==
                Some(FieldsRead(db, r, schema, base)[name])
              && CanBuildMember(db, r, schema, KeySpace(db, r.xname, base), name, FieldsRead(db, r, schema, base)[name])
    decreases schema, 1
  {
    var keySpace, fields := KeySpace(db, r.xname, base), FieldsRead(db, r, schema, base);
    forall name | name in fields
      ensures BuildMember(db, r, schema, keySpace, name) == Some(fields[name])
      ensures CanBuildMember(db, r, schema, keySpace, name, fields[name])
    {
      assert BuildMember(db, r, schema, keySpace, name).Some?;
      RightField(db, r, schema.props[name], Child(keySpace, name));
    }
    assert fields.Keys == SMembers(db, keySpace).value;
  }

  lemma {:induction false} RightPayload(db: Store, r: Reader, schema: Schema, base: Key)
    requires base != [] && BuildObject(db, r, schema, base).Some?
    ensures CanBuild(db, r, schema, base, BuildObject(db, r, schema, base).value)
    decreases schema, 2
  {
    RightMembers(db, r, schema, base);
    var fields := FieldsRead(db, r, schema, base);
    var order := AssembleIsWritten(fields);
    Possible(db, r, schema, base, fields, order, Assemble(fields));
  }

  lemma {:induction false} RightField(db: Store, r: Reader, p: Property, key: Key)
    requires key != [] && BuildField(db, r, p, key).Some?
    ensures CanBuildField(db, r, p, key, BuildField(db, r, p, key).value)
    decreases p, 4
  {
    match p.typ
    case Object(schema) => RightPayload(db, r, schema, key);
    case Array(element) =>
      var items := LRange(db, key).value;
      forall i | 0 <= i < |items|
        ensures CanBuildElement(db, r, element, key, items[i], BuildField(db, r, p, key).value.items[i])
      {
        assert BuildElement(db, r, element, key, items[i]).Some?;
        RightElement(db, r, element, key, items[i]);
      }
    case Link(_, Some(expansion)) => RightExpanded(db, r, expansion.members, key);
    case _ =>
  }

  lemma {:induction false} RightExpanded(db: Store, r: Reader, members: Schema, key: Key)
    requires key != [] && BuildExpanded(db, r, members, key).Some?
    ensures CanBuildExpanded(db, r, members, key, BuildExpanded(db, r, members, key).value)
    decreases members, 3
  {
    var items, built := LRange(db, key).value, BuildExpanded(db, r, members, key).value.items;
    forall i {:trigger built[i]} | 0 <= i < |items|
      ensures CanExpand(db, r, members, Child(key, items[i]), built[i])
    {
      if BuildObject(db, r, members, Child(key, items[i])).Some? {
        RightPayload(db, r, members, Child(key, items[i]));
      }
    }
  }

  lemma {:induction false} RightElement(db: Store, r: Reader, element: Property, key: Key, item: string)
    requires key != [] && BuildElement(db, r, element, key, item).Some?
    ensures CanBuildElement(db, r, element, key, item, BuildElement(db, r, element, key, item).value)
    decreases element, 0
  {
    match element.typ
    case Object(schema) => RightPayload(db, r, schema, Child(key, item));
    case _ =>
  }

  // ---------- A count that disagrees leaves more than one ----------

  lemma {:induction false} OtherPayload(db: Store, r: Reader, schema: Schema, base: Key)
    returns (payload: map<string, Json>)
    requires base != [] && BuildObject(db, r, schema, base).Some? && !Agrees(db, r, schema, base)
    ensures CanBuild(db, r, schema, base, payload) && BuildObject(db, r, schema, base) != Some(payload)
    decreases schema, 1
  {
    var keySpace, fields := KeySpace(db, r.xname, base), FieldsRead(db, r, schema, base);
    RightMembers(db, r, schema, base);
    if !CountsAgree(fields) {
      payload := OtherOrder(fields);
      var names :| Written(fields, names, payload);
      Possible(db, r, schema, base, fields, names, payload);
    } else {
      var name :| name in fields && !AgreesMember(db, r, schema, keySpace, name);
      var j := OtherField(db, r, schema.props[name], Child(keySpace, name));
      var rest := SomeOrder(fields.Keys - {name});
      payload := LastWritten(fields, name, j, rest);
      assert fields[name := j].Keys == fields.Keys;
      Possible(db, r, schema, base, fields[name := j], rest + [name], payload);
    }
  }

  lemma Possible(db: Store, r: Reader, schema: Schema, base: Key, fields: map<string, Json>, names: seq<string>,
                 payload: map<string, Json>)
    requires base != [] && SMembers(db, KeySpace(db, r.xname, base)) == Some(fields.Keys) &&
             Written(fields, names, payload)
    requires forall name :: name in fields ==>
               CanBuildMember(db, r, schema, KeySpace(db, r.xname, base), name, fields[name])
    ensures CanBuild(db, r, schema, base, payload)
  {
  }

  lemma OtherOrder(fields: map<string, Json>) returns (payload: map<string, Json>)
    requires !CountsAgree(fields)
    ensures payload != Assemble(fields) && exists names :: Written(fields, names, payload)
  {
    var one, other := OrderShows(fields);
    var names := if WriteAll(fields, one) == Assemble(fields) then other else one;
    payload := WriteAll(fields, names);
    assert Written(fields, names, payload);
  }

  /** The field that is written last, whatever its value, has that value in the payload. */
  lemma LastWritten(fields: map<string, Json>, name: string, j: Json, rest: seq<string>)
    returns (payload: map<string, Json>)
    requires CountsAgree(fields) && name in fields && IsOrder(rest, fields.Keys - {name})
    requires j != fields[name] && (fields[name].JObj? || fields[name].JArr?)
    ensures Written(fields[name := j], rest + [name], payload) && payload != Assemble(fields)
  {
    var other := fields[name := j];
    OrderOneMore(rest, fields.Keys - {name}, name);
    assert fields.Keys - {name} + {name} == other.Keys;
    payload := WriteAll(other, rest + [name]);
    assert (rest + [name])[..|rest|] == rest;
    assert |name + ODATA_COUNT| > |name|;
    assert payload[name] == j;
    InCountKeys(fields, name);
    assert CountsArray(fields, name) ==> CountBase(name).value + ODATA_COUNT == name by {
      CountBaseIs(if CountBase(name).Some? then CountBase(name).value else "", name);
    }
    assert !CountsArray(fields, name);
    assert Assemble(fields)[name] == fields[name];
  }

  lemma {:induction false} OtherField(db: Store, r: Reader, p: Property, key: Key) returns (j: Json)
    requires key != [] && BuildField(db, r, p, key).Some? && !AgreesField(db, r, p, key)
    ensures CanBuildField(db, r, p, key, j) && BuildField(db, r, p, key) != Some(j)
    ensures BuildField(db, r, p, key).value.JObj? || BuildField(db, r, p, key).value.JArr?
    decreases p, 2
  {
    match p.typ
    case Object(schema) =>
      var payload := OtherPayload(db, r, schema, key);
      j := JObj(payload);
    case Array(element) => j := OtherArray(db, r, element, key);
    case Link(_, Some(expansion)) => j := OtherExpanded(db, r, expansion.members, key);
    case _ => j := JNull;
  }

  lemma {:induction false} OtherArray(db: Store, r: Reader, element: Property, key: Key) returns (j: Json)
    requires key != [] && BuildArray(db, r, element, key).Some? && !AgreesArray(db, r, element, key)
    ensures CanBuildArray(db, r, element, key, j) && BuildArray(db, r, element, key) != Some(j)
    decreases element, 1
  {
    var items, built := LRange(db, key).value, BuildArray(db, r, element, key).value.items;
    var item :| item in items && !AgreesElement(db, r, element, Child(key, item));
    var n :| 0 <= n < |items| && items[n] == item;
    forall i {:trigger built[i]} | 0 <= i < |items|
      ensures CanBuildElement(db, r, element, key, items[i], built[i])
    {
      assert BuildElement(db, r, element, key, items[i]).Some?;
      RightElement(db, r, element, key, items[i]);
    }
    var payload := OtherPayload(db, r, element.typ.schema, Child(key, item));
    j := JArr(built[n := JObj(payload)]);
    assert j.items[n] != built[n];
  }

  /** An array with one other element. */
  function Replaced(items: seq<Json>, n: nat, j: Json): (r: Json)
    requires n < |items|
    ensures r.JArr? && |r.items| == |items| && r.items[n] == j && forall i :: 0 <= i < |items| && i != n ==>
              r.items[i] == items[i]
    ensures j != items[n] ==> r != JArr(items)
  {
    JArr(items[n := j])
  }

  lemma {:induction false} OtherExpanded(db: Store, r: Reader, members: Schema, key: Key) returns (j: Json)
    requires key != [] && BuildExpanded(db, r, members, key).Some? && !AgreesExpanded(db, r, members, key)
    ensures CanBuildExpanded(db, r, members, key, j) && BuildExpanded(db, r, members, key) != Some(j)
    decreases members, 2
  {
    var items := LRange(db, key).value;
    var n :| 0 <= n < |items| && !Agrees(db, r, members, Child(key, items[n]));
    var payload := OtherPayload(db, r, members, Child(key, items[n]));
    RightExpanded(db, r, members, key);
    j := Replaced(BuildExpanded(db, r, members, key).value.items, n, JObj(payload));
    ReplacedExpands(db, r, members, key, BuildExpanded(db, r, members, key).value, n, payload);
  }

  lemma ReplacedExpands(db: Store, r: Reader, members: Schema, key: Key, built: Json, n: nat,
                        payload: map<string, Json>)
    requires key != [] && CanBuildExpanded(db, r, members, key, built) && n < |built.items|
    requires BuildObject(db, r, members, Child(key, LRange(db, key).value[n])).Some?
    requires CanBuild(db, r, members, Child(key, LRange(db, key).value[n]), payload)
    ensures CanBuildExpanded(db, r, members, key, Replaced(built.items, n, JObj(payload)))
  {
  }

  /** `BuildStruct` yields the same payload for every order in which members are listed if and
      only if the count annotations agree with their arrays at every object that is read. */
  lemma OrderExactly(db: Store, r: Reader, schema: Schema, base: Key)
    requires base != [] && BuildObject(db, r, schema, base).Some?
    ensures CanBuild(db, r, schema, base, BuildObject(db, r, schema, base).value)
    ensures (forall payload :: CanBuild(db, r, schema, base, payload) ==>
               BuildObject(db, r, schema, base) == Some(payload))
            <==> Agrees(db, r, schema, base)
  {
    RightPayload(db, r, schema, base);
    if Agrees(db, r, schema, base) {
      forall payload | CanBuild(db, r, schema, base, payload)
        ensures BuildObject(db, r, schema, base) == Some(payload)
      {
        OnlyPayload(db, r, schema, base, payload);
      }
    } else {
      var payload := OtherPayload(db, r, schema, base);
    }
  }
}
