/** When patching an object is merging, where what is read may come from the prefixed keys. */
module Shadows {
  import opened Basics
  import opened Redis
  import opened Schema
  import opened Convert
  import opened Patch
  import opened Build
  import opened Order
  import opened Isolation
  import opened Merge

  // ---------- The condition ----------

  /** Where the reading of an object comes from: its own members, those at the prefixed key, or nowhere. */
  datatype Source = Own | Shadow | Nothing

  function SourceOf(db: Store, xname: string, key: Key): Source
    requires key != []
  {
    if MembersOf(db, key) != {} then Own else if Shadowed(db, xname, key) then Shadow else Nothing
  }

  /** The members listed at `key` after the patch. */
  function NamesAfter(db: Store, j: Json, key: Key): set<string>
    requires j.JObj?
  {
    MembersOf(db, key) - Cleared(j) + Named(j)
  }

  function Cleared(j: Json): set<string>
    requires j.JObj?
  {
    set name | name in j.fields && j.fields[name].JNull?
  }

  function Named(j: Json): set<string>
    requires j.JObj?
  {
    set name | name in j.fields && !j.fields[name].JNull?
  }

  function Inside(target: map<string, Json>, name: string): map<string, Json> {
    if name in target && target[name].JObj? then target[name].fields else map[]
  }

  function SourceInside(db: Store, xname: string, source: Source, target: map<string, Json>, key: Key,
                        name: string): Source {
    if name !in target then Nothing else if source.Own? then SourceOf(db, xname, Child(key, name)) else source
  }

  /** The patch goes into the object under this name. */
  predicate Descends(schema: Schema, j: Json, name: string)
    requires j.JObj?
  {
    name in j.fields && name in schema.props && schema.props[name].typ.Object? && j.fields[name].JObj?
  }

  /** Whether patching the object at `key` with `j` merges `j` into `target`, which was read from
      `source`, told from the store before.  An object without members after the patch is read from
      its shadow, if there is one: it must have been before, and the patch must name nothing of it.
      Otherwise what is stored under other names must be what was read under them, and the same
      must hold of all objects that the patch goes into. */
  ghost predicate MergesHere(db: Store, r: Reader, schema: Schema, target: map<string, Json>, source: Source, j: Json,
                             key: Key)
    requires key != [] && j.JObj?
    decreases j
  {
    if NamesAfter(db, j, key) == {} && Shadowed(db, r.xname, key) then source.Shadow? && target.Keys !! j.fields.Keys
    else
      && (source.Own? || BuildRest(db, r, schema, j.fields.Keys, key) == Some(target - j.fields.Keys))
      && forall name :: Descends(schema, j, name) ==>
           MergesHere(db, r, schema.props[name].typ.schema, Inside(target, name),
                      SourceInside(db, r.xname, source, target, key, name), j.fields[name], Child(key, name))
  }

  /** Whether the count annotations agree with their arrays after the patch, told from the store before. */
  ghost predicate AgreesHere(db: Store, r: Reader, schema: Schema, j: Json, key: Key)
    requires key != [] && j.JObj?
    decreases j
  {
    if NamesAfter(db, j, key) == {} && Shadowed(db, r.xname, key) then Agrees(db, r, schema, Fallback(r.xname, key))
    else
      && RestAgrees(db, r, schema, j.fields.Keys, key)
      && forall name :: Descends(schema, j, name) ==>
           AgreesHere(db, r, schema.props[name].typ.schema, j.fields[name], Child(key, name))
  }

  /** The target is what reading from the source gives. */
  ghost predicate Comes(db: Store, r: Reader, schema: Schema, target: map<string, Json>, source: Source, key: Key)
    requires key != []
  {
    match source
    case Own => MembersOf(db, key) != {} && BuildRest(db, r, schema, {}, key) == Some(target)
    case Shadow => Fallback(r.xname, key) != key && BuildObject(db, r, schema, Fallback(r.xname, key)) == Some(target)
    case Nothing => target == map[]
  }

  // ---------- Payloads ----------

  /** Arrays stand only where the schema has them. */
  ghost predicate ArraysFit(schema: Schema, fields: map<string, Json>) {
    forall name :: name in fields && fields[name].JArr? ==> name in schema.props && ArrayLike(schema.props[name])
  }

  /** The names of a patch: no arrays and no counts of arrays. */
  ghost predicate NamesFit(schema: Schema, names: set<string>) {
    forall name :: name in names ==>
      name in schema.props && !ArrayLike(schema.props[name]) && !CountsSchemaArray(schema, name)
  }

  /** Such a name appears in the payload as it is, and no other key depends on it. */
  lemma NamedKey(schema: Schema, fields: map<string, Json>, rest: map<string, Json>, names: set<string>, k: string)
    requires ArraysFit(schema, fields) && NamesFit(schema, names)
    requires rest == fields - names
    ensures k in names ==> (k in Assemble(fields) <==> k in fields) && k !in Assemble(rest)
    ensures k in names && k in fields ==> Assemble(fields)[k] == fields[k]
    ensures k !in names ==> (k in Assemble(fields) <==> k in Assemble(rest))
    ensures k !in names && k in Assemble(rest) ==> Assemble(fields)[k] == Assemble(rest)[k]
  {
    InCountKeys(fields, k);
    InCountKeys(rest, k);
  }

  /** The rest of a payload is the payload of the rest. */
  lemma AssembleRest(schema: Schema, fields: map<string, Json>, names: set<string>)
    requires ArraysFit(schema, fields) && NamesFit(schema, names)
    ensures Assemble(fields - names) == Assemble(fields) - names
    ensures CountsAgree(fields) <==> CountsAgree(fields - names)
  {
    var rest := fields - names;
    forall k
      ensures k in Assemble(rest) <==> k in Assemble(fields) && k !in names
      ensures k in Assemble(rest) ==> Assemble(rest)[k] == Assemble(fields)[k]
    {
      NamedKey(schema, fields, rest, names, k);
    }
    forall name | name in fields && fields[name].JArr?
      ensures name in rest && (name + ODATA_COUNT in fields <==> name + ODATA_COUNT in rest)
    {
      CountBaseOf(name);
    }
  }

  function TargetAt(target: map<string, Json>, name: string): Json {
    if name in target then target[name] else JNull
  }

  /** A payload is a merge if and only if its rest is the rest of the target, and each name given is merged. */
  lemma MergeByParts(schema: Schema, after: map<string, Json>, target: map<string, Json>, j: Json)
    requires j.JObj? && ArraysFit(schema, after) && NamesFit(schema, j.fields.Keys)
    requires forall name :: name in j.fields ==> (name in after <==> !j.fields[name].JNull?)
    ensures Assemble(after) == MergePatch(JObj(target), j).fields <==>
              && Assemble(after - j.fields.Keys) == target - j.fields.Keys
              && forall name :: name in Named(j) ==> after[name] == MergePatch(TargetAt(target, name), j.fields[name])
  {
    var names, merged := j.fields.Keys, MergePatch(JObj(target), j).fields;
    var rest, others := Assemble(after - names), target - names;
    forall k
      ensures k in names ==> (k in Assemble(after) <==> k in merged)
      ensures k in Named(j) ==>
                k in merged && Assemble(after)[k] == after[k] &&
                merged[k] == MergePatch(TargetAt(target, k), j.fields[k])
      ensures k !in names ==> (k in Assemble(after) <==> k in rest) && (k in merged <==> k in others)
      ensures k !in names && k in rest ==> Assemble(after)[k] == rest[k]
      ensures k !in names && k in others ==> merged[k] == others[k]
      ensures k in names ==> k !in rest && k !in others
    {
      NamedKey(schema, after, after - names, names, k);
    }
    SameByParts(Assemble(after), merged, rest, others, names);
    assert forall k :: k in Assemble(after) && k in names ==> k in Named(j);
    assert forall k :: k in Named(j) ==> k in Assemble(after) && k in names;
  }

  lemma SameByParts(a: map<string, Json>, b: map<string, Json>, rest: map<string, Json>, others: map<string, Json>,
                    names: set<string>)
    requires forall k :: k in names ==> (k in a <==> k in b) && k !in rest && k !in others
    requires forall k :: k !in names ==> (k in a <==> k in rest) && (k in b <==> k in others)
    requires forall k :: k !in names && k in rest ==> a[k] == rest[k]
    requires forall k :: k !in names && k in others ==> b[k] == others[k]
    ensures a == b <==> rest == others && forall k :: k in a && k in names ==> a[k] == b[k]
  {
    if rest == others && forall k :: k in a && k in names ==> a[k] == b[k] {
      forall k
        ensures k in a <==> k in b
        ensures k in a ==> a[k] == b[k]
      {
      }
    }
    if a == b {
      forall k
        ensures k in rest <==> k in others
        ensures k in rest ==> rest[k] == others[k]
      {
      }
    }
  }

  // ---------- Where members come from ----------

  lemma ArraysInSchema(db: Store, r: Reader, schema: Schema, skip: set<string>, key: Key)
    requires key != [] && BuildRest(db, r, schema, skip, key).Some?
    ensures ArraysFit(schema, FieldsRest(db, r, schema, skip, key))
  {
    var fields := FieldsRest(db, r, schema, skip, key);
    forall name | name in fields && fields[name].JArr?
      ensures name in schema.props && ArrayLike(schema.props[name])
    {
      assert BuildMember(db, r, schema, key, name).Some?;
      ArrayFields(db, r, schema.props[name], Child(key, name));
    }
  }

  /** What is read of a name that the patch may carry. */
  lemma MemberRead(db: Store, r: Reader, schema: Schema, keySpace: Key, fields: map<string, Json>, name: string)
    requires keySpace != [] && NamesFit(schema, {name})
    requires forall n :: n in fields ==> BuildMember(db, r, schema, keySpace, n) == Some(fields[n])
    ensures name in Assemble(fields) <==> name in fields
    ensures name in fields ==> Assemble(fields)[name] == fields[name]
  {
    forall n | n in fields && fields[n].JArr?
      ensures n in schema.props && ArrayLike(schema.props[n])
    {
      ArrayFields(db, r, schema.props[n], Child(keySpace, n));
    }
    assert name in {name};
    NamedKey(schema, fields, fields - {name}, {name}, name);
  }

  /** The keyspace that the target was read from. */
  function SourceKey(xname: string, source: Source, key: Key): Key
    requires key != []
  {
    if source.Shadow? then Fallback(xname, key) else key
  }

  lemma TargetMember(db: Store, r: Reader, schema: Schema, target: map<string, Json>, source: Source, key: Key,
                     name: string)
    requires key != [] && Comes(db, r, schema, target, source, key) && NamesFit(schema, {name})
    ensures !source.Nothing? ==> (name in target <==> name in MembersOf(db, SourceKey(r.xname, source, key)))
    ensures name in target ==> BuildMember(db, r, schema, SourceKey(r.xname, source, key), name) == Some(target[name])
  {
    match source
    case Own =>
      var fields := FieldsRest(db, r, schema, {}, key);
      MemberRead(db, r, schema, key, fields, name);
    case Shadow =>
      var shadow := Fallback(r.xname, key);
      FallbackChild(r.xname, key, name);
      RightMembers(db, r, schema, shadow);
      MemberRead(db, r, schema, shadow, FieldsRead(db, r, schema, shadow), name);
    case Nothing =>
  }

  /** What the target holds under a name is, for the object there, what was read from where it comes from. */
  lemma InnerComes(db: Store, r: Reader, schema: Schema, target: map<string, Json>, source: Source, j: Json, key: Key,
                   name: string)
    requires key != [] && j.JObj? && Comes(db, r, schema, target, source, key)
    requires Descends(schema, j, name) && NamesFit(schema, {name})
    ensures Comes(db, r, schema.props[name].typ.schema, Inside(target, name),
                  SourceInside(db, r.xname, source, target, key, name), Child(key, name))
  {
    var inner, child := schema.props[name].typ.schema, Child(key, name);
    TargetMember(db, r, schema, target, source, key, name);
    if name in target {
      FallbackChild(r.xname, key, name);
      assert BuildObject(db, r, inner, Child(SourceKey(r.xname, source, key), name)) == Some(Inside(target, name));
      if source.Own? {
        ReadFromSource(db, r, inner, Inside(target, name), child);
      }
    }
  }

  /** What is read at a key comes from its source. */
  lemma ReadFromSource(db: Store, r: Reader, schema: Schema, read: map<string, Json>, key: Key)
    requires key != [] && BuildObject(db, r, schema, key) == Some(read)
    ensures Comes(db, r, schema, read, SourceOf(db, r.xname, key), key)
  {
    match SourceOf(db, r.xname, key)
    case Own => ReadInPlace(db, r, schema, key);
    case Shadow => InShadow(db, r, schema, key);
    case Nothing =>
      ReadInPlace(db, r, schema, key);
      var none: map<string, Json> := map[];
      assert FieldsRest(db, r, schema, {}, key) == none && Assemble(none) == map[];
  }

  lemma InShadow(db: Store, r: Reader, schema: Schema, key: Key)
    requires key != [] && MembersOf(db, key) == {}
    ensures BuildObject(db, r, schema, key) == BuildObject(db, r, schema, Fallback(r.xname, key))
    ensures Agrees(db, r, schema, key) == Agrees(db, r, schema, Fallback(r.xname, key))
  {
    FallbackChild(r.xname, key, "");
  }

  // ---------- One object, patched ----------

  /** The patch `j`, converted to `fields`, has been applied to the object at `key`. */
  ghost predicate Applied(db: Store, db': Store, r: Reader, r': Reader, schema: Schema, j: Json,
                          fields: map<string, Inter>, key: Key, path: seq<string>)
    requires key != []
  {
    && j.JObj? && PatchObject(r, schema, j) && ConvertObject(schema, j, path, None) == Some(fields)
    && PatchSafe(db, IObj(fields), key) && PatchedUnder(db, db', IObj(fields), key)
    && FallbacksAgree(db, db', r.xname, key) && Readers(db, db', r, r')
  }

  lemma NamesOfPatch(r: Reader, schema: Schema, j: Json)
    requires j.JObj? && PatchObject(r, schema, j)
    ensures NamesFit(schema, j.fields.Keys)
    ensures forall name :: name in j.fields ==>
              NamesFit(schema, {name}) && PatchData(r, schema.props[name], j.fields[name])
  {
    forall name | name in j.fields
      ensures name in schema.props && PatchData(r, schema.props[name], j.fields[name]) &&
              !CountsSchemaArray(schema, name)
      ensures NamesFit(schema, {name})
    {
    }
  }

  lemma MembersAfter(db: Store, db': Store, r: Reader, r': Reader, schema: Schema, j: Json,
                     fields: map<string, Inter>, key: Key, path: seq<string>)
    requires key != [] && Applied(db, db', r, r', schema, j, fields, key, path)
    ensures MembersOf(db', key) == NamesAfter(db, j, key) && SMembers(db', key).None? == SMembers(db, key).None?
    ensures Shadowed(db', r.xname, key) == Shadowed(db, r.xname, key)
    ensures NamesFit(schema, j.fields.Keys)
  {
    NamesOfPatch(r, schema, j);
    assert Under(key, key) && Lookup(db', key) == OwnAfter(db, key, fields, fields.Keys);
    PatchConverts(r, schema, j, path);
    assert Nulls(fields) * fields.Keys == Cleared(j) && Values(fields) * fields.Keys == Named(j);
    if fields.Keys == {} {
      assert Cleared(j) == {} && Named(j) == {};
    }
  }

  lemma AppliedInside(db: Store, db': Store, r: Reader, r': Reader, schema: Schema, j: Json,
                      fields: map<string, Inter>, key: Key, path: seq<string>, name: string)
    requires key != [] && Applied(db, db', r, r', schema, j, fields, key, path) && Descends(schema, j, name)
    ensures name in fields && fields[name].IObj?
    ensures Applied(db, db', r, r', schema.props[name].typ.schema, j.fields[name], fields[name].fields,
                    Child(key, name), path + [name])
  {
    NamesOfPatch(r, schema, j);
    PatchConverts(r, schema, j, path);
    var inner, value := schema.props[name].typ.schema, j.fields[name];
    var v := ConvertValue(schema.props[name], value, path + [name], None);
    assert ConvertField(schema.props[name], value, path + [name], None) == Conv(fields[name], false);
    assert PatchObject(r, inner, value);
    PatchConverts(r, inner, value, path + [name]);
    assert v == Some(IObj(ConvertObject(inner, value, path + [name], None).value));
    PatchedChild(db, db', fields, key, name);
    FallbacksAgreeChild(db, db', r.xname, key, name);
  }

  /** An object without members is read from the prefixed key, which the patch leaves alone. */
  lemma ShadowStays(db: Store, db': Store, r: Reader, r': Reader, schema: Schema, key: Key)
    requires key != [] && MembersOf(db', key) == {} && Shadowed(db, r.xname, key)
    requires FallbacksAgree(db, db', r.xname, key) && Readers(db, db', r, r')
    ensures BuildObject(db', r', schema, key) == BuildObject(db, r, schema, Fallback(r.xname, key))
    ensures Agrees(db', r', schema, key) == Agrees(db, r, schema, Fallback(r.xname, key))
  {
    var shadow := Fallback(r.xname, key);
    FallbackChild(r.xname, key, "");
    forall q | Under(shadow, q)
      ensures Lookup(db, q) == Lookup(db', q)
    {
      var k := FallbackUnder(r.xname, key, q);
    }
    ObjectIsolated(db, db', r, r', schema, shadow);
    InShadow(db', r', schema, key);
  }

  lemma ShadowShows(db: Store, r: Reader, schema: Schema, key: Key)
    requires key != [] && Shadowed(db, r.xname, key)
    ensures BuildObject(db, r, schema, Fallback(r.xname, key)) != Some(map[])
  {
    var shadow := Fallback(r.xname, key);
    FallbackChild(r.xname, key, "");
    var names := SMembers(db, shadow);
    if BuildObject(db, r, schema, shadow).Some? && names.Some? {
      assert names.value != {};
      var some :| some in names.value;
      InCountKeys(FieldsRead(db, r, schema, shadow), some);
      RightMembers(db, r, schema, shadow);
      assert some in BuildObject(db, r, schema, shadow).value;
    }
  }

  /** A patch that leaves an object with a shadow no members. */
  lemma EmptiedObject(db: Store, db': Store, r: Reader, r': Reader, schema: Schema, target: map<string, Json>,
                      source: Source, j: Json, fields: map<string, Inter>, key: Key, path: seq<string>)
    requires key != [] && Applied(db, db', r, r', schema, j, fields, key, path)
    requires Comes(db, r, schema, target, source, key)
    requires NamesAfter(db, j, key) == {} && Shadowed(db, r.xname, key)
    ensures BuildObject(db', r', schema, key) == Some(MergePatch(JObj(target), j).fields) <==>
              source.Shadow? && target.Keys !! j.fields.Keys
    ensures Agrees(db', r', schema, key) == Agrees(db, r, schema, Fallback(r.xname, key))
  {
    MembersAfter(db, db', r, r', schema, j, fields, key, path);
    ShadowStays(db, db', r, r', schema, key);
    ShadowShows(db, r, schema, key);
    OnlyCleared(target, j);
    if source.Own? {
      AllCleared(db, r, schema, target, j, key);
    }
  }

  /** Merging a patch of nulls removes its names. */
  lemma OnlyCleared(target: map<string, Json>, j: Json)
    requires j.JObj? && Named(j) == {}
    ensures MergePatch(JObj(target), j).fields == target - j.fields.Keys
    ensures target - j.fields.Keys == target <==> target.Keys !! j.fields.Keys
  {
    assert forall name :: name in j.fields ==> name !in Named(j);
    var rest := target - j.fields.Keys;
    if target.Keys !! j.fields.Keys {
      assert rest == target;
    }
    if rest == target {
      assert forall name :: name in target ==> name in rest;
    }
  }

  lemma AllCleared(db: Store, r: Reader, schema: Schema, target: map<string, Json>, j: Json, key: Key)
    requires key != [] && j.JObj? && NamesFit(schema, j.fields.Keys) && NamesAfter(db, j, key) == {}
    requires BuildRest(db, r, schema, {}, key) == Some(target)
    ensures target - j.fields.Keys == map[]
  {
    var fields := FieldsRest(db, r, schema, {}, key);
    ArraysInSchema(db, r, schema, {}, key);
    AssembleRest(schema, fields, j.fields.Keys);
    var none: map<string, Json> := map[];
    forall name | name in fields
      ensures name in j.fields.Keys
    {
      assert name in MembersOf(db, key) && name !in NamesAfter(db, j, key);
    }
    assert fields - j.fields.Keys == none;
    assert Assemble(none) == map[];
  }

  // ---------- The members that the patch names ----------

  ghost predicate MemberMerges(db: Store, r: Reader, schema: Schema, target: map<string, Json>, source: Source, j: Json,
                               key: Key, name: string)
    requires key != [] && j.JObj?
  {
    Descends(schema, j, name) ==>
      MergesHere(db, r, schema.props[name].typ.schema, Inside(target, name),
                 SourceInside(db, r.xname, source, target, key, name), j.fields[name], Child(key, name))
  }

  ghost predicate MemberAgrees(db: Store, r: Reader, schema: Schema, j: Json, key: Key, name: string)
    requires key != [] && j.JObj?
  {
    Descends(schema, j, name) ==> AgreesHere(db, r, schema.props[name].typ.schema, j.fields[name], Child(key, name))
  }

  lemma {:induction false} NamedMember(db: Store, db': Store, r: Reader, r': Reader, schema: Schema,
                                       target: map<string, Json>, source: Source, j: Json,
                                       fields: map<string, Inter>, key: Key, path: seq<string>, name: string)
    requires key != [] && Applied(db, db', r, r', schema, j, fields, key, path)
    requires Comes(db, r, schema, target, source, key) && name in Named(j)
    ensures BuildMember(db', r', schema, key, name) == Some(MergePatch(TargetAt(target, name), j.fields[name])) <==>
              MemberMerges(db, r, schema, target, source, j, key, name)
    ensures BuildMember(db', r', schema, key, name).Some? ==>
              (AgreesMember(db', r', schema, key, name) <==> MemberAgrees(db, r, schema, j, key, name))
    decreases j, 0
  {
    var p, value, child := schema.props[name], j.fields[name], Child(key, name);
    NamesOfPatch(r, schema, j);
    PatchConverts(r, schema, j, path);
    if Descends(schema, j, name) {
      AppliedInside(db, db', r, r', schema, j, fields, key, path, name);
      InnerComes(db, r, schema, target, source, j, key, name);
      MergesExactly(db, db', r, r', p.typ.schema, Inside(target, name),
                    SourceInside(db, r.xname, source, target, key,
                                 name), value, fields[name].fields, child, path + [name]);
      assert BuildMember(db', r', schema, key, name) == BuildField(db', r', p, child);
      MergeInside(db, r, schema, target, source, j, key, name);
    } else {
      PlainMember(db, db', r, r', schema, target, source, j, fields, key, path, name);
    }
  }

  /** Merging into what is inside the target is merging into the target's member. */
  lemma MergeInside(db: Store, r: Reader, schema: Schema, target: map<string, Json>, source: Source, j: Json, key: Key,
                    name: string)
    requires key != [] && j.JObj? && Comes(db, r, schema, target, source, key)
    requires Descends(schema, j, name) && NamesFit(schema, {name})
    ensures MergePatch(TargetAt(target, name), j.fields[name]) == MergePatch(JObj(Inside(target, name)), j.fields[name])
  {
    TargetMember(db, r, schema, target, source, key, name);
  }

  lemma PlainMember(db: Store, db': Store, r: Reader, r': Reader, schema: Schema, target: map<string, Json>,
                    source: Source, j: Json, fields: map<string, Inter>, key: Key, path: seq<string>, name: string)
    requires key != [] && Applied(db, db', r, r', schema, j, fields, key, path)
    requires Comes(db, r, schema, target, source, key) && name in Named(j) && !Descends(schema, j, name)
    ensures BuildMember(db', r', schema, key, name) == Some(MergePatch(TargetAt(target, name), j.fields[name]))
    ensures AgreesMember(db', r', schema, key, name)
  {
    var p, value, child := schema.props[name], j.fields[name], Child(key, name);
    NamesOfPatch(r, schema, j);
    PatchConverts(r, schema, j, path);
    PatchedChild(db, db', fields, key, name);
    var v := ConvertValue(p, value, path + [name], None);
    match p.typ
    case Simple(kind) =>
      PatchSimple(db, db', r', kind, value, SimpleText(kind, value).value, child);
    case Link(_, _) =>
      PatchLink(db, db', r', value, child);
      TargetMember(db, r, schema, target, source, key, name);
      MergeLink(TargetAt(target, name), value, LinkText(value).value);
    case _ =>
  }

  // ---------- The objects ----------

  /** Reading an object after its patch, where it is stored. */
  lemma {:induction false} PatchedInPlace(db: Store, db': Store, r: Reader, r': Reader, schema: Schema,
                                          target: map<string, Json>, source: Source, j: Json,
                                          fields: map<string, Inter>, key: Key, path: seq<string>)
    requires key != [] && Applied(db, db', r, r', schema, j, fields, key, path)
    requires Comes(db, r, schema, target, source, key)
    requires NamesAfter(db, j, key) != {} || !Shadowed(db, r.xname, key)
    ensures BuildObject(db', r', schema, key) == Some(MergePatch(JObj(target), j).fields) <==>
              && BuildRest(db, r, schema, j.fields.Keys, key) == Some(target - j.fields.Keys)
              && forall name :: name in Named(j) ==> MemberMerges(db, r, schema, target, source, j, key, name)
    ensures BuildObject(db', r', schema, key).Some? ==>
              (Agrees(db', r', schema, key) <==>
                 && RestAgrees(db, r, schema, j.fields.Keys, key)
                 && forall name :: name in Named(j) ==> MemberAgrees(db, r, schema, j, key, name))
    decreases j, 1
  {
    MembersAfter(db, db', r, r', schema, j, fields, key, path);
    ReadInPlace(db', r', schema, key);
    forall name | name in Named(j)
      ensures BuildMember(db', r', schema, key, name) == Some(MergePatch(TargetAt(target, name), j.fields[name])) <==>
                MemberMerges(db, r, schema, target, source, j, key, name)
      ensures BuildMember(db', r', schema, key, name).Some? ==>
                (AgreesMember(db', r', schema, key, name) <==> MemberAgrees(db, r, schema, j, key, name))
    {
      NamedMember(db, db', r, r', schema, target, source, j, fields, key, path, name);
    }
    PatchConverts(r, schema, j, path);
    forall name | name !in j.fields
      ensures BuildMember(db, r, schema, key, name) == BuildMember(db', r', schema, key, name)
      ensures AgreesMember(db, r, schema, key, name) == AgreesMember(db', r', schema, key, name)
    {
      UnnamedMember(db, db', r, r', schema, fields, key, name);
    }
    ByMembers(db, db', r, r', schema, target, source, j, key);
    if BuildObject(db', r', schema, key).Some? {
      RestStays(db, db', r, r', schema, target, source, j, key);
      ByMembersAgree(db, db', r, r', schema, target, source, j, key);
    }
  }

  /** The readings of the members are those of `PatchedInPlace`. */
  ghost predicate MembersRead(db: Store, db': Store, r: Reader, r': Reader, schema: Schema, target: map<string, Json>,
                              source: Source, j: Json, key: Key)
    requires key != [] && j.JObj?
  {
    && NamesFit(schema, j.fields.Keys) && r'.xname == r.xname
    && MembersOf(db', key) == NamesAfter(db, j, key) && SMembers(db', key).None? == SMembers(db, key).None?
    && (forall name :: name in Named(j) ==>
          (BuildMember(db', r', schema, key, name) == Some(MergePatch(TargetAt(target, name), j.fields[name])) <==>
             MemberMerges(db, r, schema, target, source, j, key, name)))
    && (forall name :: name !in j.fields ==>
          BuildMember(db, r, schema, key, name) == BuildMember(db', r', schema, key, name))
  }

  lemma RestStays(db: Store, db': Store, r: Reader, r': Reader, schema: Schema, target: map<string, Json>,
                  source: Source, j: Json, key: Key)
    requires key != [] && j.JObj? && MembersRead(db, db', r, r', schema, target, source, j, key)
    ensures FieldsRest(db', r', schema, {}, key) - j.fields.Keys == FieldsRest(db, r, schema, j.fields.Keys, key)
    ensures FieldsRest(db', r', schema, {}, key).Keys == NamesAfter(db, j, key)
    ensures BuildRest(db', r', schema, {}, key).Some? <==>
              && BuildRest(db, r, schema, j.fields.Keys, key).Some?
              && forall name :: name in Named(j) ==> BuildMember(db', r', schema, key, name).Some?
  {
    assert MembersOf(db', key) - {} == NamesAfter(db, j, key);
    assert NamesAfter(db, j, key) - j.fields.Keys == MembersOf(db, key) - j.fields.Keys;
    assert FieldsRest(db', r', schema, {}, key) - j.fields.Keys == FieldsRest(db, r, schema, j.fields.Keys, key);
  }

  lemma {:induction false} ByMembers(db: Store, db': Store, r: Reader, r': Reader, schema: Schema,
                                     target: map<string, Json>, source: Source, j: Json, key: Key)
    requires key != [] && j.JObj? && MembersRead(db, db', r, r', schema, target, source, j, key)
    ensures BuildRest(db', r', schema, {}, key) == Some(MergePatch(JObj(target), j).fields) <==>
              && BuildRest(db, r, schema, j.fields.Keys, key) == Some(target - j.fields.Keys)
              && forall name :: name in Named(j) ==> MemberMerges(db, r, schema, target, source, j, key, name)
  {
    RestStays(db, db', r, r', schema, target, source, j, key);
    if BuildRest(db', r', schema, {}, key).Some? {
      var after := FieldsRest(db', r', schema, {}, key);
      ArraysInSchema(db', r', schema, {}, key);
      MergeByParts(schema, after, target, j);
      forall name | name in Named(j)
        ensures BuildMember(db', r', schema, key, name) == Some(after[name])
      {
        assert name in NamesAfter(db, j, key);
      }
    }
  }

  lemma {:induction false} ByMembersAgree(db: Store, db': Store, r: Reader, r': Reader, schema: Schema,
                                          target: map<string, Json>, source: Source, j: Json, key: Key)
    requires key != [] && j.JObj? && MembersRead(db, db', r, r', schema, target, source, j, key)
    requires BuildRest(db', r', schema, {}, key).Some?
    requires forall name :: name in Named(j) ==>
               (AgreesMember(db', r', schema, key, name) <==> MemberAgrees(db, r, schema, j, key, name))
    requires forall name :: name !in j.fields ==>
               AgreesMember(db, r, schema, key, name) == AgreesMember(db', r', schema, key, name)
    ensures RestAgrees(db', r', schema, {}, key) <==>
              && RestAgrees(db, r, schema, j.fields.Keys, key)
              && forall name :: name in Named(j) ==> MemberAgrees(db, r, schema, j, key, name)
  {
    RestStays(db, db', r, r', schema, target, source, j, key);
    ArraysInSchema(db', r', schema, {}, key);
    AssembleRest(schema, FieldsRest(db', r', schema, {}, key), j.fields.Keys);
  }

  /** Patching the object at `key` merges the patch into the target if and only if `MergesHere`, in
      every store where the patch does not panic; and then `AgreesHere` tells whether the counts agree. */
  lemma {:induction false} MergesExactly(db: Store, db': Store, r: Reader, r': Reader, schema: Schema,
                                         target: map<string, Json>, source: Source, j: Json,
                                         fields: map<string, Inter>, key: Key, path: seq<string>)
    requires key != [] && Applied(db, db', r, r', schema, j, fields, key, path)
    requires Comes(db, r, schema, target, source, key)
    ensures BuildObject(db', r', schema, key) == Some(MergePatch(JObj(target), j).fields) <==>
              MergesHere(db, r, schema, target, source, j, key)
    ensures BuildObject(db', r', schema, key).Some? ==>
              (Agrees(db', r', schema, key) <==> AgreesHere(db, r, schema, j, key))
    decreases j, 2
  {
    if NamesAfter(db, j, key) == {} && Shadowed(db, r.xname, key) {
      EmptiedObject(db, db', r, r', schema, target, source, j, fields, key, path);
    } else {
      PatchedInPlace(db, db', r, r', schema, target, source, j, fields, key, path);
      if source.Own? {
        NamesOfPatch(r, schema, j);
        OwnRest(db, r, schema, target, j, key);
      }
      assert forall name :: name in Named(j) ==> (MemberMerges(db, r, schema, target, source, j, key, name) <==>
        (Descends(schema, j, name) ==>
           MergesHere(db, r, schema.props[name].typ.schema, Inside(target, name),
                      SourceInside(db, r.xname, source, target, key, name), j.fields[name], Child(key, name))));
      assert forall name :: Descends(schema, j, name) ==> name in Named(j);
    }
  }

  /** What is read where it is stored stays under the other names. */
  lemma OwnRest(db: Store, r: Reader, schema: Schema, target: map<string, Json>, j: Json, key: Key)
    requires key != [] && j.JObj? && NamesFit(schema, j.fields.Keys) &&
             BuildRest(db, r, schema, {}, key) == Some(target)
    ensures BuildRest(db, r, schema, j.fields.Keys, key) == Some(target - j.fields.Keys)
  {
    var fields := FieldsRest(db, r, schema, {}, key);
    ArraysInSchema(db, r, schema, {}, key);
    AssembleRest(schema, fields, j.fields.Keys);
    assert fields - j.fields.Keys == FieldsRest(db, r, schema, j.fields.Keys, key);
  }
}
