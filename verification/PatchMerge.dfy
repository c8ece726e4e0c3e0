/** When what is read after a PATCH is the merge of the patch into what was read before. */
module PatchMerge {
  import opened Basics
  import opened Redis
  import opened Schema
  import opened Convert
  import opened Patch
  import opened Build
  import opened Order
  import opened Isolation
  import opened Merge
  import opened Shadows
  import Insert

  // Two things can come between: the generated @odata.context text, which lists the resource's own
  // names, and a resource that is stored under its xname, while PATCH writes under the URI.

  // ---------- The generated text ----------

  /** The @odata.context text after the patch, told from the store before it. */
  function ContextAfter(db: Store, r: Reader, v: Inter, key: Key): Option<string> {
    match r.context
    case Given(text) => text
    case Generated =>
      var own := TrimEmpty(r.uri);
      match if Under(key, own) then PatchAt(db, v, own, |key|) else Lookup(db, own)
      case None => Some(ContextOf(r, {}))
      case Some(Set(names)) => Some(ContextOf(r, names))
      case _ => None
  }

  /** The reader of the store before the patch, but for the @odata.context text. */
  function ReaderAfter(db: Store, r: Reader, v: Inter, key: Key): Reader {
    r.(context := Given(ContextAfter(db, r, v, key)))
  }

  lemma ContextPatched(db: Store, db': Store, r: Reader, v: Inter, key: Key)
    requires Patched(db, db', v, key)
    ensures ContextText(db', r) == ContextAfter(db, r, v, key)
    ensures Readers(db, db', ReaderAfter(db, r, v, key), r)
  {
    var own := TrimEmpty(r.uri);
    assert Lookup(db', own) == if Under(key, own) then PatchAt(db, v, own, |key|) else Lookup(db, own);
  }

  /** An unchanged text changes no reading. */
  lemma ContextUnchanged(db: Store, r: Reader, v: Inter, schema: Schema, key: Key)
    requires key != [] && ContextAfter(db, r, v, key) == ContextText(db, r)
    ensures BuildObject(db, ReaderAfter(db, r, v, key), schema, key) == BuildObject(db, r, schema, key)
    ensures Agrees(db, ReaderAfter(db, r, v, key), schema, key) == Agrees(db, r, schema, key)
  {
    ObjectIsolated(db, db, ReaderAfter(db, r, v, key), r, schema, key);
  }

  // ---------- The theorem ----------

  /** Wherever the patch does not panic: what is read after it is the RFC 7396 merge of the patch into what
      was read before, with the @odata.context text of after, if and only if `MergesHere`.  Whether the
      counts then agree is told by `AgreesHere`. */
  lemma PatchIsMerge(db: Store, db': Store, r: Reader, schema: Schema, j: Json, key: Key, path: seq<string>,
                     fields: map<string, Inter>)
    requires key != [] && j.JObj? && PatchObject(r, schema, j) && ConvertObject(schema, j, path, None) == Some(fields)
    requires PatchSafe(db, IObj(fields), key) && Patched(db, db', IObj(fields), key)
    requires BuildObject(db, ReaderAfter(db, r, IObj(fields), key), schema, key).Some?
    ensures var prior := ReaderAfter(db, r, IObj(fields), key);
            var read := BuildObject(db, prior, schema, key).value;
            BuildObject(db', r, schema, key) == Some(MergePatch(JObj(read), j).fields) <==>
              MergesHere(db, prior, schema, read, SourceOf(db, r.xname, key), j, key)
    ensures BuildObject(db', r, schema, key).Some? ==>
              (Agrees(db', r, schema, key) <==> AgreesHere(db, ReaderAfter(db, r, IObj(fields), key), schema, j, key))
  {
    var prior := ReaderAfter(db, r, IObj(fields), key);
    var read := BuildObject(db, prior, schema, key).value;
    ContextPatched(db, db', r, IObj(fields), key);
    PatchedIsConfined(db, db', IObj(fields), key);
    ConfinedFallbacks(db, db', r.xname, key);
    SamePatch(r, prior, schema, j);
    ReadFromSource(db, prior, schema, read, key);
    MergesExactly(db, db', prior, r, schema, read, SourceOf(db, r.xname, key), j, fields, key, path);
  }

  lemma {:induction false} SameData(r: Reader, r': Reader, p: Property, j: Json)
    requires r'.xname == r.xname
    ensures PatchData(r', p, j) == PatchData(r, p, j)
    decreases j, 1
  {
    match p.typ
    case Object(schema) =>
      if j.JObj? {
        SamePatch(r, r', schema, j);
      }
    case _ =>
  }

  lemma {:induction false} SamePatch(r: Reader, r': Reader, schema: Schema, j: Json)
    requires j.JObj? && r'.xname == r.xname
    ensures PatchObject(r', schema, j) == PatchObject(r, schema, j)
    decreases j, 0
  {
    forall name | name in j.fields && name in schema.props
      ensures PatchData(r', schema.props[name], j.fields[name]) == PatchData(r, schema.props[name], j.fields[name])
    {
      SameData(r, r', schema.props[name], j.fields[name]);
    }
  }

  lemma PatchedIsConfined(db: Store, db': Store, v: Inter, key: Key)
    requires Patched(db, db', v, key)
    ensures PatchedUnder(db, db', v, key) && Confined(db, db', key)
  {
    forall k | Under(key, k)
      ensures Lookup(db', k) == PatchAt(db, v, k, |key|)
    {
    }
  }

  // ---------- Patches that leave no trace of their target ----------

  /** `patch` names all that `target` holds, in every object that it descends into. */
  ghost predicate Swallows(patch: Json, target: Json)
    decreases patch
  {
    patch.JObj? && target.JObj? ==>
      forall name :: name in target.fields ==>
        name in patch.fields && (patch.fields[name].JObj? ==> Swallows(patch.fields[name], target.fields[name]))
  }

  /** These are exactly the patches whose merge into the target is a merge into nothing. */
  lemma {:induction false} SwallowsExactly(patch: Json, target: Json)
    ensures MergePatch(target, patch) == MergePatch(JNull, patch) <==> Swallows(patch, target)
    decreases patch
  {
    if patch.JObj? && target.JObj? {
      var one, none := MergePatch(target, patch).fields, MergePatch(JNull, patch).fields;
      forall name | name in target.fields && name in patch.fields
        ensures MergePatch(target.fields[name], patch.fields[name]) == MergePatch(JNull, patch.fields[name]) <==>
                  (patch.fields[name].JObj? ==> Swallows(patch.fields[name], target.fields[name]))
      {
        SwallowsExactly(patch.fields[name], target.fields[name]);
      }
      if one == none {
        forall name | name in target.fields
          ensures name in patch.fields &&
                  (patch.fields[name].JObj? ==> Swallows(patch.fields[name], target.fields[name]))
        {
          assert name in one ==> name in none;
          assert name in none ==> one[name] == none[name];
        }
      }
      if Swallows(patch, target) {
        assert one == none;
      }
    }
  }

  function FieldsOf(j: Json): map<string, Json> {
    if j.JObj? then j.fields else map[]
  }

  /** Wherever `a` and `b` differ, the patch has a value of its own. */
  ghost predicate Hides(patch: Json, a: Json, b: Json)
    decreases patch
  {
    patch.JObj? ==>
      && FieldsOf(a) - patch.fields.Keys == FieldsOf(b) - patch.fields.Keys
      && forall name :: name in patch.fields ==>
           Hides(patch.fields[name], TargetAt(FieldsOf(a), name), TargetAt(FieldsOf(b), name))
  }

  /** These are exactly the patches that make the same of both. */
  lemma {:induction false} HidesExactly(patch: Json, a: Json, b: Json)
    ensures MergePatch(a, patch) == MergePatch(b, patch) <==> Hides(patch, a, b)
    decreases patch
  {
    if patch.JObj? {
      var f, g, names := FieldsOf(a), FieldsOf(b), patch.fields.Keys;
      var one, other := MergePatch(a, patch).fields, MergePatch(b, patch).fields;
      forall name | name in names
        ensures MergePatch(TargetAt(f, name), patch.fields[name]) ==
                  MergePatch(TargetAt(g, name), patch.fields[name]) <==>
                  Hides(patch.fields[name], TargetAt(f, name), TargetAt(g, name))
        ensures patch.fields[name].JNull? ==>
                  name !in one && name !in other && Hides(patch.fields[name], TargetAt(f, name), TargetAt(g, name))
      {
        HidesExactly(patch.fields[name], TargetAt(f, name), TargetAt(g, name));
      }
      SameByParts(one, other, f - names, g - names, names);
    }
  }

  /** Where the patch is a merge up to the text: it is one in every respect if and only if it sets all
      places where the new text changes what was read before. */
  lemma PatchHidesText(db: Store, db': Store, r: Reader, schema: Schema, j: Json, key: Key, path: seq<string>,
                       fields: map<string, Inter>)
    requires key != [] && j.JObj? && PatchObject(r, schema, j) && ConvertObject(schema, j, path, None) == Some(fields)
    requires PatchSafe(db, IObj(fields), key) && Patched(db, db', IObj(fields), key)
    requires BuildObject(db, r, schema, key).Some?
    requires var prior := ReaderAfter(db, r, IObj(fields), key);
             && BuildObject(db, prior, schema, key).Some?
             && MergesHere(db, prior, schema, BuildObject(db, prior, schema, key).value, SourceOf(db, r.xname, key), j,
                           key)
    ensures var read := BuildObject(db, r, schema, key).value;
            var other := BuildObject(db, ReaderAfter(db, r, IObj(fields), key), schema, key).value;
            BuildObject(db', r, schema, key) == Some(MergePatch(JObj(read), j).fields) <==>
              Hides(j, JObj(other), JObj(read))
  {
    PatchIsMerge(db, db', r, schema, j, key, path, fields);
    HidesExactly(j, JObj(BuildObject(db, ReaderAfter(db, r, IObj(fields), key), schema, key).value),
                 JObj(BuildObject(db, r, schema, key).value));
  }

  /** No nulls and no empty objects. */
  ghost predicate Positive(j: Json)
    decreases j
  {
    j.JObj? ==>
      j.fields != map[] && forall name :: name in j.fields ==> !j.fields[name].JNull? && Positive(j.fields[name])
  }

  /** Where nothing is stored under the URI, such a patch merges into what is read at the prefixed key
      if and only if it swallows it. */
  lemma {:induction false} FreshMerges(db: Store, r: Reader, schema: Schema, target: map<string, Json>, source: Source,
                                       j: Json, key: Key)
    requires key != [] && Fresh(db, key) && Comes(db, r, schema, target, source, key)
    requires j.JObj? && PatchObject(r, schema, j) && Positive(j)
    ensures MergesHere(db, r, schema, target, source, j, key) <==> Swallows(j, JObj(target))
    decreases j, 1
  {
    FreshRest(db, r, schema, target, j, key);
    forall name | name in j.fields
      ensures Descends(schema, j, name) ==>
                (MergesHere(db, r, schema.props[name].typ.schema, Inside(target, name),
                            SourceInside(db, r.xname, source, target, key, name), j.fields[name], Child(key, name)) <==>
                 Swallows(j.fields[name], JObj(Inside(target, name))))
      ensures Descends(schema, j, name) && name in target ==> target[name] == JObj(Inside(target, name))
      ensures name in target && !Descends(schema, j, name) ==> Swallows(j.fields[name], target[name])
    {
      FreshMember(db, r, schema, target, source, j, key, name);
    }
    assert forall name :: Descends(schema, j, name) && name !in target ==>
             Swallows(j.fields[name], JObj(Inside(target, name)));
    assert forall name :: Descends(schema, j, name) && name in target ==>
      (Swallows(j.fields[name], target[name]) <==> Swallows(j.fields[name], JObj(Inside(target, name))));
  }

  lemma FreshRest(db: Store, r: Reader, schema: Schema, target: map<string, Json>, j: Json, key: Key)
    requires key != [] && Fresh(db, key) && j.JObj? && Positive(j)
    ensures NamesAfter(db, j, key) != {} && MembersOf(db, key) == {}
    ensures BuildRest(db, r, schema, j.fields.Keys, key) == Some(target - j.fields.Keys) <==>
              forall name :: name in target ==> name in j.fields
  {
    assert Under(key, key) && MembersOf(db, key) == {};
    var some :| some in j.fields;
    assert some in NamesAfter(db, j, key);
    var none: map<string, Json> := map[];
    assert FieldsRest(db, r, schema, j.fields.Keys, key) == none && Assemble(none) == none;
    var rest := target - j.fields.Keys;
    if exists name :: name in target && name !in j.fields {
      var name :| name in target && name !in j.fields;
      assert name in rest;
    } else {
      assert rest == none;
    }
  }

  lemma {:induction false} FreshMember(db: Store, r: Reader, schema: Schema, target: map<string, Json>, source: Source,
                                       j: Json, key: Key, name: string)
    requires key != [] && Fresh(db, key) && Comes(db, r, schema, target, source, key)
    requires j.JObj? && PatchObject(r, schema, j) && Positive(j) && name in j.fields
    ensures Descends(schema, j, name) ==>
              (MergesHere(db, r, schema.props[name].typ.schema, Inside(target, name),
                          SourceInside(db, r.xname, source, target, key, name), j.fields[name], Child(key, name)) <==>
               Swallows(j.fields[name], JObj(Inside(target, name))))
    ensures Descends(schema, j, name) && name in target ==> target[name] == JObj(Inside(target, name))
    ensures name in target && !Descends(schema, j, name) ==> Swallows(j.fields[name], target[name])
    decreases j, 0
  {
    NamesOfPatch(r, schema, j);
    TargetMember(db, r, schema, target, source, key, name);
    if Descends(schema, j, name) {
      Insert.FreshChild(db, key, name);
      InnerComes(db, r, schema, target, source, j, key, name);
      FreshMerges(db, r, schema.props[name].typ.schema, Inside(target, name),
                  SourceInside(db, r.xname, source, target, key, name), j.fields[name], Child(key, name));
    }
  }

  // ---------- An input that is no merge ----------

  const XNAME := "x0"
  const URI: Key := ["", "u"]
  const A := "A"
  const B := "B"

  /** An object that is read at its prefixed key and has one text. */
  lemma OneText(db: Store, r: Reader, schema: Schema, key: Key, name: string, text: string)
    requires key != [] && SMembers(db, key) == Some({}) && SMembers(db, Fallback(r.xname, key)) == Some({name})
    requires Get(db, Child(Fallback(r.xname, key), name)) == Some(text)
    requires name in schema.props && schema.props[name] == TEXT
    ensures BuildObject(db, r, schema, key) == Some(map[name := JStr(text)])
  {
    var shadow := Fallback(r.xname, key);
    assert BuildMember(db, r, schema, shadow, name) == Some(JStr(text));
    assert KeySpace(db, r.xname, key) == shadow && BuildObject(db, r, schema, key).Some?;
    var fields := map[name := JStr(text)];
    assert (map n | n in SMembers(db, shadow).value :: OrNull(BuildMember(db, r, schema, shadow, n))) == fields;
    AssembleOne(name, JStr(text));
  }

  lemma StoredElsewhere(db: Store, r: Reader, schema: Schema, read: map<string, Json>, key: Key, a: string, b: string,
                        y: string)
    requires key != [] && SMembers(db, key) == Some({}) && a in read && a != b
    ensures !MergesHere(db, r, schema, read, SourceOf(db, r.xname, key), JObj(map[b := JStr(y)]), key)
  {
    var j := JObj(map[b := JStr(y)]);
    assert b in NamesAfter(db, j, key);
    var none: map<string, Json> := map[];
    assert FieldsRest(db, r, schema, {b}, key) == none && Assemble(none) == none;
    assert a in read - j.fields.Keys;
  }

  /** A patch that stores another member than the one read at the prefixed key. */
  lemma OtherMember(db: Store, db': Store, r: Reader, schema: Schema, key: Key, a: string, b: string, x: string,
                    y: string)
    requires key != [] && SMembers(db, key) == Some({}) && SMembers(db, Fallback(r.xname, key)) == Some({a})
    requires Fallback(r.xname, key) != key && Get(db, Child(Fallback(r.xname, key), a)) == Some(x)
    requires a in schema.props && b in schema.props && a != b && schema.props[a] == schema.props[b] == TEXT &&
             CountBase(b).None?
    requires Patched(db, db', IObj(map[b := IStr(y)]), key)
    ensures BuildObject(db, r, schema, key) == Some(map[a := JStr(x)])
    ensures BuildObject(db', r, schema, key) !=
              Some(MergePatch(JObj(map[a := JStr(x)]), JObj(map[b := JStr(y)])).fields)
  {
    var j, fields, read := JObj(map[b := JStr(y)]), map[b := IStr(y)], map[a := JStr(x)];
    OneText(db, r, schema, key, a, x);
    OneText(db, ReaderAfter(db, r, IObj(fields), key), schema, key, a, x);
    OneConverts(schema, b, y);
    assert PatchData(r, TEXT, j.fields[b]) && PatchObject(r, schema, j);
    PatchIsMerge(db, db', r, schema, j, key, [], fields);
    StoredElsewhere(db, ReaderAfter(db, r, IObj(fields), key), schema, read, key, a, b, y);
  }

  /** A resource with a member A that is stored under its xname, as backends store theirs, and a
      PATCH of B: what is read afterwards is not A and B. */
  lemma PrefixedResource(r: Reader, schema: Schema, db: Store, db': Store)
    requires r.xname == XNAME && A in schema.props && B in schema.props && schema.props[A] == schema.props[B] == TEXT
    requires db == map[[XNAME, "u"] := Set({A}), [XNAME, "u", A] := Str("a")]
    requires Patched(db, db', IObj(map[B := IStr("b")]), URI)
    ensures BuildObject(db, r, schema, URI) == Some(map[A := JStr("a")])
    ensures BuildObject(db', r, schema, URI) !=
              Some(MergePatch(JObj(map[A := JStr("a")]), JObj(map[B := JStr("b")])).fields)
  {
    assert XNAME + "" == XNAME && Fallback(XNAME, URI) == [XNAME, "u"];
    assert Child([XNAME, "u"], A) == [XNAME, "u", A];
    assert CountBase(B).None?;
    OtherMember(db, db', r, schema, URI, A, B, "a", "b");
  }

  lemma OneConverts(schema: Schema, name: string, text: string)
    requires name in schema.props && schema.props[name] == TEXT
    ensures ConvertObject(schema, JObj(map[name := JStr(text)]), [], None) == Some(map[name := IStr(text)])
  {
    var j := JObj(map[name := JStr(text)]);
    assert ConvertValue(TEXT, j.fields[name], [] + [name], None) == Some(IStr(text));
    assert ConvertField(TEXT, j.fields[name], [] + [name], None) == Conv(IStr(text), false);
    assert ConvertMember(schema, j, name, [], None) == Conv(IStr(text), false) &&
           Kept(ConvertMember(schema, j, name, [], None));
    assert name in j.fields;
    assert ConvertObject(schema, j, [], None).Some?;
    assert ConvertObject(schema, j, [], None).value == map[name := IStr(text)];
  }

  // ---------- The same, one level down ----------

  const O := "O"

  /** The data of a patch that removes one member of an embedded object. */
  function Removal(o: string, b: string): Inter {
    IObj(map[o := IObj(map[b := INil])])
  }

  function RemovalJson(o: string, b: string): Json {
    JObj(map[o := JObj(map[b := JNull])])
  }

  lemma RemovalConverts(r: Reader, schema: Schema, inner: Schema, o: string, b: string)
    requires o in schema.props && schema.props[o] == Property(true, false, Object(inner)) && CountBase(o).None?
    requires b in inner.props && inner.props[b] == TEXT && CountBase(b).None?
    ensures ConvertObject(schema, RemovalJson(o, b), [], None) == Some(Removal(o, b).fields)
    ensures PatchObject(r, schema, RemovalJson(o, b))
  {
    var j, value := RemovalJson(o, b), JObj(map[b := JNull]);
    assert PatchData(r, inner.props[b], value.fields[b]) && !CountsSchemaArray(inner, b);
    assert j.fields[o] == value && PatchObject(r, inner, value);
    assert PatchData(r, schema.props[o], value);
    PatchConverts(r, inner, value, [o]);
    var within := ConvertObject(inner, value, [] + [o], None);
    PatchConverts(r, inner, value, [] + [o]);
    assert within.value == map[b := INil];
    assert ConvertValue(schema.props[o], value, [] + [o], None) == Some(IObj(within.value));
    PatchConverts(r, schema, j, []);
    assert ConvertField(schema.props[o], value, [] + [o], None) == Conv(IObj(map[b := INil]), false);
    assert ConvertObject(schema, j, [], None).value == Removal(o, b).fields;
  }

  /** One text in an embedded object, read where it is stored. */
  lemma OneInside(db: Store, r: Reader, schema: Schema, inner: Schema, key: Key, o: string, b: string, y: string)
    requires key != [] && SMembers(db, key) == Some({o}) && SMembers(db, Child(key, o)) == Some({b})
    requires Get(db, Child(Child(key, o), b)) == Some(y)
    requires o in schema.props && schema.props[o] == Property(true, false, Object(inner))
    requires b in inner.props && inner.props[b] == TEXT
    ensures BuildObject(db, r, inner, Child(key, o)) == Some(map[b := JStr(y)])
    ensures BuildObject(db, r, schema, key) == Some(map[o := JObj(map[b := JStr(y)])])
  {
    var child := Child(key, o);
    assert BuildMember(db, r, inner, child, b) == Some(JStr(y));
    assert FieldsRead(db, r, inner, child) == map[b := JStr(y)];
    RightMembers(db, r, inner, child);
    AssembleOne(b, JStr(y));
    var within := JObj(map[b := JStr(y)]);
    assert BuildMember(db, r, schema, key, o) == Some(within);
    assert FieldsRead(db, r, schema, key) == map[o := within];
    RightMembers(db, r, schema, key);
    AssembleOne(o, within);
  }

  lemma RemovalIsSafe(db: Store, key: Key, o: string, b: string)
    requires SMembers(db, key).Some? && SMembers(db, Child(key, o)).Some?
    ensures PatchSafe(db, Removal(o, b), key)
  {
    var within := IObj(map[b := INil]);
    assert PatchSafe(db, INil, Child(Child(key, o), b)) && PatchSafe(db, within, Child(key, o));
    assert Removal(o, b).fields[o] == within;
  }

  lemma Uncovers(db: Store, r: Reader, schema: Schema, inner: Schema, read: map<string, Json>, key: Key, o: string,
                 b: string)
    requires key != [] && SMembers(db, key) == Some({o}) && SMembers(db, Child(key, o)) == Some({b})
    requires Shadowed(db, r.xname, Child(key, o)) && o in read
    requires o in schema.props && schema.props[o] == Property(true, false, Object(inner))
    ensures !MergesHere(db, r, schema, read, SourceOf(db, r.xname, key), RemovalJson(o, b), key)
  {
    var j, value, child := RemovalJson(o, b), JObj(map[b := JNull]), Child(key, o);
    assert o in Named(j) && o in NamesAfter(db, j, key);
    assert j.fields[o] == value && Descends(schema, j, o) && SourceOf(db, r.xname, key) == Own;
    assert Named(value) == {} && b in Cleared(value) && NamesAfter(db, value, child) == {};
    assert SourceOf(db, r.xname, child) == Own && SourceInside(db, r.xname, Own, read, key, o) == Own;
    assert !MergesHere(db, r, inner, Inside(read, o), Own, value, child);
  }

  /** Removing the only member of an embedded object uncovers what lies at its prefixed key. */
  lemma UncoveredObject(db: Store, db': Store, r: Reader, schema: Schema, inner: Schema, key: Key, o: string, b: string,
                        y: string)
    requires key != [] && SMembers(db, key) == Some({o}) && SMembers(db, Child(key, o)) == Some({b})
    requires Get(db, Child(Child(key, o), b)) == Some(y) && Shadowed(db, r.xname, Child(key, o))
    requires o in schema.props && schema.props[o] == Property(true, false, Object(inner)) && CountBase(o).None?
    requires b in inner.props && inner.props[b] == TEXT && CountBase(b).None?
    requires Patched(db, db', Removal(o, b), key)
    ensures BuildObject(db, r, schema, key) == Some(map[o := JObj(map[b := JStr(y)])])
    ensures BuildObject(db', r, schema, key) !=
              Some(MergePatch(JObj(map[o := JObj(map[b := JStr(y)])]), RemovalJson(o, b)).fields)
  {
    var j, fields, child := RemovalJson(o, b), Removal(o, b).fields, Child(key, o);
    var prior := ReaderAfter(db, r, IObj(fields), key);
    var read := map[o := JObj(map[b := JStr(y)])];
    RemovalConverts(r, schema, inner, o, b);
    OneInside(db, r, schema, inner, key, o, b, y);
    OneInside(db, prior, schema, inner, key, o, b, y);
    RemovalIsSafe(db, key, o, b);
    PatchIsMerge(db, db', r, schema, j, key, [], fields);
    Uncovers(db, prior, schema, inner, read, key, o, b);
  }

  /** A resource with an object {A} that is stored under its xname, where a PATCH has since put {B}, and a
      PATCH that removes B: what is read afterwards is not the empty object. */
  lemma PrefixedInside(r: Reader, schema: Schema, inner: Schema, db: Store, db': Store)
    requires r.xname == XNAME && O in schema.props && schema.props[O] == Property(true, false, Object(inner))
    requires A in inner.props && B in inner.props && inner.props[A] == inner.props[B] == TEXT
    requires db == map[["", "u"] := Set({O}), ["", "u", O] := Set({B}), ["", "u", O, B] := Str("b"),
                       [XNAME, "u"] := Set({O}), [XNAME, "u", O] := Set({A}), [XNAME, "u", O, A] := Str("a")]
    requires Patched(db, db', Removal(O, B), URI)
    ensures BuildObject(db, r, schema, URI) == Some(map[O := JObj(map[B := JStr("b")])])
    ensures BuildObject(db', r, schema, URI) !=
              Some(MergePatch(JObj(map[O := JObj(map[B := JStr("b")])]), RemovalJson(O, B)).fields)
  {
    assert Child(URI, O) == ["", "u", O] && Child(Child(URI, O), B) == ["", "u", O, B];
    assert XNAME + "" == XNAME && Fallback(XNAME, Child(URI, O)) == [XNAME, "u", O];
    assert SMembers(db, [XNAME, "u", O]) == Some({A}) && A in {A};
    assert CountBase(O).None? && CountBase(B).None?;
    UncoveredObject(db, db', r, schema, inner, URI, O, B, "b");
  }
}
