/** The generated @odata.context text is the only thing that a PATCH changes beside its own members. */
module ContextLeaf {
  import opened Basics
  import opened Redis
  import opened Schema
  import opened Convert
  import opened Patch
  import opened Build
  import opened Order
  import opened Isolation
  import opened Merge
  import opened Shadows
  import opened PatchMerge

  // ---------- Schemas ----------

  /** Wherever the schema has an @odata.context property it is a text; no property is nameless. */
  predicate TextContext(schema: Schema)
    decreases schema, 1
  {
    forall name :: name in schema.props ==>
      name != "" && (name == ODATA_CONTEXT ==> IsText(schema.props[name])) && TextInside(schema.props[name])
  }

  predicate IsText(p: Property) {
    p.typ == Simple(String) || p.typ == Simple(Enum)
  }

  predicate TextInside(p: Property)
    decreases p, 0
  {
    match p.typ
    case Object(schema) => TextContext(schema)
    case Array(element) => TextInside(element)
    case Link(_, Some(expansion)) => TextContext(expansion.members)
    case _ => true
  }

  /** No property inside is called @odata.context. */
  predicate FreeInside(p: Property)
    decreases p, 0
  {
    match p.typ
    case Object(schema) => Free(schema)
    case Array(element) => FreeInside(element)
    case Link(_, Some(expansion)) => Free(expansion.members)
    case _ => true
  }

  predicate Free(schema: Schema)
    decreases schema, 1
  {
    forall name :: name in schema.props ==> name != ODATA_CONTEXT && FreeInside(schema.props[name])
  }

  // ---------- Payloads ----------

  /** The payloads differ at most in members called @odata.context. */
  ghost predicate SameButContext(a: Json, b: Json)
    decreases a
  {
    match (a, b)
    case (JObj(f), JObj(g)) => f.Keys == g.Keys && forall k :: k in f ==>
      k == ODATA_CONTEXT || SameButContext(f[k], g[k])
    case (JArr(x), JArr(y)) => |x| == |y| && forall i :: 0 <= i < |x| ==> SameButContext(x[i], y[i])
    case _ => a == b
  }

  lemma {:induction false} SameIsSame(a: Json)
    ensures SameButContext(a, a)
    decreases a
  {
    match a
    case JObj(f) =>
      forall k | k in f
        ensures SameButContext(f[k], f[k])
      {
        SameIsSame(f[k]);
      }
    case JArr(x) =>
      forall i | 0 <= i < |x|
        ensures SameButContext(x[i], x[i])
      {
        SameIsSame(x[i]);
      }
    case _ =>
  }

  lemma {:induction false} MergeButContext(a: Json, b: Json, j: Json)
    requires SameButContext(a, b)
    ensures SameButContext(MergePatch(a, j), MergePatch(b, j))
    decreases j
  {
    if j.JObj? {
      var f, g := if a.JObj? then a.fields else map[], if b.JObj? then b.fields else map[];
      var m, n := MergePatch(a, j).fields, MergePatch(b, j).fields;
      assert f.Keys == g.Keys && m.Keys == n.Keys;
      forall k | k in m && k != ODATA_CONTEXT
        ensures SameButContext(m[k], n[k])
      {
        if k in j.fields {
          SameIsSame(JNull);
          MergeButContext(if k in f then f[k] else JNull, if k in g then g[k] else JNull, j.fields[k]);
        }
      }
    } else {
      SameIsSame(j);
    }
  }

  lemma AssembleButContext(f: map<string, Json>, g: map<string, Json>)
    requires f.Keys == g.Keys && forall k :: k in f ==>
               (k == ODATA_CONTEXT && f[k].JStr? && g[k].JStr?) || SameButContext(f[k], g[k])
    ensures SameButContext(JObj(Assemble(f)), JObj(Assemble(g)))
  {
    forall k | k in f
      ensures f[k].JArr? == g[k].JArr? && (f[k].JArr? ==> CountOf(f[k]) == CountOf(g[k]))
    {
    }
    forall k
      ensures CountsArray(f, k) == CountsArray(g, k)
      ensures k in Assemble(f) <==> k in Assemble(g)
      ensures k in Assemble(f) ==> k == ODATA_CONTEXT || SameButContext(Assemble(f)[k], Assemble(g)[k])
    {
      InCountKeys(f, k);
      InCountKeys(g, k);
    }
  }

  // ---------- Readings ----------

  /** Two readers of one store that have a text each. */
  ghost predicate TwoTexts(db: Store, r: Reader, r': Reader) {
    SameReader(r, r') && ContextText(db, r).Some? && ContextText(db, r').Some?
  }

  lemma SimpleButContext(db: Store, r: Reader, r': Reader, kind: SimpleKind, key: Key, name: string)
    requires TwoTexts(db, r, r') && name != ""
    ensures name != ODATA_CONTEXT ==>
              BuildSimple(db, r, kind, Child(key, name)) == BuildSimple(db, r', kind, Child(key, name))
    ensures name == ODATA_CONTEXT && (kind.String? || kind.Enum?) ==>
              && BuildSimple(db, r, kind, Child(key, name)).Some? &&
                 BuildSimple(db, r, kind, Child(key, name)).value.JStr?
              && BuildSimple(db, r', kind, Child(key, name)).Some? &&
                 BuildSimple(db, r', kind, Child(key, name)).value.JStr?
  {
    assert BaseName(Child(key, name)) == name;
  }

  /** The same or differing at @odata.context only; the same where the context cannot show. */
  ghost predicate Alike(a: Option<Json>, b: Option<Json>, same: bool) {
    a.Some? == b.Some? && (a.Some? ==> SameButContext(a.value, b.value)) && (same ==> a == b)
  }

  lemma {:induction false} ObjectButContext(db: Store, r: Reader, r': Reader, schema: Schema, base: Key)
    requires base != [] && TwoTexts(db, r, r') && TextContext(schema)
    ensures BuildObject(db, r, schema, base).Some? == BuildObject(db, r', schema, base).Some?
    ensures BuildObject(db, r, schema, base).Some? ==>
              SameButContext(JObj(BuildObject(db, r, schema, base).value),
                             JObj(BuildObject(db, r', schema, base).value))
    ensures Free(schema) ==> BuildObject(db, r, schema, base) == BuildObject(db, r', schema, base)
    decreases schema, 1
  {
    var keySpace := KeySpace(db, r.xname, base);
    if SMembers(db, keySpace).Some? {
      var names := SMembers(db, keySpace).value;
      forall name | name in names
        ensures var a, b := BuildMember(db, r, schema, keySpace, name), BuildMember(db, r', schema, keySpace, name);
                && a.Some? == b.Some?
                && (a.Some? ==>
                      (name == ODATA_CONTEXT && a.value.JStr? && b.value.JStr?) || SameButContext(a.value, b.value))
                && (Free(schema) ==> a == b)
      {
        MemberButContext(db, r, r', schema, keySpace, name);
      }
      if BuildObject(db, r, schema, base).Some? {
        AssembleButContext(FieldsRead(db, r, schema, base), FieldsRead(db, r', schema, base));
        assert Free(schema) ==> FieldsRead(db, r, schema, base) == FieldsRead(db, r', schema, base);
      }
    }
  }

  lemma {:induction false} MemberButContext(db: Store, r: Reader, r': Reader, schema: Schema, keySpace: Key,
                                            name: string)
    requires keySpace != [] && TwoTexts(db, r, r') && TextContext(schema)
    ensures var a, b := BuildMember(db, r, schema, keySpace, name), BuildMember(db, r', schema, keySpace, name);
            && a.Some? == b.Some?
            && (a.Some? ==>
                  (name == ODATA_CONTEXT && a.value.JStr? && b.value.JStr?) || SameButContext(a.value, b.value))
            && (name != ODATA_CONTEXT && (name in schema.props ==> FreeInside(schema.props[name])) ==> a == b)
    decreases schema, 0
  {
    if name in schema.props {
      if schema.props[name].typ.Simple? {
        SimpleButContext(db, r, r', schema.props[name].typ.kind, keySpace, name);
        SameOption(BuildMember(db, r, schema, keySpace, name));
      } else {
        FieldButContext(db, r, r', schema.props[name], Child(keySpace, name));
      }
    }
  }

  lemma SameOption(a: Option<Json>)
    ensures Alike(a, a, true)
  {
    if a.Some? {
      SameIsSame(a.value);
    }
  }

  lemma {:induction false} FieldButContext(db: Store, r: Reader, r': Reader, p: Property, key: Key)
    requires key != [] && TwoTexts(db, r, r') && TextInside(p) && !p.typ.Simple?
    ensures Alike(BuildField(db, r, p, key), BuildField(db, r', p, key), FreeInside(p))
    decreases p, 2
  {
    SameOption(BuildField(db, r, p, key));
    match p.typ
    case Object(schema) => ObjectButContext(db, r, r', schema, key);
    case Array(element) => ArrayButContext(db, r, r', element, key);
    case Link(_, Some(expansion)) => ExpandedButContext(db, r, r', expansion.members, key);
    case Action => ActionsAgree(db, db, r, r', key);
    case _ =>
  }

  lemma {:induction false} ElementButContext(db: Store, r: Reader, r': Reader, element: Property, key: Key,
                                             item: string)
    requires key != [] && TwoTexts(db, r, r') && TextInside(element)
    ensures Alike(BuildElement(db, r, element, key, item), BuildElement(db, r', element, key, item),
                  FreeInside(element))
    decreases element, 0
  {
    match element.typ
    case Object(schema) => ObjectButContext(db, r, r', schema, Child(key, item));
    case _ => SameOption(BuildElement(db, r, element, key, item));
  }

  lemma {:induction false} ArrayButContext(db: Store, r: Reader, r': Reader, element: Property, key: Key)
    requires key != [] && TwoTexts(db, r, r') && TextInside(element)
    ensures Alike(BuildArray(db, r, element, key), BuildArray(db, r', element, key), FreeInside(element))
    decreases element, 1
  {
    if LRange(db, key).Some? {
      var items := LRange(db, key).value;
      forall i {:trigger items[i]} | 0 <= i < |items|
        ensures Alike(BuildElement(db, r, element, key, items[i]), BuildElement(db, r', element, key, items[i]),
                      FreeInside(element))
      {
        ElementButContext(db, r, r', element, key, items[i]);
      }
      if BuildArray(db, r, element, key).Some? && FreeInside(element) {
        assert BuildArray(db, r, element, key).value.items == BuildArray(db, r', element, key).value.items;
      }
    }
  }

  lemma {:induction false} ExpandedButContext(db: Store, r: Reader, r': Reader, members: Schema, key: Key)
    requires key != [] && TwoTexts(db, r, r') && TextContext(members)
    ensures Alike(BuildExpanded(db, r, members, key), BuildExpanded(db, r', members, key), Free(members))
    decreases members, 2
  {
    if LRange(db, key).Some? {
      var items := LRange(db, key).value;
      var a, b := BuildExpanded(db, r, members, key).value.items, BuildExpanded(db, r', members, key).value.items;
      forall i | 0 <= i < |items|
        ensures SameButContext(a[i], b[i]) && (Free(members) ==> a[i] == b[i])
      {
        ObjectButContext(db, r, r', members, Child(key, items[i]));
        SameIsSame(JNull);
      }
      assert Free(members) ==> a == b;
    }
  }

  // ---------- The theorem, against what was read before ----------

  /** Where a patch is a merge at all, what is read after it is the merge into what was read before,
      up to the generated @odata.context text. */
  lemma PatchIsMergeButContext(db: Store, db': Store, r: Reader, schema: Schema, j: Json, key: Key, path: seq<string>,
                               fields: map<string, Inter>)
    requires key != [] && j.JObj? && PatchObject(r, schema, j) && ConvertObject(schema, j, path, None) == Some(fields)
    requires PatchSafe(db, IObj(fields), key)
    requires TextContext(schema) && TwoTexts(db, ReaderAfter(db, r, IObj(fields), key), r)
    requires BuildObject(db, r, schema, key).Some? && Patched(db, db', IObj(fields), key)
    ensures BuildObject(db, ReaderAfter(db, r, IObj(fields), key), schema, key).Some?
    ensures var prior := ReaderAfter(db, r, IObj(fields), key);
            MergesHere(db, prior, schema, BuildObject(db, prior, schema, key).value, SourceOf(db, r.xname, key), j,
                       key) ==>
              && BuildObject(db', r, schema, key).Some?
              && SameButContext(JObj(BuildObject(db', r, schema, key).value),
                                MergePatch(JObj(BuildObject(db, r, schema, key).value), j))
  {
    ObjectButContext(db, ReaderAfter(db, r, IObj(fields), key), r, schema, key);
    PatchIsMerge(db, db', r, schema, j, key, path, fields);
    MergeButContext(JObj(BuildObject(db, ReaderAfter(db, r, IObj(fields), key), schema, key).value),
                    JObj(BuildObject(db, r, schema, key).value), j);
  }

  /** The object has an @odata.context of its own that no key holds. */
  predicate Generates(db: Store, r: Reader, schema: Schema, key: Key)
    requires key != []
  {
    var keySpace := KeySpace(db, r.xname, key);
    ODATA_CONTEXT in MembersOf(db, keySpace) && Get(db, Child(keySpace, ODATA_CONTEXT)).None?
  }

  /** Two readings of a resource whose context shows at its top only. */
  lemma TopTexts(db: Store, r: Reader, r': Reader, schema: Schema, key: Key)
    requires key != [] && TwoTexts(db, r, r') && TextContext(schema)
    requires forall name :: name in schema.props ==> FreeInside(schema.props[name])
    requires BuildObject(db, r, schema, key).Some?
    ensures var a, b := BuildObject(db, r, schema, key), BuildObject(db, r', schema, key);
            && b.Some? && a.value.Keys == b.value.Keys
            && (forall k :: k in a.value && k != ODATA_CONTEXT ==> a.value[k] == b.value[k])
            && (ODATA_CONTEXT in a.value ==>
                  (a.value[ODATA_CONTEXT] == b.value[ODATA_CONTEXT] <==>
                     !Generates(db, r, schema, key) || ContextText(db, r) == ContextText(db, r')))
            && (Generates(db, r, schema, key) ==> ODATA_CONTEXT in a.value)
  {
    var keySpace := KeySpace(db, r.xname, key);
    var f, g := FieldsRead(db, r, schema, key), FieldsRead(db, r', schema, key);
    ObjectButContext(db, r, r', schema, key);
    forall name | name in MembersOf(db, keySpace) && name != ODATA_CONTEXT
      ensures f[name] == g[name]
    {
      assert BuildMember(db, r, schema, keySpace, name).Some?;
      MemberButContext(db, r, r', schema, keySpace, name);
    }
    if ODATA_CONTEXT in MembersOf(db, keySpace) {
      TopText(db, r, r', schema, keySpace);
    }
    AssembleTop(f, g);
  }

  lemma AssembleTop(f: map<string, Json>, g: map<string, Json>)
    requires f.Keys == g.Keys && forall k :: k in f && k != ODATA_CONTEXT ==> f[k] == g[k]
    requires ODATA_CONTEXT in f ==> f[ODATA_CONTEXT].JStr? && g[ODATA_CONTEXT].JStr?
    ensures Assemble(f).Keys == Assemble(g).Keys && forall k :: k in Assemble(f) && k != ODATA_CONTEXT ==>
              Assemble(f)[k] == Assemble(g)[k]
    ensures ODATA_CONTEXT in Assemble(f) <==> ODATA_CONTEXT in f
    ensures ODATA_CONTEXT in f ==>
              Assemble(f)[ODATA_CONTEXT] == f[ODATA_CONTEXT] && Assemble(g)[ODATA_CONTEXT] == g[ODATA_CONTEXT]
  {
    assert CountBase(ODATA_CONTEXT).None?;
    forall k
      ensures k in Assemble(f) <==> k in Assemble(g)
      ensures k in Assemble(f) && k != ODATA_CONTEXT ==> Assemble(f)[k] == Assemble(g)[k]
      ensures k == ODATA_CONTEXT ==> !CountsArray(f, k) && !CountsArray(g, k) && (k in Assemble(f) <==> k in f)
    {
      InCountKeys(f, k);
      InCountKeys(g, k);
    }
  }

  lemma TopText(db: Store, r: Reader, r': Reader, schema: Schema, keySpace: Key)
    requires keySpace != [] && TwoTexts(db, r, r') && TextContext(schema) &&
             BuildMember(db, r, schema, keySpace, ODATA_CONTEXT).Some?
    ensures var a, b := BuildMember(db, r, schema, keySpace, ODATA_CONTEXT),
                        BuildMember(db, r', schema, keySpace, ODATA_CONTEXT);
            && b.Some? && a.value.JStr? && b.value.JStr?
            && (a == b <==> Get(db, Child(keySpace, ODATA_CONTEXT)).Some? || ContextText(db, r) == ContextText(db, r'))
  {
    assert BaseName(Child(keySpace, ODATA_CONTEXT)) == ODATA_CONTEXT && ODATA_CONTEXT != ODATA_ID;
    assert IsText(schema.props[ODATA_CONTEXT]);
  }

  lemma MergeLeaf(target: Json, patch: Json)
    ensures !patch.JObj? ==> MergePatch(target, patch) == patch
  {
  }

  lemma {:induction false} MergeAtContext(f: map<string, Json>, g: map<string, Json>, j: Json)
    requires j.JObj? && f.Keys == g.Keys && forall k :: k in f && k != ODATA_CONTEXT ==> f[k] == g[k]
    requires ODATA_CONTEXT in j.fields ==> !j.fields[ODATA_CONTEXT].JObj?
    ensures MergePatch(JObj(f), j) == MergePatch(JObj(g), j) <==>
              (ODATA_CONTEXT in f && ODATA_CONTEXT !in j.fields ==> f[ODATA_CONTEXT] == g[ODATA_CONTEXT])
  {
    var m, n := MergePatch(JObj(f), j).fields, MergePatch(JObj(g), j).fields;
    assert m.Keys == n.Keys;
    if ODATA_CONTEXT in f && ODATA_CONTEXT !in j.fields {
      assert m[ODATA_CONTEXT] == f[ODATA_CONTEXT] && n[ODATA_CONTEXT] == g[ODATA_CONTEXT];
    }
    if ODATA_CONTEXT in f && ODATA_CONTEXT !in j.fields ==> f[ODATA_CONTEXT] == g[ODATA_CONTEXT] {
      forall k | k in m
        ensures m[k] == n[k]
      {
        if k in j.fields && !j.fields[k].JObj? {
          MergeLeaf(if k in f then f[k] else JNull, j.fields[k]);
          MergeLeaf(if k in g then g[k] else JNull, j.fields[k]);
        }
      }
      assert m == n;
    }
  }

  /** For a resource whose context shows at its top only, and where the patch is a merge at all: what
      is read after it equals the merge into what was read before, text included, if and only if
      the text stays, or is not generated, or the patch sets it. */
  lemma PatchIsMergeExactly(db: Store, db': Store, r: Reader, schema: Schema, j: Json, key: Key, path: seq<string>,
                            fields: map<string, Inter>)
    requires key != [] && j.JObj? && PatchObject(r, schema, j) && ConvertObject(schema, j, path, None) == Some(fields)
    requires PatchSafe(db, IObj(fields), key)
    requires TextContext(schema) && TwoTexts(db, ReaderAfter(db, r, IObj(fields), key), r)
    requires forall name :: name in schema.props ==> FreeInside(schema.props[name])
    requires BuildObject(db, r, schema, key).Some? && Patched(db, db', IObj(fields), key)
    requires var prior := ReaderAfter(db, r, IObj(fields), key);
             && BuildObject(db, prior, schema, key).Some?
             && MergesHere(db, prior, schema, BuildObject(db, prior, schema, key).value, SourceOf(db, r.xname, key), j,
                           key)
    ensures BuildObject(db', r, schema, key) ==
              Some(MergePatch(JObj(BuildObject(db, r, schema, key).value), j).fields) <==>
              || ContextAfter(db, r, IObj(fields), key) == ContextText(db, r)
              || !Generates(db, r, schema, key)
              || ODATA_CONTEXT in j.fields
  {
    var prior := ReaderAfter(db, r, IObj(fields), key);
    ObjectButContext(db, prior, r, schema, key);
    PatchHidesText(db, db', r, schema, j, key, path, fields);
    HidesTop(db, prior, r, schema, j, key);
    SameSpace(db, prior, r, schema, key);
  }

  lemma SameSpace(db: Store, r: Reader, r': Reader, schema: Schema, key: Key)
    requires key != [] && SameReader(r, r')
    ensures Generates(db, r, schema, key) == Generates(db, r', schema, key)
  {
  }

  /** A patch hides what two texts at the top change if and only if they change nothing or it sets the text. */
  lemma HidesTop(db: Store, r: Reader, r': Reader, schema: Schema, j: Json, key: Key)
    requires key != [] && j.JObj? && PatchObject(r', schema, j) && TwoTexts(db, r, r') && TextContext(schema)
    requires forall name :: name in schema.props ==> FreeInside(schema.props[name])
    requires BuildObject(db, r, schema, key).Some? && BuildObject(db, r', schema, key).Some?
    ensures Hides(j, JObj(BuildObject(db, r, schema, key).value), JObj(BuildObject(db, r', schema, key).value)) <==>
              || ContextText(db, r) == ContextText(db, r')
              || !Generates(db, r, schema, key)
              || ODATA_CONTEXT in j.fields
  {
    var read, plain := BuildObject(db, r, schema, key).value, BuildObject(db, r', schema, key).value;
    TopTexts(db, r, r', schema, key);
    assert ODATA_CONTEXT in j.fields ==> !j.fields[ODATA_CONTEXT].JObj?;
    HidesExactly(j, JObj(read), JObj(plain));
    MergeAtContext(read, plain, j);
  }

  // ---------- An input where the text makes the difference ----------

  /** A resource {A, @odata.context} with a generated text, and a PATCH that adds B: where the text lists B
      differently, what is read afterwards is not the merge into what was read before. */
  lemma TextChanges(db: Store, db': Store, r: Reader, schema: Schema)
    requires r.context.Generated? && r.uri == URI && schema.props == map[A := TEXT, B := TEXT, ODATA_CONTEXT := TEXT]
    requires db == map[URI := Set({A, ODATA_CONTEXT}), ["", "u", A] := Str("a")]
    requires ContextOf(r, {A, ODATA_CONTEXT}) != ContextOf(r, {A, B, ODATA_CONTEXT})
    requires Patched(db, db', IObj(map[B := IStr("b")]), URI)
    ensures BuildObject(db, r, schema, URI).Some?
    ensures BuildObject(db', r, schema, URI) !=
              Some(MergePatch(JObj(BuildObject(db, r, schema, URI).value), JObj(map[B := JStr("b")])).fields)
  {
    var j, fields := JObj(map[B := JStr("b")]), map[B := IStr("b")];
    OneConverts(schema, B, "b");
    SmallSchema(r, schema, j);
    TextAfter(db, r);
    ReadsTwo(db, r, schema);
    ReadsTwo(db, ReaderAfter(db, r, IObj(fields), URI), schema);
    NotHeld(db, r, schema);
    AddsB(db, db', r, schema, j, fields);
  }

  lemma NotHeld(db: Store, r: Reader, schema: Schema)
    requires db == map[URI := Set({A, ODATA_CONTEXT}), ["", "u", A] := Str("a")]
    ensures Generates(db, r, schema, URI) && MembersOf(db, URI) != {}
  {
    assert ODATA_CONTEXT in MembersOf(db, URI) && KeySpace(db, r.xname, URI) == URI;
    assert Child(URI, ODATA_CONTEXT) == ["", "u", ODATA_CONTEXT] && Child(URI, ODATA_CONTEXT) !in db;
  }

  lemma AddsB(db: Store, db': Store, r: Reader, schema: Schema, j: Json, fields: map<string, Inter>)
    requires j == JObj(map[B := JStr("b")]) && fields == map[B := IStr("b")]
    requires PatchObject(r, schema, j) && ConvertObject(schema, j, [], None) == Some(fields) && MembersOf(db, URI) != {}
    requires TextContext(schema) && forall name :: name in schema.props ==> FreeInside(schema.props[name])
    requires TwoTexts(db, ReaderAfter(db, r, IObj(fields), URI), r) && Generates(db, r, schema, URI)
    requires ContextAfter(db, r, IObj(fields), URI) != ContextText(db, r)
    requires BuildObject(db, r, schema, URI).Some? &&
             BuildObject(db, ReaderAfter(db, r, IObj(fields), URI), schema, URI).Some?
    requires Patched(db, db', IObj(fields), URI)
    ensures BuildObject(db', r, schema, URI) != Some(MergePatch(JObj(BuildObject(db, r, schema, URI).value), j).fields)
  {
    var prior := ReaderAfter(db, r, IObj(fields), URI);
    AddsSafely(db, prior, schema, BuildObject(db, prior, schema, URI).value, j);
    PatchIsMergeExactly(db, db', r, schema, j, URI, [], fields);
  }

  lemma AddsSafely(db: Store, r: Reader, schema: Schema, read: map<string, Json>, j: Json)
    requires MembersOf(db, URI) != {} && j == JObj(map[B := JStr("b")])
    ensures PatchSafe(db, IObj(map[B := IStr("b")]), URI)
    ensures MergesHere(db, r, schema, read, SourceOf(db, r.xname, URI), j, URI)
  {
    var fields := map[B := IStr("b")];
    assert PatchSafe(db, IStr("b"), Child(URI, B)) && fields[B] == IStr("b") && SMembers(db, URI).Some?;
    assert SourceOf(db, r.xname, URI) == Own && B in NamesAfter(db, j, URI);
    assert forall name :: !Descends(schema, j, name);
  }

  lemma SmallSchema(r: Reader, schema: Schema, j: Json)
    requires schema.props == map[A := TEXT, B := TEXT, ODATA_CONTEXT := TEXT] && j == JObj(map[B := JStr("b")])
    ensures PatchObject(r, schema, j) && TextContext(schema)
    ensures forall name :: name in schema.props ==> FreeInside(schema.props[name])
  {
    assert CountBase(B).None?;
    assert PatchData(r, TEXT, j.fields[B]);
  }

  lemma TextAfter(db: Store, r: Reader)
    requires r.context.Generated? && r.uri == URI
    requires db == map[URI := Set({A, ODATA_CONTEXT}), ["", "u", A] := Str("a")]
    ensures ContextText(db, r) == Some(ContextOf(r, {A, ODATA_CONTEXT}))
    ensures ContextAfter(db, r, IObj(map[B := IStr("b")]), URI) == Some(ContextOf(r, {A, B, ODATA_CONTEXT}))
  {
    var fields := map[B := IStr("b")];
    assert TrimEmpty(URI) == URI && Under(URI, URI);
    assert Nulls(fields) == {} && Values(fields) == {B};
    assert MembersOf(db, URI) - Nulls(fields) * fields.Keys + Values(fields) * fields.Keys == {A, B, ODATA_CONTEXT};
    assert PatchAt(db, IObj(fields), URI, |URI|) == OwnAfter(db, URI, fields, fields.Keys);
  }

  lemma ReadsTwo(db: Store, r: Reader, schema: Schema)
    requires schema.props == map[A := TEXT, B := TEXT, ODATA_CONTEXT := TEXT] && ContextText(db, r).Some?
    requires db == map[URI := Set({A, ODATA_CONTEXT}), ["", "u", A] := Str("a")]
    ensures BuildObject(db, r, schema, URI).Some?
  {
    assert Child(URI, A) == ["", "u", A] && BaseName(Child(URI, ODATA_CONTEXT)) == ODATA_CONTEXT;
    assert BuildMember(db, r, schema, URI, A).Some? && BuildMember(db, r, schema, URI, ODATA_CONTEXT).Some?;
  }
}
