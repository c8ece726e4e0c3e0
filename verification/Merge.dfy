/** Patching is idempotent, and what it makes of a reading is the JSON merge patch of RFC 7396. */
module Merge {
  import opened Basics
  import opened Text
  import opened Redis
  import opened Schema
  import opened Convert
  import opened Patch
  import opened Build
  import opened Order
  import opened RoundTrip
  import opened Isolation

  // ---------- Idempotence ----------

  /** `db'` is patched along every prefix of `k` from depth `i` on. */
  ghost predicate PatchedAlong(db: Store, db': Store, v: Inter, k: Key, i: nat)
    requires i <= |k|
  {
    forall j {:trigger k[..j]} :: i <= j <= |k| ==> Lookup(db', k[..j]) == PatchAt(db, v, k[..j], i)
  }

  lemma {:induction false} PatchAgain(db: Store, db': Store, v: Inter, k: Key, i: nat)
    requires i <= |k| && PatchedAlong(db, db', v, k, i)
    ensures PatchAt(db', v, k, i) == Lookup(db', k)
    decreases v
  {
    assert k[..|k|] == k;
    match v
    case IObj(fields) =>
      if i == |k| {
        OwnAgain(db, db', k, fields);
      } else if k[i] in fields {
        if fields[k[i]].INil? {
          var q := k[..i + 1];
          assert Lookup(db', q) == PatchAt(db, v, q, i) && q[i] == k[i] && q[..i + 1] == q;
        } else {
          forall j {:trigger k[..j]} | i + 1 <= j <= |k|
            ensures Lookup(db', k[..j]) == PatchAt(db, fields[k[i]], k[..j], i + 1)
          {
            assert Lookup(db', k[..j]) == PatchAt(db, v, k[..j], i);
          }
          PatchAgain(db, db', fields[k[i]], k, i + 1);
        }
      }
    case _ =>
  }

  lemma OwnAgain(db: Store, db': Store, k: Key, fields: map<string, Inter>)
    requires Lookup(db', k) == OwnAfter(db, k, fields, fields.Keys)
    ensures OwnAfter(db', k, fields, fields.Keys) == Lookup(db', k)
  {
    if fields.Keys != {} {
      var members := MembersOf(db, k) - Nulls(fields) * fields.Keys + Values(fields) * fields.Keys;
      assert MembersOf(db', k) == members;
      assert members - Nulls(fields) * fields.Keys + Values(fields) * fields.Keys == members;
    }
  }

  /** Patching the same data again changes nothing, in any store. */
  lemma PatchIdempotent(db: Store, once: Store, twice: Store, v: Inter, key: Key)
    requires Patched(db, once, v, key) && Patched(once, twice, v, key)
    ensures twice == once
  {
    forall k
      ensures Lookup(twice, k) == Lookup(once, k)
    {
      if Under(key, k) {
        forall j {:trigger k[..j]} | |key| <= j <= |k|
          ensures Lookup(once, k[..j]) == PatchAt(db, v, k[..j], |key|)
        {
          assert k[..j][..|key|] == k[..|key|];
        }
        PatchAgain(db, once, v, k, |key|);
      }
    }
    SameLookups(once, twice);
  }

  /** A patch that did not panic does not panic when it is repeated. */
  lemma {:induction false} SafeAgain(db: Store, db': Store, v: Inter, key: Key)
    requires PatchSafe(db, v, key) && PatchedUnder(db, db', v, key)
    ensures PatchSafe(db', v, key)
    decreases v
  {
    if v.IObj? && v.fields != map[] {
      assert Under(key, key) && Lookup(db', key) == OwnAfter(db, key, v.fields, v.fields.Keys);
      forall name | name in v.fields
        ensures PatchSafe(db', v.fields[name], Child(key, name))
      {
        if !v.fields[name].INil? {
          PatchedChild(db, db', v.fields, key, name);
          SafeAgain(db, db', v.fields[name], Child(key, name));
        }
      }
    }
  }

  // ---------- JSON merge patch ----------

  /** MergePatch of section 2 of RFC 7396. */
  ghost function MergePatch(target: Json, patch: Json): Json
    decreases patch
  {
    match patch
    case JObj(changes) =>
      var fields := if target.JObj? then target.fields else map[];
      JObj(map name |
             name in fields.Keys + changes.Keys && !(name in changes && changes[name].JNull?) ::
             if name in changes then MergePatch(if name in fields then fields[name] else JNull, changes[name])
             else fields[name])
    case _ => patch
  }

  predicate ArrayLike(p: Property) {
    p.typ.Array? || (p.typ.Link? && p.typ.expand.Some?)
  }

  /** Array-free patch data, typed by the schema: nulls where they are allowed, texts,
      numbers, booleans, plain links and objects of these; no name counts an array. */
  ghost predicate PatchData(r: Reader, p: Property, j: Json)
    decreases j, 1
  {
    !ArrayLike(p) &&
    if j.JNull? then p.nullAllowed
    else
      match p.typ
      case Simple(kind) => PlainSimple(kind, j)
      case Object(schema) => j.JObj? && PatchObject(r, schema, j)
      case Link(isNav, _) => !isNav && PlainLink(r, j)
      case _ => false
  }

  ghost predicate PatchObject(r: Reader, schema: Schema, j: Json)
    requires j.JObj?
    decreases j, 0
  {
    forall name :: name in j.fields ==>
      && name in schema.props
      && PatchData(r, schema.props[name], j.fields[name])
      && !CountsSchemaArray(schema, name)
  }

  predicate CountsSchemaArray(schema: Schema, name: string) {
    CountBase(name).Some? && CountBase(name).value in schema.props && ArrayLike(schema.props[CountBase(name).value])
  }

  /** The part of `Patched` that is about the subtree at `key`. */
  ghost predicate PatchedUnder(db: Store, db': Store, v: Inter, key: Key) {
    forall k :: Under(key, k) ==> Lookup(db', k) == PatchAt(db, v, k, |key|)
  }

  lemma PatchedChild(db: Store, db': Store, fields: map<string, Inter>, key: Key, name: string)
    requires PatchedUnder(db, db', IObj(fields), key) && name in fields && !fields[name].INil?
    ensures PatchedUnder(db, db', fields[name], Child(key, name))
  {
    forall k | Under(Child(key, name), k)
      ensures Lookup(db', k) == PatchAt(db, fields[name], k, |key| + 1)
    {
      UnderChild(key, name, k);
      assert Lookup(db', k) == PatchAt(db, IObj(fields), k, |key|);
    }
  }

  // ---------- Reading an object where it is stored ----------

  ghost function FieldsRest(db: Store, r: Reader, schema: Schema, skip: set<string>, key: Key): map<string, Json>
    requires key != []
  {
    map name | name in MembersOf(db, key) - skip :: OrNull(BuildMember(db, r, schema, key, name))
  }

  /** What the members listed at `key` itself read as, those of `skip` left out. */
  ghost function BuildRest(db: Store, r: Reader, schema: Schema, skip: set<string>, key: Key): Option<map<string, Json>>
    requires key != []
  {
    if SMembers(db, key).None? && Fallback(r.xname, key) == key then None
    else if exists name :: name in MembersOf(db, key) - skip && BuildMember(db, r, schema, key, name).None? then None
    else Some(Assemble(FieldsRest(db, r, schema, skip, key)))
  }

  ghost predicate RestAgrees(db: Store, r: Reader, schema: Schema, skip: set<string>, key: Key)
    requires key != []
  {
    && CountsAgree(FieldsRest(db, r, schema, skip, key))
    && forall name :: name in MembersOf(db, key) - skip ==> AgreesMember(db, r, schema, key, name)
  }

  /** There is a prefixed key, and it holds something else than no member. */
  predicate Shadowed(db: Store, xname: string, key: Key)
    requires key != []
  {
    Fallback(xname, key) != key && SMembers(db, Fallback(xname, key)) != Some({})
  }

  /** With members of its own, or without a shadow, an object is read where it is stored. */
  lemma ReadInPlace(db: Store, r: Reader, schema: Schema, key: Key)
    requires key != [] && (MembersOf(db, key) != {} || !Shadowed(db, r.xname, key))
    ensures BuildObject(db, r, schema, key) == BuildRest(db, r, schema, {}, key)
    ensures BuildObject(db, r, schema, key).Some? ==>
              (Agrees(db, r, schema, key) <==> RestAgrees(db, r, schema, {}, key))
  {
    var keySpace := KeySpace(db, r.xname, key);
    assert MembersOf(db, key) - {} == MembersOf(db, key);
    if MembersOf(db, key) == {} {
      var none: map<string, Json> := map[];
      assert FieldsRest(db, r, schema, {}, key) == none && FieldsRead(db, r, schema, key) == none;
      assert Assemble(none) == map[];
    } else {
      assert keySpace == key;
      assert FieldsRead(db, r, schema, key) == FieldsRest(db, r, schema, {}, key);
    }
  }

  // ---------- Fallback keys ----------

  /** Every key beneath a fallback key is the fallback of a key beneath the original. */
  lemma FallbackUnder(xname: string, key: Key, q: Key) returns (k: Key)
    requires key != [] && Under(Fallback(xname, key), q)
    ensures Under(key, k) && k != [] && (Fallback(xname, key) != key ==> Fallback(xname, k) == q && q != k)
  {
    k := key + q[|key|..];
    assert k[..|key|] == key && k[0] == key[0];
    assert q == q[..|key|] + q[|key|..];
    if Fallback(xname, key) != key {
      assert Fallback(xname, k) == [xname + key[0]] + (key[1..] + q[|key|..]);
    }
  }

  /** The stores agree at the prefixed keys that reads under `key` may fall back to. */
  ghost predicate FallbacksAgree(db: Store, db': Store, xname: string, key: Key) {
    forall k :: Under(key, k) && k != [] && Fallback(xname, k) != k ==>
      Lookup(db', Fallback(xname, k)) == Lookup(db, Fallback(xname, k))
  }

  lemma FallbacksAgreeChild(db: Store, db': Store, xname: string, key: Key, name: string)
    requires FallbacksAgree(db, db', xname, key)
    ensures FallbacksAgree(db, db', xname, Child(key, name))
  {
    forall k | Under(Child(key, name), k) && k != [] && Fallback(xname, k) != k
      ensures Lookup(db', Fallback(xname, k)) == Lookup(db, Fallback(xname, k))
    {
      UnderChild(key, name, k);
    }
  }

  /** What happens under a key does not happen under its prefixed keys. */
  lemma ConfinedFallbacks(db: Store, db': Store, xname: string, key: Key)
    requires key != [] && Confined(db, db', key)
    ensures FallbacksAgree(db, db', xname, key)
  {
    forall k | Under(key, k) && k != [] && Fallback(xname, k) != k
      ensures Lookup(db', Fallback(xname, k)) == Lookup(db, Fallback(xname, k))
    {
      var q := Fallback(xname, k);
      assert key[0] == k[..|key|][0] == k[0] && |q[0]| > |k[0]|;
      assert Under(key, q) ==> q[..|key|][0] == key[0];
    }
  }

  lemma FallbackRegion(db: Store, db': Store, xname: string, key: Key)
    requires key != [] && FallbacksAgree(db, db', xname, key) && Agree(db, db', key)
    ensures Agree(db, db', Fallback(xname, key))
  {
    forall q | Under(Fallback(xname, key), q)
      ensures Lookup(db, q) == Lookup(db', q)
    {
      var k := FallbackUnder(xname, key, q);
      if Fallback(xname, key) == key {
        assert Under(key, q);
      }
    }
  }

  /** The readers see the same @odata.context text, each on its own store. */
  ghost predicate Readers(db: Store, db': Store, r: Reader, r': Reader) {
    SameReader(r, r') && ContextText(db, r) == ContextText(db', r')
  }

  /** A member that the patch does not name reads as before. */
  lemma UnnamedMember(db: Store, db': Store, r: Reader, r': Reader, schema: Schema, fields: map<string, Inter>,
                      key: Key, name: string)
    requires key != [] && name !in fields && PatchedUnder(db, db', IObj(fields), key)
    requires FallbacksAgree(db, db', r.xname, key) && Readers(db, db', r, r')
    ensures BuildMember(db, r, schema, key, name) == BuildMember(db', r', schema, key, name)
    ensures AgreesMember(db, r, schema, key, name) == AgreesMember(db', r', schema, key, name)
  {
    var child := Child(key, name);
    forall k | Under(child, k)
      ensures Lookup(db, k) == Lookup(db', k)
    {
      UnderChild(key, name, k);
      assert Lookup(db', k) == PatchAt(db, IObj(fields), k, |key|);
    }
    FallbacksAgreeChild(db, db', r.xname, key, name);
    FallbackRegion(db, db', r.xname, child);
    if name in schema.props {
      FieldIsolated(db, db', r, r', schema.props[name], child);
    }
  }

  // ---------- Members that the patch names ----------

  lemma PatchSimple(db: Store, db': Store, r: Reader, kind: SimpleKind, j: Json, text: string, key: Key)
    requires PlainSimple(kind, j) && SimpleText(kind, j) == Some(text) && PatchedUnder(db, db', IStr(text), key)
    ensures BuildSimple(db', r, kind, key) == Some(j)
  {
    assert Under(key, key) && Lookup(db', key) == Some(Str(text));
    match (kind, j)
    case (Integer, JNum(n)) => ParseFormatInt(Int64OfFloat(n));
    case _ =>
  }

  lemma PatchedText(db: Store, db': Store, name: string, text: string, key: Key)
    requires PatchedUnder(db, db', IObj(map[name := IStr(text)]), key)
    ensures Get(db', Child(key, name)) == Some(text)
  {
    PatchedChild(db, db', map[name := IStr(text)], key, name);
    assert Under(Child(key, name), Child(key, name));
  }

  lemma PatchLink(db: Store, db': Store, r: Reader, j: Json, key: Key)
    requires PlainLink(r, j) && PatchedUnder(db, db', LinkData(LinkText(j).value), key)
    ensures StoredLink(db', r, key) == j
  {
    PatchedText(db, db', ODATA_ID, LinkText(j).value, key);
  }

  lemma MergeLink(target: Json, j: Json, text: string)
    requires j == LinkJson(text)
    requires target.JObj? ==> target.fields.Keys <= {ODATA_ID}
    ensures MergePatch(target, j) == j
  {
    assert MergePatch(target, j).fields == j.fields;
  }

  /** The patch data of an object: one value per payload name, nil exactly for the nulls. */
  lemma PatchConverts(r: Reader, schema: Schema, j: Json, path: seq<string>)
    requires j.JObj? && PatchObject(r, schema, j)
    ensures ConvertObject(schema, j, path, None).Some?
    ensures var fields := ConvertObject(schema, j, path, None).value;
            && fields.Keys == j.fields.Keys
            && forall name :: name in fields ==>
                 && ConvertField(schema.props[name], j.fields[name], path + [name], None) ==
                   Conv(fields[name], j.fields[name].JNull?)
                 && (fields[name].INil? <==> j.fields[name].JNull?)
    decreases j, 1
  {
    forall name | name in j.fields
      ensures var c := ConvertMember(schema, j, name, path, None);
              && c == ConvertField(schema.props[name], j.fields[name], path + [name], None)
              && c.Conv? && c.isNull == j.fields[name].JNull? && (c.value.INil? <==> j.fields[name].JNull?)
    {
      FieldConverts(r, schema.props[name], j.fields[name], path + [name]);
    }
  }

  lemma FieldConverts(r: Reader, p: Property, j: Json, path: seq<string>)
    requires PatchData(r, p, j)
    ensures var c := ConvertField(p, j, path, None);
            c.Conv? && c.isNull == j.JNull? && (c.value.INil? <==> j.JNull?)
    decreases j, 2
  {
    var v := ConvertValue(p, j, path, None);
    if !j.JNull? && p.typ.Object? {
      PatchConverts(r, p.typ.schema, j, path);
    }
  }

  lemma ArrayFields(db: Store, r: Reader, p: Property, key: Key)
    requires key != [] && BuildField(db, r, p, key).Some?
    ensures BuildField(db, r, p, key).value.JArr? ==> ArrayLike(p)
  {
  }
}
