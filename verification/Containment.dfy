/** A PATCH changes only what its callback accepted. */
module Containment {
  import opened Basics
  import opened Text
  import opened Redis
  import opened Schema
  import opened Convert
  import opened Patch

  type Accept = (Property, seq<string>) -> bool

  // ---------- The callback of the PATCH handler ----------

  predicate IsLetter(c: char) {
    'a' <= c <= 'z' || 'A' <= c <= 'Z' || c == '_'
  }

  predicate IsWord(s: string) {
    s != [] && IsLetter(s[0]) && forall i :: 0 <= i < |s| ==> IsLetter(s[i]) || IsDigit(s[i])
  }

  /** At least two characters, the first a letter, the others letters, digits or dots. */
  predicate IsTerm(s: string) {
    |s| > 1 && IsLetter(s[0]) && forall i :: 0 <= i < |s| ==> IsLetter(s[i]) || IsDigit(s[i]) || s[i] == '.'
  }

  /** Name@odata.Term, Name@Redfish.Term or Name@Message.Term. */
  predicate IsAnnotation(name: string) {
    exists i :: 0 <= i < |name| && name[i] == '@' && IsWord(name[..i]) &&
      (InSpace(name[i + 1..], "odata.") || InSpace(name[i + 1..], "Redfish.") || InSpace(name[i + 1..], "Message."))
  }

  predicate InSpace(rest: string, space: string) {
    space <= rest && IsTerm(rest[|space|..])
  }

  /** Not an annotation, not read-only, and at the top level covered by the user's privileges. */
  predicate PatchAccepts(privileged: string -> bool, p: Property, path: seq<string>) {
    path != [] && !IsAnnotation(path[|path| - 1]) && !p.readOnly && (|path| == 1 ==> privileged(path[0]))
  }

  function PatchCallback(privileged: string -> bool): Accept {
    (p, path) => PatchAccepts(privileged, p, path)
  }

  // ---------- Paths through payload and data ----------

  /** From position `i` on, the payload has every name of `path`, the schema knows it, and
      the callback accepted it with its whole path; `path` ends at a member of the payload. */
  ghost predicate Accepted(schema: Schema, j: Json, path: seq<string>, i: nat, accept: Accept)
    requires i < |path|
    decreases |path| - i
  {
    && j.JObj? && path[i] in j.fields && path[i] in schema.props
    && accept(schema.props[path[i]], path[..i + 1])
    && (i + 1 < |path| ==>
          schema.props[path[i]].typ.Object? &&
          Accepted(schema.props[path[i]].typ.schema, j.fields[path[i]], path, i + 1, accept))
  }

  /** The payload value that `path` ends at. */
  ghost function PayloadAt(j: Json, path: seq<string>, i: nat): Option<Json>
    requires i <= |path|
    decreases |path| - i
  {
    if i == |path| then Some(j)
    else if j.JObj? && path[i] in j.fields then PayloadAt(j.fields[path[i]], path, i + 1)
    else None
  }

  /** Why a key at the relative path `rel` may change, seen from position `i` on it. */
  ghost predicate Cause(schema: Schema, j: Json, rel: seq<string>, i: nat, accept: Accept) {
    // the value of an accepted member
    || (i < |rel| && Accepted(schema, j, rel, i, accept))
    // the target of an accepted link
    || (i + 1 < |rel| && rel[|rel| - 1] == ODATA_ID && Accepted(schema, j, rel[..|rel| - 1], i, accept))
    // the member set of an object above an accepted member
    || (i <= |rel| && exists name :: Accepted(schema, j, rel + [name], i, accept))
    // something at or beneath an accepted null
    || (exists n :: i < n <= |rel| && AcceptedNull(schema, j, rel[..n], i, accept))
  }

  ghost predicate AcceptedNull(schema: Schema, j: Json, path: seq<string>, i: nat, accept: Accept)
    requires i < |path|
  {
    Accepted(schema, j, path, i, accept) && PayloadAt(j, path, i) == Some(JNull)
  }

  lemma AcceptedOuter(schema: Schema, j: Json, path: seq<string>, i: nat, accept: Accept)
    requires i + 1 < |path| && j.JObj? && path[i] in j.fields && path[i] in schema.props
    requires schema.props[path[i]].typ.Object? && accept(schema.props[path[i]], path[..i + 1])
    requires Accepted(schema.props[path[i]].typ.schema, j.fields[path[i]], path, i + 1, accept)
    ensures Accepted(schema, j, path, i, accept)
  {
  }

  /** A cause inside an accepted object is a cause. */
  lemma CauseOuter(schema: Schema, j: Json, rel: seq<string>, i: nat, accept: Accept)
    requires i < |rel| && j.JObj? && rel[i] in j.fields && rel[i] in schema.props
    requires schema.props[rel[i]].typ.Object? && accept(schema.props[rel[i]], rel[..i + 1])
    requires Cause(schema.props[rel[i]].typ.schema, j.fields[rel[i]], rel, i + 1, accept)
    ensures Cause(schema, j, rel, i, accept)
  {
    var inner, value := schema.props[rel[i]].typ.schema, j.fields[rel[i]];
    if i + 1 < |rel| && Accepted(inner, value, rel, i + 1, accept) {
      AcceptedOuter(schema, j, rel, i, accept);
    } else if i + 2 < |rel| && rel[|rel| - 1] == ODATA_ID && Accepted(inner, value, rel[..|rel| - 1], i + 1, accept) {
      assert rel[..|rel| - 1][..i + 1] == rel[..i + 1];
      AcceptedOuter(schema, j, rel[..|rel| - 1], i, accept);
    } else if name :| Accepted(inner, value, rel + [name], i + 1, accept) {
      assert (rel + [name])[..i + 1] == rel[..i + 1];
      AcceptedOuter(schema, j, rel + [name], i, accept);
    } else {
      var n :| i + 1 < n <= |rel| && AcceptedNull(inner, value, rel[..n], i + 1, accept);
      assert rel[..n][..i + 1] == rel[..i + 1];
      AcceptedOuter(schema, j, rel[..n], i, accept);
      assert AcceptedNull(schema, j, rel[..n], i, accept);
    }
  }

  /** A member of the converted data was accepted under its whole path. */
  lemma KeptWasAccepted(schema: Schema, j: Json, rel: seq<string>, i: nat, name: string, accept: Accept)
    requires j.JObj? && i <= |rel| && ConvertObject(schema, j, rel[..i], Some(accept)).Some?
    requires name in ConvertObject(schema, j, rel[..i], Some(accept)).value
    ensures name in j.fields && name in schema.props && accept(schema.props[name], rel[..i] + [name])
  {
    var c := ConvertMember(schema, j, name, rel[..i], Some(accept));
    assert Kept(c);
    var field := ConvertField(schema.props[name], j.fields[name], rel[..i] + [name], Some(accept));
    assert c == field && Accepts(Some(accept), schema.props[name], rel[..i] + [name]);
  }

  lemma OnlyObjectsReach(db: Store, v: Inter, k: Key, i: nat)
    requires i < |k| && PatchAt(db, v, k, i) != Lookup(db, k)
    ensures v.IObj?
  {
  }

  lemma ObjectData(p: Property, j: Json, path: seq<string>, cb: Callback)
    requires ConvertValue(p, j, path, cb).Some? && ConvertValue(p, j, path, cb).value.IObj?
    ensures p.typ.Object? ||
            (p.typ.Link? && LinkText(j).Some? && ConvertValue(p, j, path, cb).value == LinkData(LinkText(j).value))
  {
  }

  /** Every key that patching the converted data changes has a cause. */
  lemma {:induction false} ChangeHasCause(db: Store, schema: Schema, j: Json, key: Key, rel: seq<string>, i: nat,
                                          accept: Accept)
    requires j.JObj? && i <= |rel| && ConvertObject(schema, j, rel[..i], Some(accept)).Some?
    requires PatchAt(db, IObj(ConvertObject(schema, j, rel[..i], Some(accept)).value), key + rel, |key| + i) !=
               Lookup(db, key + rel)
    ensures Cause(schema, j, rel, i, accept)
    decreases j
  {
    var fields, k := ConvertObject(schema, j, rel[..i], Some(accept)).value, key + rel;
    if i == |rel| {
      assert fields.Keys != {};
      var name :| name in fields;
      KeptWasAccepted(schema, j, rel, i, name, accept);
      assert rel[..i] == rel && (rel + [name])[..i + 1] == rel + [name];
      assert Accepted(schema, j, rel + [name], i, accept);
    } else {
      var name := rel[i];
      assert k[|key| + i] == name && name in fields;
      KeptWasAccepted(schema, j, rel, i, name, accept);
      assert rel[..i] + [name] == rel[..i + 1];
      MemberHasCause(db, schema, j, key, rel, i, accept);
    }
  }

  lemma {:induction false} MemberHasCause(db: Store, schema: Schema, j: Json, key: Key, rel: seq<string>, i: nat,
                                          accept: Accept)
    requires j.JObj? && i < |rel| && rel[i] in j.fields && rel[i] in schema.props
    requires accept(schema.props[rel[i]], rel[..i + 1])
    requires var c := ConvertField(schema.props[rel[i]], j.fields[rel[i]], rel[..i + 1], Some(accept));
             Kept(c) && (c.value.INil? || PatchAt(db, c.value, key + rel, |key| + i + 1) != Lookup(db, key + rel))
    ensures Cause(schema, j, rel, i, accept)
    decreases j, 0
  {
    var p, value, path := schema.props[rel[i]], j.fields[rel[i]], rel[..i + 1];
    var c := ConvertField(p, value, path, Some(accept));
    assert path[..i + 1] == path;
    if c.value.INil? {
      assert AcceptedNull(schema, j, path, i, accept);
    } else {
      var v := ConvertValue(p, value, path, Some(accept));
      assert v == Some(c.value);
      if i + 1 == |rel| {
        assert rel == path;
      } else if p.typ.Object? {
        ChangeHasCause(db, p.typ.schema, value, key, rel, i + 1, accept);
        CauseOuter(schema, j, rel, i, accept);
      } else {
        OnlyObjectsReach(db, c.value, key + rel, |key| + i + 1);
        ObjectData(p, value, path, Some(accept));
        LinkChange(db, LinkText(value).value, key + rel, |key| + i + 1);
        assert rel[|rel| - 1] == (key + rel)[|key| + i + 1] == ODATA_ID;
        assert rel[..|rel| - 1] == path;
      }
    }
  }

  /** Below a link only its target changes. */
  lemma LinkChange(db: Store, text: string, k: Key, i: nat)
    requires i < |k| && PatchAt(db, LinkData(text), k, i) != Lookup(db, k)
    ensures i + 1 == |k| && k[i] == ODATA_ID
  {
  }

  /** PATCH containment: a key changed by patching the data that the handler's callback let
      through lies under the resource, and on it or around it the callback accepted the
      whole payload path. */
  lemma PatchContained(db: Store, db': Store, privileged: string -> bool, schema: Schema, j: Json, key: Key, k: Key)
    requires j.JObj? && ConvertObject(schema, j, [], Some(PatchCallback(privileged))).Some?
    requires Patched(db, db', IObj(ConvertObject(schema, j, [], Some(PatchCallback(privileged))).value), key)
    requires Lookup(db', k) != Lookup(db, k)
    ensures Under(key, k) && Cause(schema, j, k[|key|..], 0, PatchCallback(privileged))
  {
    var rel := k[|key|..];
    assert k == key + rel && rel[..0] == [];
    ChangeHasCause(db, schema, j, key, rel, 0, PatchCallback(privileged));
  }

  /** What the callback accepted is known, writable, and privileged at the top level. */
  lemma {:induction false} AcceptedIsWritable(schema: Schema, j: Json, path: seq<string>, i: nat,
                                              privileged: string -> bool)
    requires i < |path| && Accepted(schema, j, path, i, PatchCallback(privileged))
    ensures i == 0 ==> privileged(path[0])
    ensures j.JObj? && path[i] in schema.props && !schema.props[path[i]].readOnly && !IsAnnotation(path[i])
    ensures i + 1 < |path| ==>
              && schema.props[path[i]].typ.Object?
              && Accepted(schema.props[path[i]].typ.schema, j.fields[path[i]], path, i + 1, PatchCallback(privileged))
  {
    var name := path[..i + 1][i];
    assert PatchAccepts(privileged, schema.props[path[i]], path[..i + 1]);
  }
}
