/** The part of a PATCH payload that the handler's callback lets through. */
module AcceptedPart {
  import opened Basics
  import opened Schema
  import opened Convert
  import opened Build
  import opened RoundTrip
  import opened Merge
  import opened Containment

  /** The payload without the members that the callback, or an unknown name, keeps out. */
  ghost function Part(schema: Schema, j: Json, path: seq<string>, accept: Accept): Json
    requires j.JObj?
    decreases j, 0
  {
    JObj(map name | name in j.fields && name in schema.props &&
                    Kept(ConvertField(schema.props[name], j.fields[name], path + [name], Some(accept))) ::
           PartField(schema.props[name], j.fields[name], path + [name], accept))
  }

  ghost function PartField(p: Property, j: Json, path: seq<string>, accept: Accept): Json
    decreases j, 1
  {
    match p.typ
    case Object(schema) => if j.JObj? then Part(schema, j, path, accept) else j
    case _ => j
  }

  /** Converting the payload with the callback is converting its accepted part without one. */
  lemma {:induction false} PartConverts(r: Reader, schema: Schema, j: Json, path: seq<string>, accept: Accept)
    requires j.JObj? && ConvertObject(schema, j, path, Some(accept)).Some? &&
             PatchObject(r, schema, Part(schema, j, path, accept))
    ensures ConvertObject(schema, Part(schema, j, path, accept), path, None) ==
              ConvertObject(schema, j, path, Some(accept))
    decreases j, 0
  {
    var part, fields := Part(schema, j, path, accept), ConvertObject(schema, j, path, Some(accept)).value;
    forall name | name in j.fields
      ensures name in fields <==> name in part.fields
      ensures name in fields ==>
                var c := ConvertMember(schema, part, name, path, None);
                c.Conv? && Kept(c) && c.value == fields[name]
    {
      var c := ConvertMember(schema, j, name, path, Some(accept));
      assert !c.Bad?;
      if name in part.fields {
        assert c == ConvertField(schema.props[name], j.fields[name], path + [name], Some(accept));
        PartFieldConverts(r, schema.props[name], j.fields[name], path + [name], accept);
      }
    }
    assert ConvertObject(schema, part, path, None).Some?;
    assert ConvertObject(schema, part, path, None).value == fields;
  }

  lemma {:induction false} PartFieldConverts(r: Reader, p: Property, j: Json, path: seq<string>, accept: Accept)
    requires Kept(ConvertField(p, j, path, Some(accept))) && PatchData(r, p, PartField(p, j, path, accept))
    ensures var c := ConvertField(p, PartField(p, j, path, accept), path, None);
            Kept(c) && c.value == ConvertField(p, j, path, Some(accept)).value
    decreases j, 1
  {
    if !(j.JNull? && p.nullAllowed) {
      var v := ConvertValue(p, j, path, Some(accept));
      match p.typ
      case Object(schema) => PartConverts(r, schema, j, path, accept);
      case _ =>
    }
  }

  // ---------- What the PATCH handler lets through ----------

  /** The member is known, writable and no annotation, at the top level covered by the user's privileges, and
      neither a navigation link nor an action. */
  ghost predicate Writes(schema: Schema, j: Json, name: string, privileged: string -> bool, top: bool)
    requires j.JObj?
  {
    && name in j.fields && name in schema.props && !schema.props[name].readOnly && !IsAnnotation(name)
    && (top ==> privileged(name)) && Stays(schema.props[name], j.fields[name])
  }

  /** The payload without all other members, at every level. */
  ghost function WritablePart(schema: Schema, j: Json, privileged: string -> bool, top: bool): Json
    requires j.JObj?
    decreases j, 0
  {
    JObj(map name | name in j.fields && Writes(schema, j, name, privileged, top) ::
           WritableField(schema.props[name], j.fields[name], privileged))
  }

  ghost function WritableField(p: Property, j: Json, privileged: string -> bool): Json
    decreases j, 1
  {
    match p.typ
    case Object(schema) => if j.JObj? then WritablePart(schema, j, privileged, false) else j
    case _ => j
  }

  /** What the handler's callback accepts of a payload that converts is exactly its writable part. */
  lemma {:induction false} PartIsWritable(schema: Schema, j: Json, path: seq<string>, privileged: string -> bool)
    requires j.JObj? && ConvertObject(schema, j, path, Some(PatchCallback(privileged))).Some?
    ensures Part(schema, j, path, PatchCallback(privileged)) == WritablePart(schema, j, privileged, path == [])
    decreases j, 0
  {
    var accept := PatchCallback(privileged);
    forall name | name in j.fields && name in schema.props
      ensures Kept(ConvertField(schema.props[name], j.fields[name], path + [name], Some(accept))) <==>
                Writes(schema, j, name, privileged, path == [])
      ensures Writes(schema, j, name, privileged, path == []) ==>
                PartField(schema.props[name], j.fields[name], path + [name], accept) ==
                  WritableField(schema.props[name], j.fields[name], privileged)
    {
      var p, value := schema.props[name], j.fields[name];
      assert !ConvertMember(schema, j, name, path, Some(accept)).Bad?;
      MemberIsWritable(p, value, path, name, privileged);
    }
  }

  lemma {:induction false} MemberIsWritable(p: Property, j: Json, path: seq<string>, name: string,
                                            privileged: string -> bool)
    requires ConvertField(p, j, path + [name], Some(PatchCallback(privileged))).Conv?
    ensures Kept(ConvertField(p, j, path + [name], Some(PatchCallback(privileged)))) <==>
              !p.readOnly && !IsAnnotation(name) && (path == [] ==> privileged(name)) && Stays(p, j)
    ensures Kept(ConvertField(p, j, path + [name], Some(PatchCallback(privileged)))) ==>
              PartField(p, j, path + [name], PatchCallback(privileged)) == WritableField(p, j, privileged)
    decreases j, 1
  {
    var accept := PatchCallback(privileged);
    assert (path + [name])[|path|] == name;
    if !(j.JNull? && p.nullAllowed) {
      var v := ConvertValue(p, j, path + [name], Some(accept));
      match p.typ
      case Object(schema) =>
        assert path + [name] != [] && j.JObj? && ConvertObject(schema, j, path + [name], Some(accept)).Some?;
        PartIsWritable(schema, j, path + [name], privileged);
      case Array(element) => assert v == ConvertArray(element, j, path + [name], Some(accept));
      case Link(isNav, _) => assert v.value.INil? <==> isNav;
      case _ =>
    }
  }

  /** All members are writable, at every level. */
  ghost predicate AllWritable(schema: Schema, j: Json, privileged: string -> bool, top: bool)
    requires j.JObj?
    decreases j
  {
    forall name :: name in j.fields ==>
      && Writes(schema, j, name, privileged, top)
      && (schema.props[name].typ.Object? && j.fields[name].JObj? ==>
            AllWritable(schema.props[name].typ.schema, j.fields[name], privileged, false))
  }

  /** Nothing is left out of a payload if and only if all of it is writable. */
  lemma {:induction false} WholeIsWritable(schema: Schema, j: Json, privileged: string -> bool, top: bool)
    requires j.JObj?
    ensures WritablePart(schema, j, privileged, top) == j <==> AllWritable(schema, j, privileged, top)
    decreases j
  {
    var part := WritablePart(schema, j, privileged, top);
    forall name | name in j.fields && name in schema.props && schema.props[name].typ.Object? && j.fields[name].JObj?
      ensures WritableField(schema.props[name], j.fields[name], privileged) == j.fields[name] <==>
                AllWritable(schema.props[name].typ.schema, j.fields[name], privileged, false)
    {
      WholeIsWritable(schema.props[name].typ.schema, j.fields[name], privileged, false);
    }
    if AllWritable(schema, j, privileged, top) {
      forall name | name in j.fields
        ensures name in part.fields && part.fields[name] == j.fields[name]
      {
        assert Writes(schema, j, name, privileged, top);
        assert part.fields[name] == WritableField(schema.props[name], j.fields[name], privileged);
      }
      assert part.fields == j.fields;
    }
    if part == j {
      forall name | name in j.fields
        ensures Writes(schema, j, name, privileged, top)
        ensures part.fields[name] == j.fields[name]
      {
        assert name in part.fields;
      }
    }
  }

  /** The name is a word, a namespace with its dot, and a term. */
  ghost predicate Annotates(name: string, word: string, space: string, term: string) {
    IsWord(word) && IsTerm(term) && name == word + "@" + space + term
  }

  /** The annotations are exactly the names Word@odata.Term, Word@Redfish.Term and Word@Message.Term; a name
      without '@' is none. */
  lemma AnnotationsExactly(name: string)
    ensures IsAnnotation(name) <==>
              exists word, term ::
                Annotates(name, word, "odata.", term) || Annotates(name, word, "Redfish.", term) ||
                Annotates(name, word, "Message.", term)
    ensures '@' !in name ==> !IsAnnotation(name)
  {
    if IsAnnotation(name) {
      var i :| 0 <= i < |name| && name[i] == '@' && IsWord(name[..i]) &&
        (InSpace(name[i + 1..], "odata.") || InSpace(name[i + 1..], "Redfish.") || InSpace(name[i + 1..], "Message."));
      var term;
      if InSpace(name[i + 1..], "odata.") {
        term := CutAnnotation(name, i, "odata.");
      } else if InSpace(name[i + 1..], "Redfish.") {
        term := CutAnnotation(name, i, "Redfish.");
      } else {
        term := CutAnnotation(name, i, "Message.");
      }
    }
    forall word, term | Annotates(name, word, "odata.", term)
      ensures IsAnnotation(name)
    {
      JoinAnnotation(name, word, "odata.", term);
    }
    forall word, term | Annotates(name, word, "Redfish.", term)
      ensures IsAnnotation(name)
    {
      JoinAnnotation(name, word, "Redfish.", term);
    }
    forall word, term | Annotates(name, word, "Message.", term)
      ensures IsAnnotation(name)
    {
      JoinAnnotation(name, word, "Message.", term);
    }
  }

  lemma CutAnnotation(name: string, i: nat, space: string) returns (term: string)
    requires i < |name| && name[i] == '@' && IsWord(name[..i]) && InSpace(name[i + 1..], space)
    ensures Annotates(name, name[..i], space, term)
  {
    var rest := name[i + 1..];
    term := rest[|space|..];
    assert rest == space + term && name == name[..i] + [name[i]] + rest;
  }

  lemma JoinAnnotation(name: string, word: string, space: string, term: string)
    requires Annotates(name, word, space, term)
    ensures name[|word|] == '@' && name[..|word|] == word && InSpace(name[|word| + 1..], space)
  {
    var rest := name[|word| + 1..];
    assert rest == space + term && rest[|space|..] == term;
  }

  /** The count annotation of every property with a plain name is one, and a term of one character is none. */
  lemma CountsAreAnnotations(word: string, c: char)
    requires IsWord(word)
    ensures IsAnnotation(word + ODATA_COUNT)
    ensures !IsTerm([c])
  {
    var name := word + ODATA_COUNT;
    assert name[..|word|] == word && name[|word|] == '@';
    var rest := name[|word| + 1..];
    assert rest == "odata.count" && rest[6..] == "count";
    assert IsTerm("count") && InSpace(rest, "odata.");
  }

  /** Plain names start with a letter or an underscore, and go on with these and digits. */
  lemma PlainNames(c: char, word: string)
    ensures IsWord([c]) <==> 'a' <= c <= 'z' || 'A' <= c <= 'Z' || c == '_'
    ensures IsWord(word) ==> (IsWord(word + [c]) <==> IsWord([c]) || '0' <= c <= '9')
    ensures IsWord(word) && |word| > 1 ==> IsTerm(word)
    ensures IsTerm(word) ==> (IsTerm(word + [c]) <==> IsWord([c]) || '0' <= c <= '9' || c == '.')
  {
    var more := word + [c];
    assert more[|word|] == c && forall i :: 0 <= i < |word| ==> more[i] == word[i];
  }
}
