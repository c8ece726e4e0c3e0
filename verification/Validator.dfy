/** `checkProperties` and its helpers: the validator in front of the converter. */
module Validator {
  import opened Basics
  import opened Text
  import opened Schema
  import opened Convert

  /** What is reported about one value.  A report has one entry per property that is both in the
      schema and in the payload, in place of a separate map for every kind of fault. */
  datatype Verdict = Fine | Invalid | Nested(report: Report) | Elements(elements: seq<Verdict>)

  datatype Report = Report(added: set<string>, missing: set<string>, verdicts: map<string, Verdict>)

  /** Enum members, formats, lengths, patterns, ranges and the URI format. */
  type Constraint = (Property, Json) -> bool

  predicate TypeOk(kind: SimpleKind, j: Json) {
    match kind
    case Enum => j.JStr?
    case String => j.JStr?
    case Integer => j.JNum?
    case Bool => j.JBool?
  }

  predicate LinkOk(j: Json) {
    j.JObj? && |j.fields| == 1 && ODATA_ID in j.fields && j.fields[ODATA_ID].JStr?
  }

  // ---------- The report, as a function ----------

  /** `None` where the code panics. */
  ghost function VerdictOf(p: Property, j: Json, accept: Constraint): Option<Verdict>
    decreases j, 2
  {
    match p.typ
    case Simple(kind) => Some(if TypeOk(kind, j) && accept(p, j) then Fine else Invalid)
    case Object(schema) => if j.JObj? then ReportOf(schema, j, accept) else Some(Invalid)
    case Array(element) => if j.JArr? then ArrayOf(element, j, accept) else Some(Invalid)
    case Link(true, Some(expansion)) => if j.JArr? then ArrayOf(expansion.arrayOf, j, accept) else Some(Invalid)
    case Link(_, _) => Some(if LinkOk(j) && accept(p, j) then Fine else Invalid)
    case Action => Some(Fine)
    case Unknown => None
  }

  ghost function ElementOf(p: Property, j: Json, accept: Constraint): Option<Verdict>
    decreases j, 3
  {
    match p.typ
    case Simple(Integer) => None
    case Array(_) => None
    case Link(true, Some(_)) => if j.JObj? then ReportOf(NO_PROPERTIES, j, accept) else None
    case _ => VerdictOf(p, j, accept)
  }

  ghost function ArrayOf(element: Property, j: Json, accept: Constraint): Option<Verdict>
    requires j.JArr?
    decreases j, 1
  {
    if exists i :: 0 <= i < |j.items| && ElementAt(element, j, i, accept).None? then None
    else
      Some(Elements(seq(|j.items|, i requires 0 <= i < |j.items| =>
        var v := ElementAt(element, j, i, accept);
        if v.None? then Fine else v.value)))
  }

  ghost function ElementAt(element: Property, j: Json, i: nat, accept: Constraint): Option<Verdict>
    requires j.JArr? && i < |j.items|
    decreases j, 0
  {
    ElementOf(element, j.items[i], accept)
  }

  ghost function MemberAt(schema: Schema, j: Json, name: string, accept: Constraint): Option<Verdict>
    requires j.JObj? && name in j.fields && name in schema.props
    decreases j, 0
  {
    VerdictOf(schema.props[name], j.fields[name], accept)
  }

  ghost function ReportOf(schema: Schema, j: Json, accept: Constraint): Option<Verdict>
    requires j.JObj?
    decreases j, 1
  {
    if exists name :: name in schema.props && name in j.fields && MemberAt(schema, j, name, accept).None? then None
    else
      Some(Nested(Report(j.fields.Keys - schema.props.Keys, schema.props.Keys - j.fields.Keys,
        map name | name in schema.props && name in j.fields ::
          var v := MemberAt(schema, j, name, accept);
          if v.None? then Fine else v.value)))
  }

  // ---------- The code ----------

  method AddedNames(schema: Schema, j: Json) returns (added: set<string>)
    requires j.JObj?
    ensures added == j.fields.Keys - schema.props.Keys
  {
    added := {};
    var names := j.fields.Keys;
    while names != {}
      invariant names <= j.fields.Keys
      invariant forall name :: name in added <==> name in j.fields && name !in names && name !in schema.props
      decreases |names|
    {
      var name :| name in names;
      if name !in schema.props {
        added := added + {name};
      }
      names := names - {name};
    }
  }

  /** The verdicts on the properties that are not in `todo`. */
  ghost predicate Checked(schema: Schema, j: Json, accept: Constraint, missing: set<string>,
                          verdicts: map<string, Verdict>, todo: set<string>)
    requires j.JObj?
  {
    && missing == (schema.props.Keys - todo) - j.fields.Keys
    && verdicts.Keys == (schema.props.Keys - todo) * j.fields.Keys
    && forall name {:trigger verdicts[name]} :: name in verdicts ==>
         MemberAt(schema, j, name, accept) == Some(verdicts[name])
  }

  lemma CheckedStep(schema: Schema, j: Json, accept: Constraint, missing: set<string>, verdicts: map<string, Verdict>,
                    todo: set<string>, name: string, v: Verdict)
    requires j.JObj? && Checked(schema, j, accept, missing, verdicts, todo) && name in todo && name in schema.props
    ensures name !in j.fields ==> Checked(schema, j, accept, missing + {name}, verdicts, todo - {name})
    ensures name in j.fields && MemberAt(schema, j, name, accept) == Some(v) ==>
              Checked(schema, j, accept, missing, verdicts[name := v], todo - {name})
  {
  }

  lemma AllChecked(schema: Schema, j: Json, accept: Constraint, missing: set<string>, verdicts: map<string, Verdict>)
    requires j.JObj? && Checked(schema, j, accept, missing, verdicts, {})
    ensures ReportOf(schema, j, accept) == Some(Nested(Report(j.fields.Keys - schema.props.Keys, missing, verdicts)))
  {
    forall name | name in schema.props && name in j.fields
      ensures MemberAt(schema, j, name, accept) == Some(verdicts[name])
    {
      assert name in verdicts.Keys;
    }
    assert missing == schema.props.Keys - j.fields.Keys;
    assert ReportOf(schema, j, accept).value.report.verdicts == verdicts;
  }

  method CheckProperties(schema: Schema, j: Json, accept: Constraint) returns (r: Option<Verdict>)
    requires j.JObj?
    ensures r == ReportOf(schema, j, accept)
    decreases j, 1
  {
    var added := AddedNames(schema, j);
    var missing: set<string>, verdicts: map<string, Verdict> := {}, map[];
    var todo := schema.props.Keys;
    while todo != {}
      invariant todo <= schema.props.Keys && Checked(schema, j, accept, missing, verdicts, todo)
      decreases |todo|
    {
      var name :| name in todo;
      if name !in j.fields {
        CheckedStep(schema, j, accept, missing, verdicts, todo, name, Fine);
        missing := missing + {name};
      } else {
        var v := CheckProperty(schema.props[name], j.fields[name], accept);
        if v.None? {
          assert MemberAt(schema, j, name, accept).None?;
          return None;
        }
        CheckedStep(schema, j, accept, missing, verdicts, todo, name, v.value);
        verdicts := verdicts[name := v.value];
      }
      todo := todo - {name};
    }
    AllChecked(schema, j, accept, missing, verdicts);
    return Some(Nested(Report(added, missing, verdicts)));
  }

  method CheckProperty(p: Property, j: Json, accept: Constraint) returns (r: Option<Verdict>)
    ensures r == VerdictOf(p, j, accept)
    decreases j, 2
  {
    match p.typ {
      case Simple(kind) => return Some(if TypeOk(kind, j) && accept(p, j) then Fine else Invalid);
      case Object(schema) =>
        if j.JObj? {
          r := CheckProperties(schema, j, accept);
        } else {
          r := Some(Invalid);
        }
      case Array(element) =>
        if j.JArr? {
          r := CheckArray(element, j, accept);
        } else {
          r := Some(Invalid);
        }
      case Link(isNav, expand) =>
        if isNav && expand.Some? {
          if j.JArr? {
            r := CheckArray(expand.value.arrayOf, j, accept);
          } else {
            r := Some(Invalid);
          }
        } else {
          r := Some(if LinkOk(j) && accept(p, j) then Fine else Invalid);
        }
      case Action => r := Some(Fine);
      case Unknown => r := None;
    }
  }

  method CheckElement(p: Property, j: Json, accept: Constraint) returns (r: Option<Verdict>)
    ensures r == ElementOf(p, j, accept)
    decreases j, 3
  {
    if p.typ == Simple(Integer) || p.typ.Array? {
      r := None;
    } else if p.typ.Link? && p.typ.isNav && p.typ.expand.Some? {
      if j.JObj? {
        r := CheckProperties(NO_PROPERTIES, j, accept);
      } else {
        r := None;
      }
    } else {
      r := CheckProperty(p, j, accept);
    }
  }

  method CheckArray(element: Property, j: Json, accept: Constraint) returns (r: Option<Verdict>)
    requires j.JArr?
    ensures r == ArrayOf(element, j, accept)
    decreases j, 1
  {
    var elements := [];
    for i := 0 to |j.items|
      invariant |elements| == i
      invariant forall k :: 0 <= k < i ==> ElementAt(element, j, k, accept) == Some(elements[k])
    {
      var v := CheckElement(element, j.items[i], accept);
      if v.None? {
        assert ElementAt(element, j, i, accept).None?;
        return None;
      }
      elements := elements + [v.value];
    }
    ArrayIs(element, j, accept, elements);
    return Some(Elements(elements));
  }

  lemma ArrayIs(element: Property, j: Json, accept: Constraint, elements: seq<Verdict>)
    requires j.JArr? && |elements| == |j.items|
    requires forall i :: 0 <= i < |elements| ==> ElementAt(element, j, i, accept) == Some(elements[i])
    ensures ArrayOf(element, j, accept) == Some(Elements(elements))
  {
    assert !exists i :: 0 <= i < |j.items| && ElementAt(element, j, i, accept).None?;
    assert ArrayOf(element, j, accept).Some?;
    assert ArrayOf(element, j, accept).value.elements == elements;
  }

  // ---------- Soundness ----------

  /** No fault at any level, and no name that the schema does not know. */
  ghost predicate Clean(v: Verdict) {
    match v
    case Fine => true
    case Invalid => false
    case Nested(report) => report.added == {} && forall name :: name in report.verdicts ==> Clean(report.verdicts[name])
    case Elements(elements) => forall i :: 0 <= i < |elements| ==> Clean(elements[i])
  }

  /** No auto-expanded link, integer array, nested array or unknown type. */
  ghost predicate Supported(p: Property) {
    match p.typ
    case Object(schema) => forall name :: name in schema.props ==> Supported(schema.props[name])
    case Array(element) => element.typ != Simple(Integer) && !element.typ.Array? && Supported(element)
    case Link(_, expand) => expand.None?
    case Unknown => false
    case _ => true
  }

  /** On a supported schema the validator does not panic, and a clean report promises that the
      converter, without a callback, neither fails nor panics. */
  lemma {:induction false} CleanConverts(p: Property, j: Json, path: seq<string>, accept: Constraint)
    requires Supported(p)
    ensures VerdictOf(p, j, accept).Some?
    ensures Clean(VerdictOf(p, j, accept).value) ==> ConvertField(p, j, path, None).Conv?
    decreases j, 2
  {
    match p.typ
    case Object(schema) =>
      if j.JObj? {
        CleanObjectConverts(schema, j, path, accept);
      }
    case Array(element) =>
      if j.JArr? {
        CleanArrayConverts(element, j, path, accept);
      }
    case _ =>
  }

  lemma {:induction false} CleanArrayConverts(element: Property, j: Json, path: seq<string>, accept: Constraint)
    requires j.JArr? && Supported(element) && element.typ != Simple(Integer) && !element.typ.Array?
    ensures ArrayOf(element, j, accept).Some?
    ensures Clean(ArrayOf(element, j, accept).value) ==> ConvertArray(element, j, path, None).Some?
    decreases j, 1
  {
    forall i {:trigger ElementAt(element, j, i, accept)} | 0 <= i < |j.items|
      ensures ElementAt(element, j, i, accept).Some?
      ensures Clean(ElementAt(element, j, i, accept).value) ==> ConvertElement(element, j, i, path, None).Conv?
    {
      assert ElementAt(element, j, i, accept) == VerdictOf(element, j.items[i], accept);
      CleanConverts(element, j.items[i], path + [FormatNat(i)], accept);
    }
    var elements := seq(|j.items|, i requires 0 <= i < |j.items| => ElementAt(element, j, i, accept).value);
    ArrayIs(element, j, accept, elements);
    if Clean(Elements(elements)) {
      forall i {:trigger ConvertElement(element, j, i, path, None)} | 0 <= i < |j.items|
        ensures ConvertElement(element, j, i, path, None).Conv?
      {
        assert Clean(elements[i]);
      }
      assert !exists i :: 0 <= i < |j.items| && ConvertElement(element, j, i, path, None).Bad?;
    }
  }

  lemma {:induction false} CleanObjectConverts(schema: Schema, j: Json, path: seq<string>, accept: Constraint)
    requires j.JObj? && forall name :: name in schema.props ==> Supported(schema.props[name])
    ensures ReportOf(schema, j, accept).Some?
    ensures Clean(ReportOf(schema, j, accept).value) ==> ConvertObject(schema, j, path, None).Some?
    decreases j, 1
  {
    forall name | name in schema.props && name in j.fields
      ensures MemberAt(schema, j, name, accept).Some?
      ensures Clean(MemberAt(schema, j, name, accept).value) ==> ConvertMember(schema, j, name, path, None).Conv?
    {
      CleanConverts(schema.props[name], j.fields[name], path + [name], accept);
    }
    var report := ReportOf(schema, j, accept).value.report;
    if Clean(ReportOf(schema, j, accept).value) {
      forall name | name in j.fields
        ensures ConvertMember(schema, j, name, path, None).Conv?
      {
        assert name !in report.added;
        assert Clean(report.verdicts[name]) && report.verdicts[name] == MemberAt(schema, j, name, accept).value;
      }
    }
  }

  /** Unknown names are reported, and exactly they make the converter fail at the top level
      of a payload whose known members are all clean. */
  lemma AddedNamesFail(schema: Schema, j: Json, path: seq<string>, accept: Constraint)
    requires j.JObj? && forall name :: name in schema.props ==> Supported(schema.props[name])
    requires ReportOf(schema, j, accept).Some?
    requires forall name :: name in ReportOf(schema, j, accept).value.report.verdicts ==>
               Clean(ReportOf(schema, j, accept).value.report.verdicts[name])
    ensures ConvertObject(schema, j, path, None).Some? <==> ReportOf(schema, j, accept).value.report.added == {}
  {
    var report := ReportOf(schema, j, accept).value.report;
    if report.added == {} {
      CleanObjectConverts(schema, j, path, accept);
    } else {
      var name :| name in report.added;
      assert ConvertMember(schema, j, name, path, None).Bad?;
    }
  }

  // ---------- With auto-expanded links ----------

  /** A member of the payload, at some level, is that of an auto-expanded link. */
  ghost predicate Expands(p: Property, j: Json)
    decreases j, 2
  {
    match p.typ
    case Object(schema) => j.JObj? && ExpandsInside(schema, j)
    case Array(element) => j.JArr? && ExpandsElement(element, j)
    case Link(true, Some(_)) => true
    case _ => false
  }

  ghost predicate ExpandsInside(schema: Schema, j: Json)
    requires j.JObj?
    decreases j, 0
  {
    exists name :: name in j.fields && name in schema.props && Expands(schema.props[name], j.fields[name])
  }

  ghost predicate ExpandsElement(element: Property, j: Json)
    requires j.JArr?
    decreases j, 0
  {
    !element.typ.Link? && exists i :: 0 <= i < |j.items| && Expands(element, j.items[i])
  }

  /** A clean verdict, under any schema: conversion succeeds exactly without such a member. */
  lemma {:induction false} CleanConvertsExactly(p: Property, j: Json, path: seq<string>, accept: Constraint)
    requires VerdictOf(p, j, accept).Some? && Clean(VerdictOf(p, j, accept).value)
    ensures ConvertField(p, j, path, None).Conv? <==> !Expands(p, j)
    decreases j, 2
  {
    match p.typ
    case Object(schema) => CleanObjectExactly(schema, j, path, accept);
    case Array(element) => CleanArrayExactly(element, j, path, accept);
    case _ =>
  }

  lemma {:induction false} CleanArrayExactly(element: Property, j: Json, path: seq<string>, accept: Constraint)
    requires j.JArr? && ArrayOf(element, j, accept).Some? && Clean(ArrayOf(element, j, accept).value)
    ensures ConvertArray(element, j, path, None).Some? <==> !ExpandsElement(element, j)
    decreases j, 1
  {
    var elements := ArrayOf(element, j, accept).value.elements;
    forall i {:trigger ConvertElement(element, j, i, path, None)} | 0 <= i < |j.items|
      ensures ConvertElement(element, j, i, path, None).Bad? <==> !element.typ.Link? && Expands(element, j.items[i])
    {
      assert ElementAt(element, j, i, accept).Some? && Clean(elements[i]);
      assert elements[i] == ElementOf(element, j.items[i], accept).value;
      if element.typ.Link? {
        CleanLinkElement(element, j.items[i], path + [FormatNat(i)], accept);
      } else {
        CleanConvertsExactly(element, j.items[i], path + [FormatNat(i)], accept);
      }
    }
    SomeBad(element, j, path);
  }

  /** Links in arrays always convert: a clean auto-expanded one is an empty object. */
  lemma CleanLinkElement(element: Property, j: Json, path: seq<string>, accept: Constraint)
    requires element.typ.Link?
    requires ElementOf(element, j, accept).Some? && Clean(ElementOf(element, j, accept).value)
    ensures ConvertField(element, j, path, None).Conv?
  {
  }

  lemma SomeBad(element: Property, j: Json, path: seq<string>)
    requires j.JArr?
    requires forall i {:trigger ConvertElement(element, j, i, path, None)} :: 0 <= i < |j.items| ==>
               (ConvertElement(element, j, i, path, None).Bad? <==> !element.typ.Link? && Expands(element, j.items[i]))
    ensures ConvertArray(element, j, path, None).Some? <==> !ExpandsElement(element, j)
  {
    if ExpandsElement(element, j) {
      var i :| 0 <= i < |j.items| && Expands(element, j.items[i]);
      assert ConvertElement(element, j, i, path, None).Bad?;
    } else {
      assert !exists i :: 0 <= i < |j.items| && ConvertElement(element, j, i, path, None).Bad?;
    }
  }

  /** Under any schema a payload whose report is clean at every level with no added names converts, without
      a callback, if and only if no member at any level is that of an auto-expanded link. */
  lemma {:induction false} CleanObjectExactly(schema: Schema, j: Json, path: seq<string>, accept: Constraint)
    requires j.JObj? && ReportOf(schema, j, accept).Some? && Clean(ReportOf(schema, j, accept).value)
    ensures ConvertObject(schema, j, path, None).Some? <==> !ExpandsInside(schema, j)
    decreases j, 1
  {
    var report := ReportOf(schema, j, accept).value.report;
    forall name | name in j.fields
      ensures name in schema.props
      ensures ConvertMember(schema, j, name, path, None).Bad? <==> Expands(schema.props[name], j.fields[name])
    {
      assert name !in report.added;
      assert MemberAt(schema, j, name, accept).Some? && Clean(report.verdicts[name]);
      CleanConvertsExactly(schema.props[name], j.fields[name], path + [name], accept);
    }
  }

  /** Why auto-expanded links are excepted: the validator wants an array there, of which the
      converter makes nothing but a panic. */
  lemma ExpandedLinkFails(p: Property, expansion: Expansion, j: Json, path: seq<string>, accept: Constraint)
    requires p.typ == Link(true, Some(expansion)) && !j.JNull?
    requires VerdictOf(p, j, accept).Some? && Clean(VerdictOf(p, j, accept).value)
    ensures ConvertField(p, j, path, None).Bad?
  {
    assert j.JArr?;
  }

  /** Why integer and nested arrays are excepted: the validator panics on every element. */
  lemma IntegerArrayPanics(element: Property, j: Json, accept: Constraint)
    requires j.JArr? && (element.typ == Simple(Integer) || element.typ.Array?)
    ensures ArrayOf(element, j, accept).None? <==> j.items != []
  {
    if j.items != [] {
      assert ElementAt(element, j, 0, accept).None?;
    }
  }

  // ---------- Completeness ----------

  /** The value is one that the converter takes, or a link and nothing more, at every level, and meets the
      further constraints; for an auto-expanded link it is an array. */
  ghost predicate Typed(p: Property, j: Json, accept: Constraint)
    decreases j, 1
  {
    match p.typ
    case Simple(kind) => SimpleText(kind, j).Some? && accept(p, j)
    case Object(schema) => j.JObj? && TypedObject(schema, j, accept)
    case Array(element) => j.JArr? && TypedArray(element, j, accept)
    case Link(true, Some(expansion)) => j.JArr? && TypedArray(expansion.arrayOf, j, accept)
    case Link(_, _) => LinkText(j).Some? && j == JObj(map[ODATA_ID := JStr(LinkText(j).value)]) && accept(p, j)
    case Action => true
    case Unknown => false
  }

  ghost predicate TypedObject(schema: Schema, j: Json, accept: Constraint)
    requires j.JObj?
    decreases j, 0
  {
    forall name :: name in j.fields ==> name in schema.props && Typed(schema.props[name], j.fields[name], accept)
  }

  /** Elements that are auto-expanded links are empty objects; integers and arrays are never accepted. */
  ghost predicate TypedArray(element: Property, j: Json, accept: Constraint)
    requires j.JArr?
    decreases j, 0
  {
    forall i :: 0 <= i < |j.items| ==> ElementTyped(element, j.items[i], accept)
  }

  ghost predicate ElementTyped(element: Property, j: Json, accept: Constraint)
    decreases j, 2
  {
    match element.typ
    case Simple(Integer) => false
    case Array(_) => false
    case Link(true, Some(_)) => j == JObj(map[])
    case _ => Typed(element, j, accept)
  }

  /** Where the validator panics. */
  ghost predicate Trips(p: Property, j: Json)
    decreases j, 1
  {
    match p.typ
    case Object(schema) => j.JObj? && TripsInside(schema, j)
    case Array(element) => j.JArr? && TripsArray(element, j)
    case Link(true, Some(expansion)) => j.JArr? && TripsArray(expansion.arrayOf, j)
    case Unknown => true
    case _ => false
  }

  ghost predicate TripsInside(schema: Schema, j: Json)
    requires j.JObj?
    decreases j, 0
  {
    exists name :: name in j.fields && name in schema.props && Trips(schema.props[name], j.fields[name])
  }

  ghost predicate TripsArray(element: Property, j: Json)
    requires j.JArr?
    decreases j, 0
  {
    exists i :: 0 <= i < |j.items| && ElementTrips(element, j.items[i])
  }

  ghost predicate ElementTrips(element: Property, j: Json)
    decreases j, 2
  {
    match element.typ
    case Simple(Integer) => true
    case Array(_) => true
    case Link(true, Some(_)) => !j.JObj?
    case _ => Trips(element, j)
  }

  /** The validator's test of simple values is the converter's, and its test of links asks for the id alone. */
  lemma TestsAgree(kind: SimpleKind, j: Json)
    ensures TypeOk(kind, j) <==> SimpleText(kind, j).Some?
    ensures LinkOk(j) <==> LinkText(j).Some? && j == JObj(map[ODATA_ID := JStr(LinkText(j).value)])
  {
    if LinkOk(j) {
      assert j.fields.Keys == {ODATA_ID} by {
        OneKey(j.fields.Keys, ODATA_ID);
      }
      assert j.fields == map[ODATA_ID := JStr(LinkText(j).value)];
    }
    if LinkText(j).Some? && j == JObj(map[ODATA_ID := JStr(LinkText(j).value)]) {
      assert j.fields.Keys == {ODATA_ID};
    }
  }

  lemma OneKey(keys: set<string>, key: string)
    requires key in keys && |keys| == 1
    ensures keys == {key}
  {
    assert |keys - {key}| == 0;
  }

  /** Under every schema the validator panics exactly where `Trips` says, and elsewhere exactly the typed values have
      a clean verdict. */
  lemma {:induction false} CleanIsTyped(p: Property, j: Json, accept: Constraint)
    ensures VerdictOf(p, j, accept).None? <==> Trips(p, j)
    ensures !Trips(p, j) ==> (Clean(VerdictOf(p, j, accept).value) <==> Typed(p, j, accept))
    decreases j, 3
  {
    match p.typ
    case Object(schema) =>
      if j.JObj? {
        CleanObjectIsTyped(schema, j, accept);
      }
    case Array(element) =>
      if j.JArr? {
        CleanArrayIsTyped(element, j, accept);
      }
    case Link(true, Some(expansion)) =>
      if j.JArr? {
        CleanArrayIsTyped(expansion.arrayOf, j, accept);
      }
    case Simple(kind) => TestsAgree(kind, j);
    case _ => TestsAgree(Bool, j);
  }

  lemma {:induction false} CleanElementIsTyped(element: Property, j: Json, accept: Constraint)
    ensures ElementOf(element, j, accept).None? <==> ElementTrips(element, j)
    ensures !ElementTrips(element, j) ==>
              (Clean(ElementOf(element, j, accept).value) <==> ElementTyped(element, j, accept))
    decreases j, 4
  {
    match element.typ
    case Simple(Integer) =>
    case Array(_) =>
    case Link(true, Some(_)) =>
      if j.JObj? {
        NothingKnown(j, accept);
      }
    case _ => CleanIsTyped(element, j, accept);
  }

  /** Without known names every name is reported as added. */
  lemma NothingKnown(j: Json, accept: Constraint)
    requires j.JObj?
    ensures ReportOf(NO_PROPERTIES, j, accept).Some?
    ensures Clean(ReportOf(NO_PROPERTIES, j, accept).value) <==> j == JObj(map[])
  {
    var report := ReportOf(NO_PROPERTIES, j, accept).value.report;
    assert report.added == j.fields.Keys;
    if j.fields.Keys == {} {
      assert j.fields == map[];
    }
  }

  lemma {:induction false} CleanArrayIsTyped(element: Property, j: Json, accept: Constraint)
    requires j.JArr?
    ensures ArrayOf(element, j, accept).None? <==> TripsArray(element, j)
    ensures !TripsArray(element, j) ==>
              (Clean(ArrayOf(element, j, accept).value) <==> TypedArray(element, j, accept))
    decreases j, 2
  {
    forall i {:trigger ElementAt(element, j, i, accept)} | 0 <= i < |j.items|
      ensures ElementAt(element, j, i, accept).None? <==> ElementTrips(element, j.items[i])
      ensures !ElementTrips(element, j.items[i]) ==>
                (Clean(ElementAt(element, j, i, accept).value) <==> ElementTyped(element, j.items[i], accept))
    {
      CleanElementIsTyped(element, j.items[i], accept);
    }
    if TripsArray(element, j) {
      var i :| 0 <= i < |j.items| && ElementTrips(element, j.items[i]);
      assert ElementAt(element, j, i, accept).None?;
    }
    if !TripsArray(element, j) {
      ElementsAreTyped(element, j, accept);
    }
  }

  lemma ElementsAreTyped(element: Property, j: Json, accept: Constraint)
    requires j.JArr? && forall i {:trigger ElementAt(element, j, i, accept)} :: 0 <= i < |j.items| ==>
               ElementAt(element, j, i, accept).Some? &&
               (Clean(ElementAt(element, j, i, accept).value) <==> ElementTyped(element, j.items[i], accept))
    ensures ArrayOf(element, j, accept).Some?
    ensures Clean(ArrayOf(element, j, accept).value) <==>
              forall i :: 0 <= i < |j.items| ==> ElementTyped(element, j.items[i], accept)
  {
    var elements := seq(|j.items|, i requires 0 <= i < |j.items| => ElementAt(element, j, i, accept).value);
    ArrayIs(element, j, accept, elements);
    assert forall i :: 0 <= i < |elements| ==> elements[i] == ElementAt(element, j, i, accept).value;
    if forall i :: 0 <= i < |j.items| ==> ElementTyped(element, j.items[i], accept) {
      forall i | 0 <= i < |elements|
        ensures Clean(elements[i])
      {
        assert ElementTyped(element, j.items[i], accept);
      }
    }
    if Clean(Elements(elements)) {
      forall i | 0 <= i < |j.items|
        ensures ElementTyped(element, j.items[i], accept)
      {
        assert Clean(elements[i]);
      }
    }
  }

  lemma {:induction false} CleanObjectIsTyped(schema: Schema, j: Json, accept: Constraint)
    requires j.JObj?
    ensures ReportOf(schema, j, accept).None? <==> TripsInside(schema, j)
    ensures !TripsInside(schema, j) ==>
              (Clean(ReportOf(schema, j, accept).value) <==> TypedObject(schema, j, accept))
    decreases j, 2
  {
    forall name | name in schema.props && name in j.fields
      ensures MemberAt(schema, j, name, accept).None? <==> Trips(schema.props[name], j.fields[name])
      ensures !Trips(schema.props[name], j.fields[name]) ==>
                (Clean(MemberAt(schema, j, name, accept).value) <==> Typed(schema.props[name], j.fields[name], accept))
    {
      CleanIsTyped(schema.props[name], j.fields[name], accept);
    }
    if !TripsInside(schema, j) {
      var report := ReportOf(schema, j, accept).value.report;
      assert report.added == {} <==> forall name :: name in j.fields ==> name in schema.props by {
        if report.added == {} {
          forall name | name in j.fields
            ensures name in schema.props
          {
            assert name !in report.added;
          }
        }
      }
      assert forall name :: name in report.verdicts ==>
               report.verdicts[name] == MemberAt(schema, j, name, accept).value;
    }
  }
}
