/** `Interface2Redis`: from a JSON payload to the intermediate data, under a schema. */
module Convert {
  import opened Basics
  import opened Text
  import opened Schema

  /** A callback that decides, per property and payload path, what is kept.  It is also
      told about unknown names, which are dropped; without a callback they are an error. */
  type Callback = Option<(Property, seq<string>) -> bool>

  /** What `structField2Redis` returns; `Bad` stands for its errors and panics. */
  datatype Conv = Conv(value: Inter, isNull: bool) | Bad

  predicate Accepts(cb: Callback, p: Property, path: seq<string>) {
    cb.Some? ==> cb.value(p, path)
  }

  /** Go's int64(float64): toward zero, and the most negative value when out of range. */
  function Int64OfFloat(x: real): int {
    var whole := if x < 0.0 then -((-x).Floor) else x.Floor;
    if MIN_INT64 <= whole <= MAX_INT64 then whole else MIN_INT64
  }

  /** Whole numbers of 64 bits are taken as they are. */
  lemma Int64IsExact(n: int)
    requires MIN_INT64 <= n <= MAX_INT64
    ensures Int64OfFloat(n as real) == n
  {
    if n < 0 {
      assert (-(n as real)) == (-n) as real;
    }
  }

  /** Fractions lose what is behind the point, and numbers beyond the range become the most negative one. */
  lemma Int64Truncates(x: real)
    ensures 0.0 <= x < (MAX_INT64 + 1) as real ==> Int64OfFloat(x) as real <= x < (Int64OfFloat(x) + 1) as real
    ensures (MIN_INT64 - 1) as real < x < 0.0 ==> (Int64OfFloat(x) - 1) as real < x <= Int64OfFloat(x) as real
    ensures x >= (MAX_INT64 + 1) as real || x <= (MIN_INT64 - 1) as real ==> Int64OfFloat(x) == MIN_INT64
  {
  }

  function SimpleText(kind: SimpleKind, j: Json): Option<string> {
    match (kind, j)
    case (Enum, JStr(s)) => Some(s)
    case (String, JStr(s)) => Some(s)
    case (Integer, JNum(n)) => Some(FormatInt(Int64OfFloat(n)))
    case (Bool, JBool(b)) => Some(FormatBool(b))
    case _ => None
  }

  function LinkText(j: Json): Option<string> {
    if j.JObj? && ODATA_ID in j.fields && j.fields[ODATA_ID].JStr? then Some(j.fields[ODATA_ID].s) else None
  }

  function LinkData(text: string): Inter {
    IObj(map[ODATA_ID := IStr(text)])
  }

  // ---------- What the conversion yields ----------

  ghost function ConvertField(p: Property, j: Json, path: seq<string>, cb: Callback): Conv
    decreases j, 3
  {
    if j.JNull? && p.nullAllowed then Conv(INil, Accepts(cb, p, path))
    else
      match ConvertValue(p, j, path, cb)
      case None => Bad
      case Some(v) => Conv(if Accepts(cb, p, path) then v else INil, false)
  }

  ghost function ConvertValue(p: Property, j: Json, path: seq<string>, cb: Callback): Option<Inter>
    decreases j, 2
  {
    match p.typ
    case Simple(kind) =>
      (match SimpleText(kind, j)
       case Some(text) => Some(IStr(text))
       case None => None)
    case Object(schema) =>
      if !j.JObj? then None
      else
        (match ConvertObject(schema, j, path, cb)
         case Some(fields) => Some(IObj(fields))
         case None => None)
    case Array(element) =>
      if !j.JArr? then None else ConvertArray(element, j, path, cb)
    case Link(isNav, _) =>
      if !j.JObj? then None
      else if isNav then Some(INil)
      else
        (match LinkText(j)
         case Some(text) => Some(LinkData(text))
         case None => None)
    case Action => Some(INil)
    case Unknown => None
  }

  ghost function ConvertElement(element: Property, j: Json, i: nat, path: seq<string>, cb: Callback): Conv
    requires j.JArr? && i < |j.items|
    decreases j, 0
  {
    ConvertField(element, j.items[i], path + [FormatNat(i)], cb)
  }

  ghost function ConvertArray(element: Property, j: Json, path: seq<string>, cb: Callback): Option<Inter>
    requires j.JArr?
    decreases j, 1
  {
    if exists i :: 0 <= i < |j.items| && ConvertElement(element, j, i, path, cb).Bad? then None
    else
      Some(IArr(!element.typ.Simple?, seq(|j.items|, i requires 0 <= i < |j.items| =>
        var c := ConvertElement(element, j, i, path, cb);
        if c.Bad? then INil else c.value)))
  }

  ghost function ConvertMember(schema: Schema, j: Json, name: string, path: seq<string>, cb: Callback): Conv
    requires j.JObj? && name in j.fields
    decreases j, 0
  {
    if name in schema.props then ConvertField(schema.props[name], j.fields[name], path + [name], cb)
    else if cb.None? then Bad
    else Conv(INil, false)
  }

  ghost predicate Kept(c: Conv) {
    c.Conv? && (!c.value.INil? || c.isNull)
  }

  ghost function ConvertObject(schema: Schema, j: Json, path: seq<string>, cb: Callback): Option<map<string, Inter>>
    requires j.JObj?
    decreases j, 1
  {
    if exists name :: name in j.fields && ConvertMember(schema, j, name, path, cb).Bad? then None
    else
      Some(map name | name in j.fields && Kept(ConvertMember(schema, j, name, path, cb)) ::
             ConvertMember(schema, j, name, path, cb).value)
  }

  // ---------- Links and unknown names ----------

  /** A plain link converts if and only if it has an @odata.id that is a text, which is then all that is taken of it;
      a navigation link converts whatever object it is, and leaves nothing. */
  lemma LinksConvert(p: Property, j: Json, path: seq<string>)
    requires p.typ.Link? && !j.JNull?
    ensures !p.typ.isNav ==>
              (ConvertField(p, j, path, None).Conv? <==>
                 j.JObj? && ODATA_ID in j.fields && j.fields[ODATA_ID].JStr?)
    ensures !p.typ.isNav && ConvertField(p, j, path, None).Conv? ==>
              ConvertField(p, j, path, None).value == IObj(map[ODATA_ID := IStr(j.fields[ODATA_ID].s)])
    ensures p.typ.isNav ==> ConvertField(p, j, path, None) == if j.JObj? then Conv(INil, false) else Bad
  {
  }

  function Known(schema: Schema, j: Json): Json
    requires j.JObj?
  {
    JObj(map name | name in j.fields && name in schema.props :: j.fields[name])
  }

  /** Without a callback an unknown name is an error; with one, conversion is that of the known members. */
  lemma UnknownNames(schema: Schema, j: Json, path: seq<string>, cb: Callback)
    requires j.JObj?
    ensures cb.None? && (exists name :: name in j.fields && name !in schema.props) ==>
              ConvertObject(schema, j, path, cb).None?
    ensures cb.Some? ==> ConvertObject(schema, j, path, cb) == ConvertObject(schema, Known(schema, j), path, cb)
  {
    var known := Known(schema, j);
    if name :| name in j.fields && name !in schema.props && cb.None? {
      assert ConvertMember(schema, j, name, path, cb).Bad?;
    }
    if cb.Some? {
      forall name | name in j.fields
        ensures name in schema.props ==>
                  name in known.fields &&
                  ConvertMember(schema, known, name, path, cb) == ConvertMember(schema, j, name, path, cb)
        ensures name !in schema.props ==> name !in known.fields && !ConvertMember(schema, j, name, path, cb).Bad?
        ensures name !in schema.props ==> !Kept(ConvertMember(schema, j, name, path, cb))
      {
      }
      if ConvertObject(schema, j, path, cb).Some? {
        assert ConvertObject(schema, j, path, cb).value == ConvertObject(schema, known, path, cb).value;
      }
    }
  }

  // ---------- The code ----------

  /** The result does not depend on the order in which the payload's map is walked. */
  method Interface2Redis(schema: Schema, j: Json, path: seq<string>, cb: Callback)
    returns (r: Option<map<string, Inter>>)
    requires j.JObj?
    ensures r == ConvertObject(schema, j, path, cb)
    decreases j, 0
  {
    var result: map<string, Inter> := map[];
    var todo := j.fields.Keys;
    while todo != {}
      invariant todo <= j.fields.Keys
      invariant forall name :: name in j.fields.Keys - todo ==> !ConvertMember(schema, j, name, path, cb).Bad?
      invariant forall name :: name in result <==>
                    name in j.fields.Keys - todo && Kept(ConvertMember(schema, j, name, path, cb))
      invariant forall name :: name in result ==> result[name] == ConvertMember(schema, j, name, path, cb).value
    {
      var name :| name in todo;
      if name in schema.props {
        var c := StructField2Redis(schema.props[name], j.fields[name], path + [name], cb);
        if c.Bad? {
          assert ConvertMember(schema, j, name, path, cb).Bad?;
          return None;
        }
        if !c.value.INil? || c.isNull {
          result := result[name := c.value];
        }
      } else if cb.None? {
        assert ConvertMember(schema, j, name, path, cb).Bad?;
        return None;
      }
      todo := todo - {name};
    }
    r := Some(result);
    assert result == ConvertObject(schema, j, path, cb).value;
  }

  method StructField2Redis(p: Property, j: Json, path: seq<string>, cb: Callback) returns (c: Conv)
    ensures c == ConvertField(p, j, path, cb)
    decreases j, 1
  {
    var accepts := cb.Some? ==> cb.value(p, path);
    if j.JNull? && p.nullAllowed {
      return Conv(INil, accepts);
    }
    var v: Option<Inter> := None;
    match p.typ {
      case Object(schema) =>
        if j.JObj? {
          var fields := Interface2Redis(schema, j, path, cb);
          if fields.Some? {
            v := Some(IObj(fields.value));
          }
        }
      case Action => v := Some(INil);
      case Simple(kind) =>
        var text := SimpleText(kind, j);
        if text.Some? {
          v := Some(IStr(text.value));
        }
      case Array(element) =>
        if j.JArr? {
          v := StructArray2Redis(element, j, path, cb);
        }
      case Link(isNav, _) =>
        if j.JObj? {
          if isNav {
            v := Some(INil);
          } else {
            var text := LinkText(j);
            if text.Some? {
              v := Some(LinkData(text.value));
            }
          }
        }
      case Unknown =>
    }
    if v.None? {
      return Bad;
    }
    c := Conv(if accepts then v.value else INil, false);
  }

  method StructArray2Redis(element: Property, j: Json, path: seq<string>, cb: Callback) returns (r: Option<Inter>)
    requires j.JArr?
    ensures r == ConvertArray(element, j, path, cb)
    decreases j, 0
  {
    var elements: seq<Inter> := [];
    var i := 0;
    while i < |j.items|
      invariant 0 <= i == |elements| <= |j.items|
      invariant forall n :: 0 <= n < i ==> !ConvertElement(element, j, n, path, cb).Bad?
      invariant forall n :: 0 <= n < i ==> elements[n] == ConvertElement(element, j, n, path, cb).value
    {
      var c := StructField2Redis(element, j.items[i], path + [FormatNat(i)], cb);
      assert c == ConvertElement(element, j, i, path, cb);
      if c.Bad? {
        return None;
      }
      elements := elements + [c.value];
      i := i + 1;
    }
    r := Some(IArr(!element.typ.Simple?, elements));
    assert ConvertArray(element, j, path, cb).Some?;
    assert elements == ConvertArray(element, j, path, cb).value.elements;
  }
}
