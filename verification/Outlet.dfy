/** Outlet names of JAWS power distribution units, and the cached keys that depend on them. */
module Outlet {
  import opened Basics
  import opened Text
  import opened Redis
  import opened Dispatcher

  // ---------- The two translators ----------

  /** fmt's %.2d: at least two digits, after the sign. */
  function Pad(n: int): string
    decreases n < 0
  {
    if n < 0 then "-" + Pad(-n) else if n < 10 then "0" + FormatNat(n) else FormatNat(n)
  }

  /** The unit and the number of an outlet. */
  function Parts(outlet: string): Option<(string, int)> {
    if |outlet| < 3 then None
    else
      match ParseInt(outlet[2..])
      case None => None
      case Some(id) => Some((outlet[..2], id))
  }

  function ToRedfish(outlet: string): Option<string> {
    match Parts(outlet)
    case None => None
    case Some((unit, id)) => Some(unit + Pad(id))
  }

  function ToJaws(outlet: string): Option<string> {
    match Parts(outlet)
    case None => None
    case Some((unit, id)) => Some(unit + FormatInt(id))
  }

  // ---------- Printing and parsing ----------

  lemma LeadingZero(digits: string)
    requires AllDigits(digits)
    ensures AllDigits("0" + digits) && Decimal("0" + digits) == Decimal(digits)
    decreases |digits|
  {
    var s := "0" + digits;
    if digits == [] {
      assert s[..|s| - 1] == [];
    } else {
      assert s[..|s| - 1] == "0" + digits[..|digits| - 1];
      LeadingZero(digits[..|digits| - 1]);
    }
  }

  lemma PadDigits(n: nat)
    ensures Pad(n) != [] && AllDigits(Pad(n)) && Decimal(Pad(n)) == n
  {
    FormatNatDigits(n);
    LeadingZero(FormatNat(n));
  }

  lemma ParsePad(n: int)
    requires MIN_INT64 <= n <= MAX_INT64
    ensures ParseInt(Pad(n)) == Some(n)
  {
    var magnitude: nat := if n < 0 then -n else n;
    PadDigits(magnitude);
    if n < 0 {
      assert Pad(n)[1..] == Pad(-n);
    } else {
      assert IsDigit(Pad(n)[0]);
    }
  }

  lemma ParseInRange(s: string)
    requires ParseInt(s).Some?
    ensures MIN_INT64 <= ParseInt(s).value <= MAX_INT64
  {
  }

  /** Both forms of a name have the same parts. */
  lemma PartsOfForms(unit: string, id: int)
    requires |unit| == 2 && MIN_INT64 <= id <= MAX_INT64
    ensures Parts(unit + Pad(id)) == Some((unit, id)) && Parts(unit + FormatInt(id)) == Some((unit, id))
  {
    ParsePad(id);
    ParseFormatInt(id);
    assert (unit + Pad(id))[2..] == Pad(id) && (unit + Pad(id))[..2] == unit;
    assert (unit + FormatInt(id))[2..] == FormatInt(id) && (unit + FormatInt(id))[..2] == unit;
  }

  // ---------- Inverses ----------

  /** The number is written as JAWS writes it. */
  predicate JawsName(outlet: string) {
    Parts(outlet).Some? && outlet == Parts(outlet).value.0 + FormatInt(Parts(outlet).value.1)
  }

  /** The number is written as Redfish writes it. */
  predicate RedfishName(outlet: string) {
    Parts(outlet).Some? && outlet == Parts(outlet).value.0 + Pad(Parts(outlet).value.1)
  }

  /** The translators accept the same names, always yield a name of the other kind, and are
      inverse to each other exactly on the names of their own kind. */
  lemma TranslatorsAreInverse(outlet: string)
    ensures ToRedfish(outlet).Some? <==> ToJaws(outlet).Some?
    ensures ToRedfish(outlet).Some? ==> RedfishName(ToRedfish(outlet).value) && JawsName(ToJaws(outlet).value)
    ensures ToRedfish(outlet).Some? ==> (ToJaws(ToRedfish(outlet).value) == Some(outlet) <==> JawsName(outlet))
    ensures ToJaws(outlet).Some? ==> (ToRedfish(ToJaws(outlet).value) == Some(outlet) <==> RedfishName(outlet))
  {
    if Parts(outlet).Some? {
      var (unit, id) := Parts(outlet).value;
      ParseInRange(outlet[2..]);
      PartsOfForms(unit, id);
    }
  }

  /** Different outlets have different Redfish names. */
  lemma RedfishNamesDiffer(unit: string, id: int, unit': string, id': int)
    requires |unit| == 2 && |unit'| == 2 && MIN_INT64 <= id <= MAX_INT64 && MIN_INT64 <= id' <= MAX_INT64
    ensures unit + Pad(id) == unit' + Pad(id') <==> unit == unit' && id == id'
  {
    PartsOfForms(unit, id);
    PartsOfForms(unit', id');
  }

  // ---------- Order ----------

  predicate Before(s: string, t: string) {
    t != [] && (s == [] || s[0] < t[0] || (s[0] == t[0] && Before(s[1..], t[1..])))
  }

  lemma {:induction false} BeforeUnit(unit: string, s: string, t: string)
    ensures Before(unit + s, unit + t) <==> Before(s, t)
  {
    if unit == [] {
      assert unit + s == s && unit + t == t;
    } else {
      assert (unit + s)[1..] == unit[1..] + s && (unit + t)[1..] == unit[1..] + t;
      BeforeUnit(unit[1..], s, t);
    }
  }

  /** Texts of the same length: the last character decides only among equal beginnings. */
  lemma {:induction false} BeforeSnoc(s: string, t: string, a: char, b: char)
    requires |s| == |t|
    ensures Before(s + [a], t + [b]) <==> Before(s, t) || (s == t && a < b)
  {
    if s == [] {
      assert s + [a] == [a] && t + [b] == [b];
    } else {
      assert (s + [a])[1..] == s[1..] + [a] && (t + [b])[1..] == t[1..] + [b];
      BeforeSnoc(s[1..], t[1..], a, b);
      assert s == t <==> s[0] == t[0] && s[1..] == t[1..];
    }
  }

  /** Texts of digits of the same length are ordered as their values. */
  lemma {:induction false} BeforeIsLess(s: string, t: string)
    requires |s| == |t| && AllDigits(s) && AllDigits(t)
    ensures Before(s, t) <==> Decimal(s) < Decimal(t)
    ensures s == t <==> Decimal(s) == Decimal(t)
    decreases |s|
  {
    if s != [] {
      var n := |s| - 1;
      assert s == s[..n] + [s[n]] && t == t[..n] + [t[n]];
      BeforeSnoc(s[..n], t[..n], s[n], t[n]);
      BeforeIsLess(s[..n], t[..n]);
    }
  }

  /** Outlets of one unit whose numbers have equally many digits sort by number. */
  lemma SortsByNumber(unit: string, a: nat, b: nat)
    requires |Pad(a)| == |Pad(b)|
    ensures Before(unit + Pad(a), unit + Pad(b)) <==> a < b
  {
    BeforeUnit(unit, Pad(a), Pad(b));
    PadDigits(a);
    PadDigits(b);
    BeforeIsLess(Pad(a), Pad(b));
  }

  /** Below one hundred all outlets of a unit do. */
  lemma SortsBelowHundred(unit: string, a: nat, b: nat)
    requires a < 100 && b < 100
    ensures Before(unit + Pad(a), unit + Pad(b)) <==> a < b
  {
    PadWidth(a);
    PadWidth(b);
    SortsByNumber(unit, a, b);
  }

  lemma PadWidth(n: nat)
    requires n < 100
    ensures |Pad(n)| == 2
  {
    if n >= 10 {
      assert |FormatNat(n / 10)| == 1;
    }
  }

  /** 100 comes before 11. */
  lemma HundredSortsWrong(unit: string)
    ensures Before(unit + Pad(100), unit + Pad(11)) && !(100 < 11)
  {
    BeforeUnit(unit, Pad(100), Pad(11));
    assert FormatNat(100) == FormatNat(10) + "0" && FormatNat(10) == "1" + "0" && FormatNat(11) == "1" + "1";
    assert Pad(100) == "100" && Pad(11) == "11";
    assert Pad(100)[1..] == "00" && Pad(11)[1..] == "1";
  }

  /** All outlets of a unit numbered below `bound` sort by number. */
  ghost predicate AllSort(unit: string, bound: nat) {
    forall a: nat, b: nat :: a < bound && b < bound ==> (Before(unit + Pad(a), unit + Pad(b)) <==> a < b)
  }

  lemma SortsExactlyBelowHundred(unit: string, bound: nat)
    ensures AllSort(unit, bound) <==> bound <= 100
  {
    if bound <= 100 {
      forall a: nat, b: nat | a < bound && b < bound
        ensures Before(unit + Pad(a), unit + Pad(b)) <==> a < b
      {
        SortsBelowHundred(unit, a, b);
      }
    } else {
      HundredSortsWrong(unit);
    }
  }

  // ---------- Cached keys ----------

  const RACK_PDUS := ["redfish", "v1", "PowerEquipment", "RackPDUs"]

  function PowerStateKey(xname: string, pdu: string, outlet: string): Key {
    [xname] + RACK_PDUS + [pdu, "Outlets", outlet, "PowerState"]
  }

  /** A power control: the outlet to switch, by its JAWS name; the cached state is dropped. */
  method PowerControl(d: Dispatcher, xname: string, pdu: string, outlet: string) returns (jaws: Option<string>)
    modifies d
    ensures jaws == ToJaws(outlet)
    ensures d.db == if jaws.Some? then Del(old(d.db), PowerStateKey(xname, pdu, outlet)) else old(d.db)
  {
    jaws := ToJaws(outlet);
    if jaws.Some? {
      d.db := Del(d.db, PowerStateKey(xname, pdu, outlet));
    }
  }

  /** A monitor read of one outlet, by its JAWS name, caches its state. */
  method MonitorOutlet(d: Dispatcher, xname: string, pdu: string, jaws: string, state: string) returns (ok: bool)
    modifies d
    ensures ok <==> ToRedfish(jaws).Some?
    ensures d.db == if ok then old(d.db)[PowerStateKey(xname, pdu, ToRedfish(jaws).value) := Str(state)] else old(d.db)
  {
    match ToRedfish(jaws) {
      case None => return false;
      case Some(outlet) =>
        d.db := d.db[PowerStateKey(xname, pdu, outlet) := Str(state)];
        return true;
    }
  }

  /** A request for the state of one outlet that the cache could not answer: the answer of the device,
      whatever name it carries, is cached, and the requested key is read again. */
  method PowerState(d: Dispatcher, xname: string, pdu: string, outlet: string, jaws: string, state: string)
    returns (value: Option<string>)
    modifies d
    ensures ToJaws(outlet).Some? && ToRedfish(jaws).Some? ==>
              value == Get(d.db, PowerStateKey(xname, pdu, outlet)) &&
              Cached(old(d.db), d.db, xname, [Monitor(pdu, jaws, state)])
    ensures ToJaws(outlet).None? || ToRedfish(jaws).None? ==> value == None && d.db == old(d.db)
    ensures ToJaws(outlet) == Some(jaws) && RedfishName(outlet) ==> value == Some(state)
    ensures ToJaws(outlet) == Some(jaws) && !RedfishName(outlet) ==>
              value == old(Get(d.db, PowerStateKey(xname, pdu, outlet)))
  {
    if ToJaws(outlet).None? {
      return None;
    }
    PartsOfOwnName(outlet);
    var ok := MonitorOutlet(d, xname, pdu, jaws, state);
    if !ok {
      return None;
    }
    OneStep(old(d.db), d.db, xname, Monitor(pdu, jaws, state));
    ReadFills(xname, pdu, outlet, jaws);
    return Get(d.db, PowerStateKey(xname, pdu, outlet));
  }

  /** Switching an outlet and asking for its state under the same name gives the new state if and only if
      that is the Redfish name; under any other nothing is found. */
  method ControlThenRead(d: Dispatcher, xname: string, pdu: string, outlet: string, state: string)
    returns (value: Option<string>)
    modifies d
    ensures value == if RedfishName(outlet) then Some(state) else None
    ensures ToJaws(outlet).Some? ==>
              Cached(old(d.db), d.db, xname, [Control(pdu, outlet), Monitor(pdu, ToJaws(outlet).value, state)])
  {
    var jaws := PowerControl(d, xname, pdu, outlet);
    if jaws.None? {
      return None;
    }
    ghost var dropped := d.db;
    OneStep(old(d.db), dropped, xname, Control(pdu, outlet));
    value := PowerState(d, xname, pdu, outlet, jaws.value, state);
    TranslatorsAreInverse(outlet);
    PartsOfOwnName(outlet);
    OneMore(old(d.db), dropped, d.db, xname, [Control(pdu, outlet)], Monitor(pdu, jaws.value, state));
    assert [Control(pdu, outlet)] + [Monitor(pdu, jaws.value, state)] ==
             [Control(pdu, outlet), Monitor(pdu, jaws.value, state)];
  }

  lemma KeysDiffer(xname: string, pdu: string, outlet: string, pdu': string, outlet': string)
    ensures PowerStateKey(xname, pdu, outlet) == PowerStateKey(xname, pdu', outlet') <==>
              pdu == pdu' && outlet == outlet'
  {
    var key, key' := PowerStateKey(xname, pdu, outlet), PowerStateKey(xname, pdu', outlet');
    assert key[5] == pdu && key'[5] == pdu' && key[7] == outlet && key'[7] == outlet';
  }

  lemma PartsOfOwnName(outlet: string)
    ensures ToJaws(outlet).Some? ==> Parts(ToJaws(outlet).value) == Parts(outlet)
  {
    if Parts(outlet).Some? {
      ParseInRange(outlet[2..]);
      PartsOfForms(Parts(outlet).value.0, Parts(outlet).value.1);
    }
  }

  /** The key that a power control drops is filled again by a read, whatever the name in it, if and only
      if the request used a Redfish name and the read is of the outlet with the same parts. */
  lemma ReadFills(xname: string, pdu: string, outlet: string, jaws: string)
    requires ToRedfish(jaws).Some?
    ensures PowerStateKey(xname, pdu, ToRedfish(jaws).value) == PowerStateKey(xname, pdu, outlet) <==>
              RedfishName(outlet) && Parts(jaws) == Parts(outlet)
  {
    KeysDiffer(xname, pdu, outlet, pdu, ToRedfish(jaws).value);
    ParseInRange(jaws[2..]);
    PartsOfForms(Parts(jaws).value.0, Parts(jaws).value.1);
  }

  // ---------- Controls and reads in any order ----------

  datatype Step = Control(pdu: string, outlet: string) | Monitor(pdu: string, jaws: string, state: string)

  /** The step writes or drops the cached state under this name. */
  predicate Concerns(step: Step, pdu: string, outlet: string) {
    step.pdu == pdu &&
    match step
    case Control(_, name) => ToJaws(name).Some? && name == outlet
    case Monitor(_, jaws, _) => ToRedfish(jaws) == Some(outlet)
  }

  function Left(step: Step): Option<Value> {
    if step.Control? then None else Some(Str(step.state))
  }

  /** What the latest step that concerns the name left, or what was there before all of them. */
  function Latest(steps: seq<Step>, pdu: string, outlet: string, before: Option<Value>): Option<Value> {
    if steps == [] then before
    else
      var last := steps[|steps| - 1];
      if Concerns(last, pdu, outlet) then Left(last) else Latest(steps[..|steps| - 1], pdu, outlet, before)
  }

  ghost predicate Cached(db: Store, db': Store, xname: string, steps: seq<Step>) {
    && (forall pdu, outlet ::
          var key := PowerStateKey(xname, pdu, outlet);
          Lookup(db', key) == Latest(steps, pdu, outlet, Lookup(db, key)))
    && forall k :: (forall pdu, outlet :: k != PowerStateKey(xname, pdu, outlet)) ==> Lookup(db', k) == Lookup(db, k)
  }

  /** After any run of controls and reads the cache holds, for every unit and every name, what the latest
      step that concerns it left, and no other key has changed. */
  method Run(d: Dispatcher, xname: string, steps: seq<Step>)
    modifies d
    ensures Cached(old(d.db), d.db, xname, steps)
  {
    for i := 0 to |steps|
      invariant Cached(old(d.db), d.db, xname, steps[..i])
    {
      ghost var before := d.db;
      match steps[i] {
        case Control(pdu, outlet) =>
          var _ := PowerControl(d, xname, pdu, outlet);
        case Monitor(pdu, jaws, state) =>
          var _ := MonitorOutlet(d, xname, pdu, jaws, state);
      }
      OneStep(before, d.db, xname, steps[i]);
      OneMore(old(d.db), before, d.db, xname, steps[..i], steps[i]);
      assert steps[..i + 1] == steps[..i] + [steps[i]];
    }
    assert steps[..|steps|] == steps;
  }

  ghost function Stepped(db: Store, xname: string, step: Step): Store {
    match step
    case Control(pdu, outlet) =>
      if ToJaws(outlet).Some? then Del(db, PowerStateKey(xname, pdu, outlet)) else db
    case Monitor(pdu, jaws, state) =>
      if ToRedfish(jaws).Some? then db[PowerStateKey(xname, pdu, ToRedfish(jaws).value) := Str(state)] else db
  }

  lemma OneStep(db: Store, db': Store, xname: string, step: Step)
    requires db' == Stepped(db, xname, step)
    ensures Cached(db, db', xname, [step])
  {
    forall pdu, outlet
      ensures Lookup(db', PowerStateKey(xname, pdu, outlet)) ==
                Latest([step], pdu, outlet, Lookup(db, PowerStateKey(xname, pdu, outlet)))
    {
      match step
      case Control(pdu', name) => KeysDiffer(xname, pdu, outlet, pdu', name);
      case Monitor(pdu', jaws, _) =>
        if ToRedfish(jaws).Some? {
          KeysDiffer(xname, pdu, outlet, pdu', ToRedfish(jaws).value);
        }
    }
  }

  lemma OneMore(db: Store, before: Store, after: Store, xname: string, steps: seq<Step>, step: Step)
    requires Cached(db, before, xname, steps) && Cached(before, after, xname, [step])
    ensures Cached(db, after, xname, steps + [step])
  {
    forall pdu, outlet
      ensures Lookup(after, PowerStateKey(xname, pdu, outlet)) ==
                Latest(steps + [step], pdu, outlet, Lookup(db, PowerStateKey(xname, pdu, outlet)))
    {
      var key := PowerStateKey(xname, pdu, outlet);
      LatestSplit(steps, [step], pdu, outlet, Lookup(db, key));
      assert Lookup(before, key) == Latest(steps, pdu, outlet, Lookup(db, key));
      assert Lookup(after, key) == Latest([step], pdu, outlet, Lookup(before, key));
    }
  }

  /** Only the steps after the latest control matter to the name that it used. */
  lemma {:induction false} LatestSplit(steps: seq<Step>, more: seq<Step>, pdu: string, outlet: string,
                                       before: Option<Value>)
    ensures Latest(steps + more, pdu, outlet, before) == Latest(more, pdu, outlet, Latest(steps, pdu, outlet, before))
  {
    if more == [] {
      assert steps + more == steps;
    } else {
      var n := |more| - 1;
      assert (steps + more)[..|steps + more| - 1] == steps + more[..n];
      LatestSplit(steps, more[..n], pdu, outlet, before);
    }
  }

  /** A control and the states that reads of the outlet cache.  What a read finds under the Redfish name after
      the control is never older than the control if the request used that name; in any other spelling
      the control makes no difference to it, so what was cached before is still served. */
  lemma ControlForgetsExactly(earlier: seq<Step>, later: seq<Step>, pdu: string, outlet: string, before: Option<Value>)
    requires ToJaws(outlet).Some?
    ensures var name := ToRedfish(outlet).value;
            Latest(earlier + [Control(pdu, outlet)] + later, pdu, name, before) ==
              if RedfishName(outlet) then Latest(later, pdu, name, None) else Latest(earlier + later, pdu, name, before)
  {
    var name := ToRedfish(outlet).value;
    var control := [Control(pdu, outlet)];
    LatestSplit(earlier + control, later, pdu, name, before);
    LatestSplit(earlier, control, pdu, name, before);
    LatestSplit(earlier, later, pdu, name, before);
    assert RedfishName(outlet) <==> name == outlet;
    assert control[..0] == [];
  }

  /** Under the name of the request nothing older than the control is ever found; a read of the switched
      outlet right after it is found there if and only if the request used the Redfish name. */
  lemma ReadAfterControl(earlier: seq<Step>, pdu: string, outlet: string, jaws: string, state: string,
                         before: Option<Value>)
    requires ToJaws(outlet).Some?
    ensures Latest(earlier + [Control(pdu, outlet), Monitor(pdu, jaws, state)], pdu, outlet, before) ==
              if RedfishName(outlet) && Parts(jaws) == Parts(outlet) then Some(Str(state)) else None
  {
    var both := [Control(pdu, outlet), Monitor(pdu, jaws, state)];
    LatestSplit(earlier, both, pdu, outlet, before);
    assert both[..1] == [Control(pdu, outlet)];
    if ToRedfish(jaws).Some? {
      ReadFills("", pdu, outlet, jaws);
    }
  }
}
