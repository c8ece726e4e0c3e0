/** `RedisInsert`: writing intermediate data key by key. */
module Insert {
  import opened Basics
  import opened Text
  import opened Redis
  import opened Schema

  datatype Outcome = Done | Error | Panicked

  // ---------- What is stored ----------

  /** The index whose decimal text is `name`, among 0..n. */
  function IndexNamed(name: string, n: nat): (i: Option<nat>)
    ensures i.Some? ==> i.value < n && FormatNat(i.value) == name
  {
    if n == 0 then None
    else if FormatNat(n - 1) == name then Some(n - 1)
    else IndexNamed(name, n - 1)
  }

  lemma {:induction false} IndexNamedFinds(i: nat, n: nat)
    requires i < n
    ensures IndexNamed(FormatNat(i), n) == Some(i)
  {
    if FormatNat(n - 1) == FormatNat(i) {
      FormatNatInjective(n - 1, i);
    } else {
      IndexNamedFinds(i, n - 1);
    }
  }

  function Indices(n: nat): seq<string> {
    seq(n, i requires 0 <= i < n => FormatNat(i))
  }

  /** go-redis accepts texts and, as the empty text, nil. */
  predicate Pushable(elements: seq<Inter>) {
    forall i :: 0 <= i < |elements| ==> elements[i].IStr? || elements[i].INil?
  }

  function PushText(e: Inter): string {
    if e.IStr? then e.text else ""
  }

  function PushTexts(elements: seq<Inter>): seq<string> {
    seq(|elements|, i requires 0 <= i < |elements| => PushText(elements[i]))
  }

  /** The value that inserting `v` under the empty keyspace `k[..i]` puts at key `k`. */
  function At(v: Inter, k: Key, i: nat): Option<Value>
    requires i <= |k|
    decreases v
  {
    match v
    case INil => None
    case IStr(text) => if i == |k| then Some(Str(text)) else None
    case IObj(fields) =>
      if i == |k| then Some(Set(fields.Keys))
      else if k[i] in fields then At(fields[k[i]], k, i + 1)
      else None
    case IArr(true, elements) =>
      if i == |k| then (if elements == [] then None else Some(List(Indices(|elements|))))
      else
        (match IndexNamed(k[i], |elements|)
         case Some(n) => At(elements[n], k, i + 1)
         case None => None)
    case IArr(false, elements) =>
      if i == |k| && elements != [] && Pushable(elements) then Some(List(PushTexts(elements))) else None
  }

  /** The subtree of `db` at `key` is exactly what `v` stands for. */
  ghost predicate Holds(db: Store, v: Inter, key: Key) {
    forall k :: Under(key, k) ==> Lookup(db, k) == At(v, k, |key|)
  }

  /** No empty object anywhere, and only objects in arrays of objects. */
  ghost predicate Insertable(v: Inter) {
    match v
    case IObj(fields) => fields != map[] && forall name :: name in fields ==> Insertable(fields[name])
    case IArr(true, elements) =>
      forall i :: 0 <= i < |elements| ==> elements[i].IObj? && Insertable(elements[i])
    case _ => true
  }

  lemma HoldsField(db: Store, fields: map<string, Inter>, key: Key, name: string)
    requires Holds(db, IObj(fields), key) && name in fields
    ensures Holds(db, fields[name], Child(key, name))
  {
    forall k | Under(Child(key, name), k)
      ensures Lookup(db, k) == At(fields[name], k, |key| + 1)
    {
      UnderChild(key, name, k);
      assert Lookup(db, k) == At(IObj(fields), k, |key|);
    }
  }

  lemma HoldsElement(db: Store, elements: seq<Inter>, key: Key, n: nat, name: string)
    requires Holds(db, IArr(true, elements), key) && IndexNamed(name, |elements|) == Some(n)
    ensures Holds(db, elements[n], Child(key, name))
  {
    forall k | Under(Child(key, name), k)
      ensures Lookup(db, k) == At(elements[n], k, |key| + 1)
    {
      UnderChild(key, name, k);
      assert Lookup(db, k) == At(IArr(true, elements), k, |key|);
    }
  }

  // ---------- Insertion into any store ----------

  /** What RPUSH leaves at `k`. */
  function Appended(db: Store, k: Key, items: seq<string>): Option<Value> {
    if items == [] || LRange(db, k).None? then Lookup(db, k) else Some(List(LRange(db, k).value + items))
  }

  /** The value at `k` after inserting `v` at `k[..i]`: texts replace what is there, sets and
      lists grow, and below a list that cannot grow nothing is stored. */
  function InsertAt(db: Store, v: Inter, k: Key, i: nat): Option<Value>
    requires i <= |k|
    decreases v
  {
    match v
    case INil => Lookup(db, k)
    case IStr(text) => if i == |k| then Some(Str(text)) else Lookup(db, k)
    case IObj(fields) =>
      if i == |k| then Some(Set(MembersOf(db, k) + fields.Keys))
      else if k[i] in fields then InsertAt(db, fields[k[i]], k, i + 1)
      else Lookup(db, k)
    case IArr(true, elements) =>
      if i == |k| then Appended(db, k, Indices(|elements|))
      else if LRange(db, k[..i]).None? then Lookup(db, k)
      else
        (match IndexNamed(k[i], |elements|)
         case Some(n) => InsertAt(db, elements[n], k, i + 1)
         case None => Lookup(db, k))
    case IArr(false, elements) =>
      if i == |k| && Pushable(elements) then Appended(db, k, PushTexts(elements)) else Lookup(db, k)
  }

  ghost predicate Inserted(db: Store, db': Store, v: Inter, key: Key) {
    forall k :: Lookup(db', k) == if Under(key, k) then InsertAt(db, v, k, |key|) else Lookup(db, k)
  }

  /** Where insertion panics: at an empty object, at a key of another type where an object's set
      belongs, and at an element that is no object. */
  ghost predicate InsertTrips(db: Store, v: Inter, key: Key)
    decreases v, 0
  {
    match v
    case IObj(fields) =>
      || fields == map[] || SMembers(db, key).None?
      || exists name :: name in fields && InsertTrips(db, fields[name], Child(key, name))
    case IArr(true, elements) =>
      && LRange(db, key).Some?
      && exists i :: 0 <= i < |elements| && ElementTrips(db, elements[i], Child(key, FormatNat(i)))
    case _ => false
  }

  ghost predicate ElementTrips(db: Store, v: Inter, key: Key)
    decreases v, 1
  {
    !v.IObj? || InsertTrips(db, v, key)
  }

  lemma {:induction false} InsertLocal(db: Store, db': Store, v: Inter, k: Key, i: nat)
    requires i <= |k| && SameAlong(db, db', k, i)
    ensures InsertAt(db, v, k, i) == InsertAt(db', v, k, i)
    decreases v
  {
    assert k[..|k|] == k;
    match v
    case IObj(fields) =>
      if i < |k| && k[i] in fields {
        InsertLocal(db, db', fields[k[i]], k, i + 1);
      }
    case IArr(true, elements) =>
      if i < |k| && IndexNamed(k[i], |elements|).Some? {
        InsertLocal(db, db', elements[IndexNamed(k[i], |elements|).value], k, i + 1);
      }
    case _ =>
  }

  lemma {:induction false} TripsLocal(db: Store, db': Store, v: Inter, key: Key)
    requires forall k :: Under(key, k) ==> Lookup(db, k) == Lookup(db', k)
    ensures InsertTrips(db, v, key) == InsertTrips(db', v, key)
    decreases v
  {
    assert Under(key, key) && Lookup(db, key) == Lookup(db', key);
    match v
    case IObj(fields) =>
      forall name | name in fields
        ensures InsertTrips(db, fields[name], Child(key, name)) == InsertTrips(db', fields[name], Child(key, name))
      {
        SameUnderChild(db, db', key, name);
        TripsLocal(db, db', fields[name], Child(key, name));
      }
    case IArr(true, elements) =>
      forall i | 0 <= i < |elements|
        ensures ElementTrips(db, elements[i], Child(key, FormatNat(i))) ==
                  ElementTrips(db', elements[i], Child(key, FormatNat(i)))
      {
        SameUnderChild(db, db', key, FormatNat(i));
        TripsLocal(db, db', elements[i], Child(key, FormatNat(i)));
      }
    case _ =>
  }

  lemma SameUnderChild(db: Store, db': Store, key: Key, name: string)
    requires forall k :: Under(key, k) ==> Lookup(db, k) == Lookup(db', k)
    ensures forall k :: Under(Child(key, name), k) ==> Lookup(db, k) == Lookup(db', k)
  {
    forall k | Under(Child(key, name), k)
      ensures Lookup(db, k) == Lookup(db', k)
    {
      UnderChild(key, name, k);
    }
  }

  // ---------- Insertion under an empty keyspace ----------

  lemma {:induction false} FreshAt(db: Store, v: Inter, key: Key, k: Key, i: nat)
    requires Fresh(db, key) && Under(key, k) && |key| <= i <= |k|
    ensures InsertAt(db, v, k, i) == At(v, k, i)
    decreases v
  {
    assert k[..i][..|key|] == k[..|key|] == key;
    assert Lookup(db, k) == None && Lookup(db, k[..i]) == None;
    match v
    case IObj(fields) =>
      if i == |k| {
        assert {} + fields.Keys == fields.Keys;
      } else if k[i] in fields {
        FreshAt(db, fields[k[i]], key, k, i + 1);
      }
    case IArr(true, elements) =>
      if i == |k| {
        assert [] + Indices(|elements|) == Indices(|elements|);
      } else if IndexNamed(k[i], |elements|).Some? {
        FreshAt(db, elements[IndexNamed(k[i], |elements|).value], key, k, i + 1);
      }
    case IArr(false, elements) =>
      assert [] + PushTexts(elements) == PushTexts(elements);
    case _ =>
  }

  lemma {:induction false} FreshTrips(db: Store, v: Inter, key: Key)
    requires Fresh(db, key)
    ensures InsertTrips(db, v, key) <==> !Insertable(v)
    decreases v
  {
    assert Under(key, key) && Lookup(db, key) == None;
    match v
    case IObj(fields) =>
      forall name | name in fields
        ensures InsertTrips(db, fields[name], Child(key, name)) <==> !Insertable(fields[name])
      {
        FreshChild(db, key, name);
        FreshTrips(db, fields[name], Child(key, name));
      }
    case IArr(true, elements) =>
      forall i | 0 <= i < |elements|
        ensures ElementTrips(db, elements[i], Child(key, FormatNat(i))) <==>
                  !elements[i].IObj? || !Insertable(elements[i])
      {
        FreshChild(db, key, FormatNat(i));
        FreshTrips(db, elements[i], Child(key, FormatNat(i)));
      }
    case _ =>
  }

  lemma FreshChild(db: Store, key: Key, name: string)
    requires Fresh(db, key)
    ensures Fresh(db, Child(key, name))
  {
    forall k | k in db
      ensures !Under(Child(key, name), k)
    {
      UnderChild(key, name, k);
    }
  }

  /** Under an empty keyspace insertion panics exactly on data that is not insertable, and
      otherwise the keyspace becomes exactly what the data stands for. */
  lemma FreshInserted(db: Store, db': Store, v: Inter, key: Key)
    requires Fresh(db, key)
    ensures InsertTrips(db, v, key) <==> !Insertable(v)
    ensures Inserted(db, db', v, key) ==> Holds(db', v, key) && Shows(db', v, key)
  {
    FreshTrips(db, v, key);
    forall k | Under(key, k)
      ensures InsertAt(db, v, k, |key|) == At(v, k, |key|)
    {
      FreshAt(db, v, key, k, |key|);
    }
  }

  // ---------- What shows of the data, whatever else is stored ----------

  /** `k` is a key that `v` at `k[..i]` speaks of: a null says that nothing lies at or beneath it. */
  predicate Reaches(v: Inter, k: Key, i: nat)
    requires i <= |k|
    decreases v
  {
    i == |k| ||
    match v
    case INil => true
    case IObj(fields) => k[i] in fields && Reaches(fields[k[i]], k, i + 1)
    case IArr(true, elements) =>
      (match IndexNamed(k[i], |elements|)
       case Some(n) => Reaches(elements[n], k, i + 1)
       case None => false)
    case _ => false
  }

  /** All that `v` speaks of is as it says; other keys may lie beneath `key` as well. */
  ghost predicate Shows(db: Store, v: Inter, key: Key) {
    forall k :: Under(key, k) && Reaches(v, k, |key|) ==> Lookup(db, k) == At(v, k, |key|)
  }

  lemma {:induction false} ShowsField(db: Store, fields: map<string, Inter>, key: Key, name: string)
    requires Shows(db, IObj(fields), key) && name in fields
    ensures Shows(db, fields[name], Child(key, name))
  {
    forall k | Under(Child(key, name), k) && Reaches(fields[name], k, |key| + 1)
      ensures Lookup(db, k) == At(fields[name], k, |key| + 1)
    {
      UnderChild(key, name, k);
      assert Reaches(IObj(fields), k, |key|);
      assert Lookup(db, k) == At(IObj(fields), k, |key|);
    }
  }

  lemma {:induction false} ShowsElement(db: Store, elements: seq<Inter>, key: Key, n: nat, name: string)
    requires Shows(db, IArr(true, elements), key) && IndexNamed(name, |elements|) == Some(n)
    ensures Shows(db, elements[n], Child(key, name))
  {
    forall k | Under(Child(key, name), k) && Reaches(elements[n], k, |key| + 1)
      ensures Lookup(db, k) == At(elements[n], k, |key| + 1)
    {
      UnderChild(key, name, k);
      assert Reaches(IArr(true, elements), k, |key|);
      assert Lookup(db, k) == At(IArr(true, elements), k, |key|);
    }
  }

  /** An old value at a key where the data says `says` does not show after the insertion. */
  predicate Covered(was: Value, says: Option<Value>) {
    match says
    case None => false
    case Some(Str(_)) => true
    case Some(Set(members)) => was.Set? && was.members <= members
    case Some(List(_)) => was == List([])
  }

  /** Nothing that lies where `v` speaks will show beside it. */
  ghost predicate Untraced(db: Store, v: Inter, key: Key) {
    forall k :: Under(key, k) && Reaches(v, k, |key|) && k in db ==> Covered(db[k], At(v, k, |key|))
  }

  lemma {:induction false} UntracedField(db: Store, fields: map<string, Inter>, key: Key, name: string)
    requires Untraced(db, IObj(fields), key) && name in fields
    ensures Untraced(db, fields[name], Child(key, name))
  {
    forall k | Under(Child(key, name), k) && Reaches(fields[name], k, |key| + 1) && k in db
      ensures Covered(db[k], At(fields[name], k, |key| + 1))
    {
      UnderChild(key, name, k);
      assert Reaches(IObj(fields), k, |key|);
    }
  }

  lemma {:induction false} UntracedElement(db: Store, elements: seq<Inter>, key: Key, n: nat, name: string)
    requires Untraced(db, IArr(true, elements), key) && IndexNamed(name, |elements|) == Some(n)
    ensures Untraced(db, elements[n], Child(key, name))
  {
    forall k | Under(Child(key, name), k) && Reaches(elements[n], k, |key| + 1) && k in db
      ensures Covered(db[k], At(elements[n], k, |key| + 1))
    {
      UnderChild(key, name, k);
      assert Reaches(IArr(true, elements), k, |key|);
    }
  }

  lemma {:induction false} CoveredAt(db: Store, v: Inter, k: Key, i: nat)
    requires i <= |k| && Untraced(db, v, k[..i]) && Reaches(v, k, i) && !InsertTrips(db, v, k[..i])
    ensures InsertAt(db, v, k, i) == At(v, k, i)
    decreases v
  {
    var key := k[..i];
    assert Under(key, key) && Reaches(v, key, |key|) && k[..|k|] == k;
    match v
    case INil =>
    case IStr(_) =>
    case IObj(fields) =>
      if i == |k| {
        assert MembersOf(db, k) + fields.Keys == fields.Keys;
      } else {
        assert k[..i + 1] == Child(key, k[i]);
        UntracedField(db, fields, key, k[i]);
        CoveredAt(db, fields[k[i]], k, i + 1);
      }
    case IArr(true, elements) =>
      if i == |k| {
        assert [] + Indices(|elements|) == Indices(|elements|);
      } else {
        var n := IndexNamed(k[i], |elements|).value;
        assert elements != [] && LRange(db, key) == Some([]);
        assert k[..i + 1] == Child(key, k[i]);
        UntracedElement(db, elements, key, n, k[i]);
        CoveredAt(db, elements[n], k, i + 1);
      }
    case IArr(false, elements) =>
      assert [] + PushTexts(elements) == PushTexts(elements);
  }

  lemma {:induction false} ShowingIsCovered(db: Store, v: Inter, k: Key, i: nat)
    requires i <= |k| && Reaches(v, k, i) && !InsertTrips(db, v, k[..i]) && k in db
    requires forall j {:trigger k[..j]} :: i <= j <= |k| ==> InsertAt(db, v, k[..j], i) == At(v, k[..j], i)
    ensures Covered(db[k], At(v, k, i))
    decreases v
  {
    var key := k[..i];
    assert k[..|k|] == k && InsertAt(db, v, k, i) == At(v, k, i);
    match v
    case INil =>
    case IStr(_) =>
    case IObj(fields) =>
      if i == |k| {
        assert db[k].members <= MembersOf(db, k) + fields.Keys;
      } else {
        assert k[..i + 1] == Child(key, k[i]);
        forall j {:trigger k[..j]} | i + 1 <= j <= |k|
          ensures InsertAt(db, fields[k[i]], k[..j], i + 1) == At(fields[k[i]], k[..j], i + 1)
        {
          assert k[..j][i] == k[i] && InsertAt(db, v, k[..j], i) == At(v, k[..j], i);
        }
        ShowingIsCovered(db, fields[k[i]], k, i + 1);
      }
    case IArr(true, elements) =>
      if i == |k| {
        ListGrew(db, k, Indices(|elements|));
      } else {
        var n := IndexNamed(k[i], |elements|).value;
        assert InsertAt(db, v, k[..i], i) == At(v, k[..i], i);
        assert key[..i] == key && Appended(db, key, Indices(|elements|)) == Some(List(Indices(|elements|)));
        assert LRange(db, key).Some?;
        assert FormatNat(n) == k[i] && k[..i + 1] == Child(key, FormatNat(n));
        forall j {:trigger k[..j]} | i + 1 <= j <= |k|
          ensures InsertAt(db, elements[n], k[..j], i + 1) == At(elements[n], k[..j], i + 1)
        {
          assert k[..j][i] == k[i] && k[..j][..i] == key && InsertAt(db, v, k[..j], i) == At(v, k[..j], i);
        }
        ShowingIsCovered(db, elements[n], k, i + 1);
      }
    case IArr(false, elements) =>
      if Pushable(elements) {
        ListGrew(db, k, PushTexts(elements));
      }
  }

  lemma ListGrew(db: Store, k: Key, items: seq<string>)
    requires k in db && Appended(db, k, items) == if items == [] then None else Some(List(items))
    ensures items != [] && db[k] == List([])
  {
    if LRange(db, k).Some? {
      assert |LRange(db, k).value + items| == |LRange(db, k).value| + |items|;
    }
  }

  /** After an insertion that does not panic, all that the data speaks of is as it says if and
      only if nothing that was there before shows beside it. */
  lemma ShowsExactly(db: Store, db': Store, v: Inter, key: Key)
    requires Inserted(db, db', v, key) && !InsertTrips(db, v, key)
    ensures Shows(db', v, key) <==> Untraced(db, v, key)
  {
    if Untraced(db, v, key) {
      forall k | Under(key, k) && Reaches(v, k, |key|)
        ensures Lookup(db', k) == At(v, k, |key|)
      {
        CoveredAt(db, v, k, |key|);
      }
    }
    if Shows(db', v, key) {
      forall k | Under(key, k) && Reaches(v, k, |key|) && k in db
        ensures Covered(db[k], At(v, k, |key|))
      {
        forall j {:trigger k[..j]} | |key| <= j <= |k|
          ensures InsertAt(db, v, k[..j], |key|) == At(v, k[..j], |key|)
        {
          assert k[..j][..|key|] == key;
          ReachesPrefix(v, k, |key|, j);
        }
        ShowingIsCovered(db, v, k, |key|);
      }
    }
  }

  lemma {:induction false} ReachesPrefix(v: Inter, k: Key, i: nat, j: nat)
    requires i <= j <= |k| && Reaches(v, k, i)
    ensures Reaches(v, k[..j], i)
    decreases v
  {
    if i < j {
      assert k[..j][i] == k[i];
      match v
      case IObj(fields) => ReachesPrefix(fields[k[i]], k, i + 1, j);
      case IArr(_, elements) => ReachesPrefix(elements[IndexNamed(k[i], |elements|).value], k, i + 1, j);
      case _ =>
    }
  }

  /** Where nothing shows, insertable data does not panic. */
  lemma {:induction false} UntracedIsSafe(db: Store, v: Inter, key: Key)
    requires Insertable(v) && Untraced(db, v, key)
    ensures !InsertTrips(db, v, key)
    decreases v
  {
    assert Under(key, key) && Reaches(v, key, |key|);
    match v
    case IObj(fields) =>
      forall name | name in fields
        ensures !InsertTrips(db, fields[name], Child(key, name))
      {
        UntracedField(db, fields, key, name);
        UntracedIsSafe(db, fields[name], Child(key, name));
      }
    case IArr(true, elements) =>
      forall i | 0 <= i < |elements|
        ensures !ElementTrips(db, elements[i], Child(key, FormatNat(i)))
      {
        IndexNamedFinds(i, |elements|);
        UntracedElement(db, elements, key, i, FormatNat(i));
        UntracedIsSafe(db, elements[i], Child(key, FormatNat(i)));
      }
    case _ =>
  }

  // ---------- Progress of the loops ----------

  /** The members `done` have been inserted, and nothing else is changed. */
  ghost predicate PartlyInserted(db: Store, db': Store, fields: map<string, Inter>, key: Key, done: set<string>) {
    forall k :: Lookup(db', k) ==
      if Under(key, k) && |key| < |k| && k[|key|] in done then InsertAt(db, IObj(fields), k, |key|) else Lookup(db, k)
  }

  lemma MemberInserted(db: Store, before: Store, after: Store, fields: map<string, Inter>, key: Key, done: set<string>,
                       name: string)
    requires PartlyInserted(db, before, fields, key, done) && name in fields && name !in done
    requires Inserted(before, after, fields[name], Child(key, name))
    ensures PartlyInserted(db, after, fields, key, done + {name})
  {
    var child := Child(key, name);
    UntouchedMember(db, before, fields, key, done, name);
    forall k
      ensures Lookup(after, k) ==
        if Under(key, k) && |key| < |k| && k[|key|] in done + {name} then InsertAt(db, IObj(fields), k, |key|)
        else Lookup(db, k)
    {
      UnderChild(key, name, k);
      if Under(child, k) {
        SameUnderAlong(db, before, child, k);
        InsertLocal(db, before, fields[name], k, |key| + 1);
      }
    }
  }

  lemma UntouchedMember(db: Store, before: Store, fields: map<string, Inter>, key: Key, done: set<string>, name: string)
    requires PartlyInserted(db, before, fields, key, done) && name !in done
    ensures forall k :: Under(Child(key, name), k) ==> Lookup(db, k) == Lookup(before, k)
  {
    forall k | Under(Child(key, name), k)
      ensures Lookup(db, k) == Lookup(before, k)
    {
      UnderChild(key, name, k);
    }
  }

  /** SADD of all names finishes the object. */
  lemma ObjectInserted(db: Store, before: Store, after: Store, fields: map<string, Inter>, key: Key)
    requires PartlyInserted(db, before, fields, key, fields.Keys) && SAdd(before, key, fields.Keys) == Some(after)
    ensures Inserted(db, after, IObj(fields), key)
  {
    assert Lookup(before, key) == Lookup(db, key);
    forall k
      ensures Lookup(after, k) == if Under(key, k) then InsertAt(db, IObj(fields), k, |key|) else Lookup(db, k)
    {
      assert Under(key, k) && |k| == |key| ==> k == key;
    }
  }

  lemma MemberTripsObject(db: Store, fields: map<string, Inter>, key: Key, name: string)
    requires name in fields && InsertTrips(db, fields[name], Child(key, name))
    ensures InsertTrips(db, IObj(fields), key)
  {
  }

  /** With no member that makes insertion panic, the SADD at the end decides. */
  lemma SAddDecides(db: Store, before: Store, fields: map<string, Inter>, key: Key)
    requires PartlyInserted(db, before, fields, key, fields.Keys)
    requires forall name :: name in fields ==> !InsertTrips(db, fields[name], Child(key, name))
    ensures Confined(db, before, key) && Lookup(before, key) == Lookup(db, key)
    ensures SAdd(before, key, fields.Keys).None? <==> InsertTrips(db, IObj(fields), key)
  {
  }

  /** The first `n` elements have been pushed and inserted. */
  ghost predicate PartlyPushed(db: Store, db': Store, elements: seq<Inter>, key: Key, n: nat)
    requires n <= |elements|
  {
    forall k :: Lookup(db', k) ==
      if !Under(key, k) then Lookup(db, k)
      else if |k| == |key| then Appended(db, key, Indices(n))
      else
        match IndexNamed(k[|key|], n)
        case Some(i) => InsertAt(db, elements[i], k, |key| + 1)
        case None => Lookup(db, k)
  }

  lemma PushStart(db: Store, elements: seq<Inter>, key: Key)
    ensures PartlyPushed(db, db, elements, key, 0)
  {
    forall k | Under(key, k) && |k| == |key|
      ensures k == key
    {
    }
    assert Indices(0) == [];
  }

  /** RPUSH of the next index. */
  lemma NextPush(db: Store, before: Store, elements: seq<Inter>, key: Key, n: nat)
    requires n < |elements| && PartlyPushed(db, before, elements, key, n)
    ensures RPush(before, key, [FormatNat(n)]).Some? <==> LRange(db, key).Some?
    ensures LRange(db, key).Some? ==>
              Lookup(RPush(before, key, [FormatNat(n)]).value, key) == Appended(db, key, Indices(n + 1))
  {
    assert Under(key, key) && Lookup(before, key) == Appended(db, key, Indices(n));
    assert Indices(n + 1) == Indices(n) + [FormatNat(n)];
    if LRange(db, key).Some? {
      var list := LRange(db, key).value;
      assert n == 0 ==> list + Indices(n) == list;
      assert LRange(before, key) == Some(list + Indices(n));
      AppendTwice(list, Indices(n), FormatNat(n));
    }
  }

  lemma AppendTwice(list: seq<string>, items: seq<string>, item: string)
    ensures list + items + [item] == list + (items + [item])
  {
  }

  lemma UntouchedElement(db: Store, before: Store, elements: seq<Inter>, key: Key, n: nat)
    requires n < |elements| && PartlyPushed(db, before, elements, key, n)
    ensures forall k :: Under(Child(key, FormatNat(n)), k) ==> Lookup(db, k) == Lookup(before, k)
  {
    forall k | Under(Child(key, FormatNat(n)), k)
      ensures Lookup(db, k) == Lookup(before, k)
    {
      UnderChild(key, FormatNat(n), k);
      NotBelow(n);
    }
  }

  lemma NotBelow(n: nat)
    ensures IndexNamed(FormatNat(n), n).None?
  {
    if IndexNamed(FormatNat(n), n).Some? {
      FormatNatInjective(IndexNamed(FormatNat(n), n).value, n);
    }
  }

  /** One more index among those that have a name. */
  lemma OneMoreIndex(name: string, n: nat)
    ensures IndexNamed(name, n + 1) == if name == FormatNat(n) then Some(n) else IndexNamed(name, n)
  {
  }

  lemma ElementLocal(db: Store, before: Store, pushed: Store, v: Inter, key: Key, name: string, k: Key)
    requires forall q :: Under(Child(key, name), q) ==> Lookup(db, q) == Lookup(before, q)
    requires RPush(before, key, [name]) == Some(pushed) && Under(Child(key, name), k)
    ensures InsertAt(db, v, k, |key| + 1) == InsertAt(pushed, v, k, |key| + 1)
  {
    forall q | Under(Child(key, name), q)
      ensures Lookup(db, q) == Lookup(pushed, q)
    {
      assert q != key;
    }
    SameUnderAlong(db, pushed, Child(key, name), k);
    InsertLocal(db, pushed, v, k, |key| + 1);
  }

  lemma ElementInserted(db: Store, before: Store, pushed: Store, after: Store, elements: seq<Inter>, key: Key, n: nat)
    requires n < |elements| && PartlyPushed(db, before, elements, key, n) && LRange(db, key).Some?
    requires RPush(before, key, [FormatNat(n)]) == Some(pushed)
    requires Inserted(pushed, after, elements[n], Child(key, FormatNat(n)))
    ensures PartlyPushed(db, after, elements, key, n + 1)
  {
    var name := FormatNat(n);
    var child := Child(key, name);
    UntouchedElement(db, before, elements, key, n);
    NextPush(db, before, elements, key, n);
    forall k
      ensures Lookup(after, k) ==
        if !Under(key, k) then Lookup(db, k)
        else if |k| == |key| then Appended(db, key, Indices(n + 1))
        else
          match IndexNamed(k[|key|], n + 1)
          case Some(i) => InsertAt(db, elements[i], k, |key| + 1)
          case None => Lookup(db, k)
    {
      UnderChild(key, name, k);
      assert Under(key, k) && |k| == |key| ==> k == key;
      if Under(child, k) {
        ElementLocal(db, before, pushed, elements[n], key, name, k);
      } else if Under(key, k) && |key| < |k| {
        OneMoreIndex(k[|key|], n);
      }
    }
  }

  lemma ArrayInserted(db: Store, db': Store, elements: seq<Inter>, key: Key)
    requires PartlyPushed(db, db', elements, key, |elements|) && (elements != [] ==> LRange(db, key).Some?)
    ensures Inserted(db, db', IArr(true, elements), key)
  {
    forall k
      ensures Lookup(db', k) == if Under(key, k) then InsertAt(db, IArr(true, elements), k, |key|) else Lookup(db, k)
    {
      assert Under(key, k) ==> k[..|key|] == key && (|k| == |key| ==> k == key);
    }
  }

  /** None of the first `n` elements makes insertion panic. */
  ghost predicate NoneTrips(db: Store, elements: seq<Inter>, key: Key, n: nat)
    requires n <= |elements|
  {
    forall i :: 0 <= i < n ==> !ElementTrips(db, elements[i], Child(key, FormatNat(i)))
  }

  lemma ElementTripsArray(db: Store, elements: seq<Inter>, key: Key, i: nat)
    requires i < |elements| && LRange(db, key).Some? && ElementTrips(db, elements[i], Child(key, FormatNat(i)))
    ensures InsertTrips(db, IArr(true, elements), key)
  {
  }

  lemma NoneTripsArray(db: Store, elements: seq<Inter>, key: Key)
    requires LRange(db, key).None? || NoneTrips(db, elements, key, |elements|)
    ensures !InsertTrips(db, IArr(true, elements), key)
  {
  }

  lemma NoneTripsNext(db: Store, elements: seq<Inter>, key: Key, n: nat)
    requires n < |elements| && NoneTrips(db, elements, key, n) &&
             !ElementTrips(db, elements[n], Child(key, FormatNat(n)))
    ensures NoneTrips(db, elements, key, n + 1)
  {
  }

  lemma PushedConfined(db: Store, db': Store, elements: seq<Inter>, key: Key, n: nat)
    requires n <= |elements| && PartlyPushed(db, db', elements, key, n)
    ensures Confined(db, db', key)
  {
  }

  /** Where the first index cannot be pushed nothing is stored. */
  lemma RefusedPush(db: Store, db': Store, elements: seq<Inter>, key: Key)
    requires PartlyPushed(db, db', elements, key, 0) && LRange(db, key).None?
    ensures Inserted(db, db', IArr(true, elements), key)
  {
    forall k
      ensures Lookup(db', k) == if Under(key, k) then InsertAt(db, IArr(true, elements), k, |key|) else Lookup(db, k)
    {
      assert Under(key, k) ==> k[..|key|] == key && (|k| == |key| ==> k == key);
    }
  }

  lemma SamePoint(key: Key)
    ensures forall k :: Under(key, k) && |k| == |key| ==> k == key
  {
  }

  // ---------- What a panic leaves ----------

  /** What an insertion that panics leaves: some members whole, and of one more what its own panic left; or
      all members, where the key itself refuses its names. */
  ghost predicate LeftByPanic(db: Store, db': Store, v: Inter, key: Key)
    decreases v, 1
  {
    match v
    case IObj(fields) =>
      || (NoneTripsOf(db, fields, key, fields.Keys) && PartlyInserted(db, db', fields, key, fields.Keys) &&
          SAdd(db', key, fields.Keys).None?)
      || exists done, mid, name :: MemberLeft(db, mid, db', v, key, done, name)
    case IArr(true, elements) => exists i, mid :: ElementLeft(db, mid, db', v, key, i)
    case _ => false
  }

  ghost predicate NoneTripsOf(db: Store, fields: map<string, Inter>, key: Key, names: set<string>) {
    forall name :: name in names && name in fields ==> !InsertTrips(db, fields[name], Child(key, name))
  }

  /** The members `done` are there, in the store `mid`, and then `name` panicked. */
  ghost predicate MemberLeft(db: Store, mid: Store, db': Store, v: Inter, key: Key, done: set<string>, name: string)
    decreases v, 0
  {
    && v.IObj? && name in v.fields && name !in done && NoneTripsOf(db, v.fields, key, done)
    && InsertTrips(db, v.fields[name], Child(key, name))
    && PartlyInserted(db, mid, v.fields, key, done)
    && Confined(mid, db', Child(key, name)) && LeftByPanic(mid, db', v.fields[name], Child(key, name))
  }

  /** The elements before `i` are there, in the store `mid`; the index `i` was pushed, and then its element
      panicked, or was no object. */
  ghost predicate ElementLeft(db: Store, mid: Store, db': Store, v: Inter, key: Key, i: nat)
    decreases v, 0
  {
    && v.IArr? && v.isObject && i < |v.elements| && NoneTrips(db, v.elements, key, i)
    && ElementTrips(db, v.elements[i], Child(key, FormatNat(i)))
    && PartlyPushed(db, mid, v.elements, key, i)
    && var pushed := RPush(mid, key, [FormatNat(i)]);
       && pushed.Some? && Confined(pushed.value, db', Child(key, FormatNat(i)))
       && if v.elements[i].IObj? then LeftByPanic(pushed.value, db', v.elements[i], Child(key, FormatNat(i)))
          else db' == pushed.value
  }

  /** Where only one member panics, this is the member that is left unfinished, in any order of the others. */
  lemma OnlyMemberLeft(db: Store, db': Store, v: Inter, key: Key, name: string) returns (mid: Store)
    requires v.IObj? && LeftByPanic(db, db', v, key) && name in v.fields
    requires forall n :: n in v.fields ==> (InsertTrips(db, v.fields[n], Child(key, n)) <==> n == name)
    ensures forall k :: Under(Child(key, name), k) ==> Lookup(mid, k) == Lookup(db, k)
    ensures LeftByPanic(mid, db', v.fields[name], Child(key, name)) && Confined(mid, db', Child(key, name))
  {
    var done, m, n :| MemberLeft(db, m, db', v, key, done, n);
    mid := m;
    UntouchedMember(db, mid, v.fields, key, done, name);
  }

  /** The indices up to the first element that panics are in the list, and the elements before it are stored. */
  lemma ListLeft(db: Store, db': Store, v: Inter, key: Key, i: nat)
    requires v.IArr? && v.isObject && LeftByPanic(db, db', v, key) && i < |v.elements|
    requires NoneTrips(db, v.elements, key, i) && ElementTrips(db, v.elements[i], Child(key, FormatNat(i)))
    ensures LRange(db, key).Some? && LRange(db', key) == Some(LRange(db, key).value + Indices(i + 1))
    ensures forall k, j: nat :: j < i && Under(Child(key, FormatNat(j)), k) ==>
              Lookup(db', k) == InsertAt(db, v.elements[j], k, |key| + 1)
    ensures var n := if v.elements[i].IObj? then i + 1 else i;
            forall k :: Under(key, k) && |key| < |k| && IndexNamed(k[|key|], n).None? ==>
              Lookup(db', k) == Lookup(db, k)
  {
    var at, mid :| ElementLeft(db, mid, db', v, key, at);
    assert at == i;
    NextPush(db, mid, v.elements, key, i);
    var pushed := RPush(mid, key, [FormatNat(i)]).value;
    assert !Under(Child(key, FormatNat(i)), key) && Lookup(db', key) == Lookup(pushed, key);
    forall k, j: nat | j < i && Under(Child(key, FormatNat(j)), k)
      ensures Lookup(db', k) == InsertAt(db, v.elements[j], k, |key| + 1)
    {
      ElementStays(db, mid, db', v.elements, key, i, j, k);
    }
    forall k | Under(key, k) && |key| < |k| && IndexNamed(k[|key|], if v.elements[i].IObj? then i + 1 else i).None?
      ensures Lookup(db', k) == Lookup(db, k)
    {
      OneMoreIndex(k[|key|], i);
      UnderChild(key, FormatNat(i), k);
      assert k != key;
    }
  }

  lemma ElementStays(db: Store, mid: Store, db': Store, elements: seq<Inter>, key: Key, i: nat, j: nat, k: Key)
    requires j < i < |elements| && PartlyPushed(db, mid, elements, key, i) && Under(Child(key, FormatNat(j)), k)
    requires RPush(mid, key, [FormatNat(i)]).Some? &&
             Confined(RPush(mid, key, [FormatNat(i)]).value, db', Child(key, FormatNat(i)))
    ensures Lookup(db', k) == InsertAt(db, elements[j], k, |key| + 1)
  {
    UnderChild(key, FormatNat(j), k);
    UnderChild(key, FormatNat(i), k);
    IndexNamedFinds(j, i);
    if FormatNat(i) == FormatNat(j) {
      FormatNatInjective(i, j);
    }
    assert k != key;
  }
}
