/** `RedisPatch`: what it leaves at every key, and when it panics. */
module Patch {
  import opened Basics
  import opened Redis
  import opened Schema
  import opened Remove

  function Nulls(fields: map<string, Inter>): set<string> {
    set name | name in fields && fields[name].INil?
  }

  function Values(fields: map<string, Inter>): set<string> {
    set name | name in fields && !fields[name].INil?
  }

  function SetOrGone(members: set<string>): Option<Value> {
    if members == {} then None else Some(Set(members))
  }

  /** The member set after the members `done` of the patch have been handled. */
  function OwnAfter(db: Store, key: Key, fields: map<string, Inter>, done: set<string>): Option<Value> {
    if done == {} then Lookup(db, key)
    else SetOrGone(MembersOf(db, key) - Nulls(fields) * done + Values(fields) * done)
  }

  /** What a null leaves at `k` when it removes the member at `k[..i]`: a text and an object
      go, a list stays. */
  function NulledAt(db: Store, k: Key, i: nat): Option<Value>
    requires i <= |k|
  {
    match Lookup(db, k[..i])
    case Some(Str(_)) => if i == |k| then None else Lookup(db, k)
    case Some(Set(_)) => if ObjectDeletes(db, None, k, i) then None else Lookup(db, k)
    case _ => Lookup(db, k)
  }

  /** The value at `k` after patching `v` into `k[..i]`. */
  function PatchAt(db: Store, v: Inter, k: Key, i: nat): Option<Value>
    requires i <= |k|
    decreases v
  {
    match v
    case IStr(text) => if i == |k| then Some(Str(text)) else Lookup(db, k)
    case IObj(fields) =>
      if i == |k| then OwnAfter(db, k, fields, fields.Keys)
      else if k[i] !in fields then Lookup(db, k)
      else if fields[k[i]].INil? then NulledAt(db, k, i + 1)
      else PatchAt(db, fields[k[i]], k, i + 1)
    case _ => Lookup(db, k)
  }

  ghost predicate Patched(db: Store, db': Store, v: Inter, key: Key) {
    forall k :: Lookup(db', k) == if Under(key, k) then PatchAt(db, v, k, |key|) else Lookup(db, k)
  }

  /** Arrays panic, and so does a key that holds no set where a member set is needed. */
  ghost predicate PatchSafe(db: Store, v: Inter, key: Key)
    decreases v
  {
    match v
    case IArr(_, _) => false
    case IObj(fields) =>
      fields != map[] ==>
        SMembers(db, key).Some? && forall name :: name in fields ==> PatchSafe(db, fields[name], Child(key, name))
    case _ => true
  }

  // ---------- Locality ----------

  lemma NulledLocal(db: Store, db': Store, k: Key, i: nat)
    requires i <= |k| && SameAlong(db, db', k, i)
    ensures NulledAt(db, k, i) == NulledAt(db', k, i)
  {
    ObjectLocal(db, db', None, k, i);
    assert k[..|k|] == k;
  }

  lemma {:induction false} PatchLocal(db: Store, db': Store, v: Inter, k: Key, i: nat)
    requires i <= |k| && SameAlong(db, db', k, i)
    ensures PatchAt(db, v, k, i) == PatchAt(db', v, k, i)
    decreases v
  {
    assert k[..|k|] == k;
    if v.IObj? && i < |k| && k[i] in v.fields {
      NulledLocal(db, db', k, i + 1);
      PatchLocal(db, db', v.fields[k[i]], k, i + 1);
    }
  }

  lemma {:induction false} SafeLocal(db: Store, db': Store, v: Inter, key: Key)
    requires forall k :: Under(key, k) ==> Lookup(db, k) == Lookup(db', k)
    ensures PatchSafe(db, v, key) == PatchSafe(db', v, key)
    decreases v
  {
    assert Under(key, key) && Lookup(db, key) == Lookup(db', key);
    if v.IObj? {
      forall name | name in v.fields
        ensures PatchSafe(db, v.fields[name], Child(key, name)) == PatchSafe(db', v.fields[name], Child(key, name))
      {
        forall k | Under(Child(key, name), k)
          ensures Lookup(db, k) == Lookup(db', k)
        {
          UnderChild(key, name, k);
        }
        SafeLocal(db, db', v.fields[name], Child(key, name));
      }
    }
  }

  /** Removal without a schema never panics on an object. */
  lemma {:induction false} NilNeverTrips(db: Store, k: Key, i: nat)
    requires i <= |k| && (i == |k| ==> SMembers(db, k).Some?)
    ensures !ObjectTrips(db, None, k, i)
    decreases |k| - i
  {
    assert k[..|k|] == k;
    if i < |k| && Lookup(db, k[..i + 1]).Some? && Lookup(db, k[..i + 1]).value.Set? {
      assert i + 1 == |k| ==> k[..i + 1] == k;
      NilNeverTrips(db, k, i + 1);
    }
    assert i < |k| ==> !ArrayTrips(db, None, k, i + 1);
  }

  lemma NilSmooth(db: Store, key: Key)
    requires SMembers(db, key).Some?
    ensures ObjectSmooth(db, None, key)
  {
    forall k | Under(key, k)
      ensures !ObjectTrips(db, None, k, |key|)
    {
      assert |k| == |key| ==> k == key;
      NilNeverTrips(db, k, |key|);
    }
  }

  // ---------- Progress of the loop ----------

  /** The members `done` of the patch have been handled, the others not touched. */
  ghost predicate PartlyPatched(db: Store, db': Store, fields: map<string, Inter>, key: Key, done: set<string>) {
    forall k :: Lookup(db', k) ==
      if !Under(key, k) then Lookup(db, k)
      else if |k| == |key| then OwnAfter(db, key, fields, done)
      else if k[|key|] in done then PatchAt(db, IObj(fields), k, |key|)
      else Lookup(db, k)
  }

  lemma PatchStart(db: Store, fields: map<string, Inter>, key: Key)
    ensures PartlyPatched(db, db, fields, key, {})
  {
    forall k | Under(key, k) && |k| == |key|
      ensures k == key
    {
    }
  }

  lemma PatchDone(db: Store, db': Store, fields: map<string, Inter>, key: Key)
    requires PartlyPatched(db, db', fields, key, fields.Keys)
    ensures Patched(db, db', IObj(fields), key)
  {
    forall k
      ensures Lookup(db', k) == if Under(key, k) then PatchAt(db, IObj(fields), k, |key|) else Lookup(db, k)
    {
      assert Under(key, k) && |k| == |key| ==> k == key;
    }
  }

  /** The subtree of an unhandled member is still the old one. */
  lemma UnpatchedChild(db: Store, db': Store, fields: map<string, Inter>, key: Key, done: set<string>, name: string)
    requires PartlyPatched(db, db', fields, key, done) && name !in done
    ensures forall k :: Under(Child(key, name), k) ==> Lookup(db', k) == Lookup(db, k)
  {
    forall k | Under(Child(key, name), k)
      ensures Lookup(db', k) == Lookup(db, k)
    {
      UnderChild(key, name, k);
    }
  }

  /** One more member: `own` is what its SREM or SADD left at `key`, and the member's
      subtree is what the patch says. */
  lemma PatchStep(db: Store, before: Store, after: Store, fields: map<string, Inter>, key: Key, done: set<string>,
                  name: string)
    requires PartlyPatched(db, before, fields, key, done) && name !in done && name in fields
    requires Lookup(after, key) == OwnAfter(db, key, fields, done + {name})
    requires forall k :: k != key && !Under(Child(key, name), k) ==> Lookup(after, k) == Lookup(before, k)
    requires forall k :: Under(Child(key, name), k) ==> Lookup(after, k) == PatchAt(db, IObj(fields), k, |key|)
    ensures PartlyPatched(db, after, fields, key, done + {name})
  {
    forall k
      ensures Lookup(after, k) ==
        if !Under(key, k) then Lookup(db, k)
        else if |k| == |key| then OwnAfter(db, key, fields, done + {name})
        else if k[|key|] in done + {name} then PatchAt(db, IObj(fields), k, |key|)
        else Lookup(db, k)
    {
      UnderChild(key, name, k);
      assert Under(key, k) && |k| == |key| ==> k == key;
      assert Under(key, key);
    }
  }

  lemma OwnBefore(db: Store, before: Store, fields: map<string, Inter>, key: Key, done: set<string>)
    requires PartlyPatched(db, before, fields, key, done) && SMembers(db, key).Some?
    ensures SMembers(before, key) == Some(MembersOf(db, key) - Nulls(fields) * done + Values(fields) * done)
  {
    assert Under(key, key) && Lookup(before, key) == OwnAfter(db, key, fields, done);
    if done == {} {
      assert MembersOf(db, key) - Nulls(fields) * done + Values(fields) * done == MembersOf(db, key);
    }
  }

  /** SREM of a null member, SADD of any other. */
  lemma OwnNext(db: Store, before: Store, fields: map<string, Inter>, key: Key, done: set<string>, name: string)
    requires PartlyPatched(db, before, fields, key, done) && SMembers(db, key).Some?
    requires name in fields && name !in done
    ensures fields[name].INil? ==>
              && SRem(before, key, name).Some?
              && Lookup(SRem(before, key, name).value, key) == OwnAfter(db, key, fields, done + {name})
    ensures !fields[name].INil? ==>
              && SAdd(before, key, {name}).Some?
              && Lookup(SAdd(before, key, {name}).value, key) == OwnAfter(db, key, fields, done + {name})
  {
    OwnBefore(db, before, fields, key, done);
    var members := MembersOf(db, key) - Nulls(fields) * done + Values(fields) * done;
    var next := MembersOf(db, key) - Nulls(fields) * (done + {name}) + Values(fields) * (done + {name});
    if fields[name].INil? {
      assert Nulls(fields) * (done + {name}) == Nulls(fields) * done + {name};
      assert Values(fields) * (done + {name}) == Values(fields) * done;
      assert next == members - {name};
    } else {
      assert Nulls(fields) * (done + {name}) == Nulls(fields) * done;
      assert Values(fields) * (done + {name}) == Values(fields) * done + {name};
      assert next == members + {name};
    }
  }

  /** Whether the member set of `key` can be updated is known before the first member. */
  lemma PatchOwn(db: Store, before: Store, fields: map<string, Inter>, key: Key, done: set<string>, name: string)
    requires PartlyPatched(db, before, fields, key, done) && name in fields && name !in done
    requires done != {} ==> SMembers(db, key).Some?
    ensures SMembers(before, key).Some? <==> SMembers(db, key).Some?
    ensures SMembers(db, key).Some? && fields[name].INil? ==>
              && SRem(before, key, name).Some?
              && Lookup(SRem(before, key, name).value, key) == OwnAfter(db, key, fields, done + {name})
    ensures SMembers(db, key).Some? && !fields[name].INil? ==>
              && SAdd(before, key, {name}).Some?
              && Lookup(SAdd(before, key, {name}).value, key) == OwnAfter(db, key, fields, done + {name})
  {
    assert Under(key, key) && Lookup(before, key) == OwnAfter(db, key, fields, done);
    if SMembers(db, key).Some? {
      OwnNext(db, before, fields, key, done, name);
    }
  }

  lemma SRemLookup(db: Store, db': Store, key: Key, name: string)
    requires SRem(db, key, name) == Some(db')
    ensures forall k :: k != key ==> Lookup(db', k) == Lookup(db, k)
  {
  }

  lemma PatchedOwn(db: Store, db': Store, key: Key, name: string)
    requires Confined(db, db', Child(key, name))
    ensures Lookup(db', key) == Lookup(db, key)
    ensures SAdd(db', key, {name}).Some? == SAdd(db, key, {name}).Some?
  {
    UnderChild(key, name, key);
  }

  /** After a null member: `unlisted` is the store after SREM, `after` after the deletion. */
  lemma NulledStep(db: Store, before: Store, unlisted: Store, after: Store, fields: map<string, Inter>, key: Key,
                   done: set<string>, name: string)
    requires PartlyPatched(db, before, fields, key, done) && name in fields && name !in done && fields[name].INil?
    requires Lookup(unlisted, key) == OwnAfter(db, key, fields, done + {name})
    requires forall k :: k != key ==> Lookup(unlisted, k) == Lookup(before, k)
    requires NulledStore(unlisted, after, Child(key, name))
    ensures PartlyPatched(db, after, fields, key, done + {name})
  {
    var child := Child(key, name);
    UnpatchedChild(db, before, fields, key, done, name);
    forall k
      ensures k == key || !Under(child, k) ==> Lookup(after, k) == Lookup(unlisted, k)
      ensures Under(child, k) ==> Lookup(after, k) == PatchAt(db, IObj(fields), k, |key|)
    {
      UnderChild(key, name, k);
      if Under(child, k) {
        NulledUnder(unlisted, after, child, k);
        forall q | Under(child, q)
          ensures Lookup(db, q) == Lookup(unlisted, q)
        {
          UnderChild(key, name, q);
        }
        SameUnderAlong(db, unlisted, child, k);
        NulledLocal(db, unlisted, k, |key| + 1);
      }
    }
    PatchStep(db, before, after, fields, key, done, name);
  }

  /** What the three cases of a null do to the store. */
  ghost predicate NulledStore(db: Store, db': Store, key: Key) {
    match Lookup(db, key)
    case Some(Str(_)) => db' == db - {key}
    case Some(Set(_)) => ObjectRemoved(db, db', None, key)
    case _ => db' == db
  }

  lemma NulledUnder(db: Store, db': Store, key: Key, k: Key)
    requires NulledStore(db, db', key)
    ensures Under(key, k) ==> Lookup(db', k) == NulledAt(db, k, |key|)
    ensures !Under(key, k) ==> Lookup(db', k) == Lookup(db, k)
  {
    assert Under(key, key);
    assert Under(key, k) ==> k[..|key|] == key && (|k| == |key| ==> k == key);
  }

  /** After any other member: `patched` is the store after the recursive call, `after` after SADD. */
  lemma PatchedStep(db: Store, before: Store, patched: Store, after: Store, fields: map<string, Inter>, key: Key,
                    done: set<string>, name: string)
    requires PartlyPatched(db, before, fields, key, done) && name in fields && name !in done && !fields[name].INil?
    requires Patched(before, patched, fields[name], Child(key, name))
    requires SAdd(patched, key, {name}) == Some(after)
    requires Lookup(after, key) == OwnAfter(db, key, fields, done + {name})
    ensures PartlyPatched(db, after, fields, key, done + {name})
  {
    var child := Child(key, name);
    UnpatchedChild(db, before, fields, key, done, name);
    forall k
      ensures k != key && !Under(child, k) ==> Lookup(after, k) == Lookup(before, k)
      ensures Under(child, k) ==> Lookup(after, k) == PatchAt(db, IObj(fields), k, |key|)
    {
      UnderChild(key, name, k);
      if Under(child, k) {
        SameUnderAlong(db, before, child, k);
        PatchLocal(db, before, fields[name], k, |key| + 1);
      }
    }
    PatchStep(db, before, after, fields, key, done, name);
  }
}
