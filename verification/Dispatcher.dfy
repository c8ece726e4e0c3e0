/** The dispatcher's writes to Redis: insertion, patching and removal, key by key. */
module Dispatcher {
  import opened Basics
  import opened Text
  import opened Redis
  import opened Schema
  import opened Insert
  import opened Remove
  import opened Patch

  class Dispatcher {
    var db: Store

    constructor (db: Store)
      ensures this.db == db
    {
      this.db := db;
    }

    /** In every store: the call panics exactly where `InsertTrips` says, and otherwise leaves at
        every key what `InsertAt` says, whatever the order of the map iterations.  Only keys under
        `key` change, and the key of an object holds a set once the call has not panicked and
        what it held before when it has. */
    method RedisInsert(v: Inter, key: Key) returns (out: Outcome)
      modifies this
      ensures out.Panicked? <==> InsertTrips(old(db), v, key)
      ensures !out.Panicked? ==> Inserted(old(db), db, v, key)
      ensures Confined(old(db), db, key)
      ensures v.IObj? ==> !out.Error?
      ensures v.IObj? ==> if out.Panicked? then Lookup(db, key) == Lookup(old(db), key) else key in db && db[key].Set?
      ensures out.Panicked? ==> LeftByPanic(old(db), db, v, key)
      decreases v, 2
    {
      SamePoint(key);
      match v {
        case IStr(text) =>
          db := db[key := Str(text)];
          out := Done;
        case IArr(isObject, elements) =>
          if isObject {
            out := InsertElements(v, key);
          } else {
            match if Pushable(elements) then RPush(db, key, PushTexts(elements)) else None {
              case None => out := Error;
              case Some(db') =>
                db := db';
                out := Done;
            }
          }
        case IObj(fields) =>
          out := InsertFields(v, key);
        case INil =>
          out := Done;
      }
    }

    method InsertElements(v: Inter, key: Key) returns (out: Outcome)
      requires v.IArr? && v.isObject
      modifies this
      ensures out.Panicked? <==> InsertTrips(old(db), v, key)
      ensures !out.Panicked? ==> Inserted(old(db), db, v, key)
      ensures Confined(old(db), db, key)
      ensures out.Panicked? ==> LeftByPanic(old(db), db, v, key)
      decreases v, 1
    {
      PushStart(db, v.elements, key);
      ghost var db0 := db;
      var i := 0;
      while i < |v.elements|
        invariant 0 <= i <= |v.elements|
        invariant PartlyPushed(db0, db, v.elements, key, i) && (i > 0 ==> LRange(db0, key).Some?)
        invariant NoneTrips(db0, v.elements, key, i)
      {
        ghost var mid := db;
        out := InsertElement(v, key, i, db0);
        if out.Panicked? {
          assert ElementLeft(db0, mid, db, v, key, i);
          ElementTripsArray(db0, v.elements, key, i);
          return;
        }
        if out.Error? {
          NoneTripsArray(db0, v.elements, key);
          return;
        }
        NoneTripsNext(db0, v.elements, key, i);
        i := i + 1;
      }
      out := Done;
      NoneTripsArray(db0, v.elements, key);
      PushedConfined(db0, db, v.elements, key, i);
      ArrayInserted(db0, db, v.elements, key);
    }

    /** One round of the loop over an array of objects, with `db0` the store before it. */
    method InsertElement(v: Inter, key: Key, i: nat, ghost db0: Store) returns (out: Outcome)
      requires v.IArr? && v.isObject && i < |v.elements|
      requires PartlyPushed(db0, db, v.elements, key, i) && (i > 0 ==> LRange(db0, key).Some?)
      modifies this
      ensures Confined(db0, db, key)
      ensures out.Error? <==> LRange(db0, key).None?
      ensures out.Error? ==> i == 0 && Inserted(db0, db, v, key)
      ensures out.Panicked? <==> LRange(db0, key).Some? && ElementTrips(db0, v.elements[i], Child(key, FormatNat(i)))
      ensures out.Done? ==> PartlyPushed(db0, db, v.elements, key, i + 1)
      ensures out.Panicked? ==>
                && RPush(old(db), key, [FormatNat(i)]).Some?
                && Confined(RPush(old(db), key, [FormatNat(i)]).value, db, Child(key, FormatNat(i)))
                && if v.elements[i].IObj? then LeftByPanic(RPush(old(db), key, [FormatNat(i)]).value, db, v.elements[i],
                                                           Child(key, FormatNat(i)))
                   else db == RPush(old(db), key, [FormatNat(i)]).value
      decreases v, 0
    {
      var name := FormatNat(i);
      ghost var before := db;
      NextPush(db0, before, v.elements, key, i);
      match RPush(db, key, [name]) {
        case None =>
          RefusedPush(db0, db, v.elements, key);
          return Error;
        case Some(db') => db := db';
      }
      ghost var pushed := db;
      UntouchedElement(db0, before, v.elements, key, i);
      if !v.elements[i].IObj? {
        return Panicked;
      }
      TripsLocal(db0, pushed, v.elements[i], Child(key, name));
      var inner := RedisInsert(v.elements[i], Child(key, name));
      ConfinedChild(pushed, db, key, name);
      if inner.Panicked? {
        return Panicked;
      }
      out := Done;
      ElementInserted(db0, before, pushed, db, v.elements, key, i);
    }

    method InsertFields(v: Inter, key: Key) returns (out: Outcome)
      requires v.IObj?
      modifies this
      ensures out.Panicked? <==> InsertTrips(old(db), v, key)
      ensures !out.Panicked? ==> Inserted(old(db), db, v, key)
      ensures Confined(old(db), db, key)
      ensures !out.Error?
      ensures if out.Panicked? then Lookup(db, key) == Lookup(old(db), key) else key in db && db[key].Set?
      ensures out.Panicked? ==> LeftByPanic(old(db), db, v, key)
      decreases v, 1
    {
      ghost var db0 := db;
      var todo := v.fields.Keys;
      ghost var done: set<string> := {};
      while todo != {}
        invariant todo + done == v.fields.Keys && todo !! done
        invariant PartlyInserted(db0, db, v.fields, key, done)
        invariant NoneTripsOf(db0, v.fields, key, done)
        decreases |todo|
      {
        var name :| name in todo;
        ghost var mid := db;
        out := InsertField(v, key, name, db0, done);
        if out.Panicked? {
          assert MemberLeft(db0, mid, db, v, key, done, name);
          MemberTripsObject(db0, v.fields, key, name);
          return;
        }
        todo, done := todo - {name}, done + {name};
      }
      ghost var before := db;
      assert done == v.fields.Keys;
      SAddDecides(db0, before, v.fields, key);
      match SAdd(db, key, v.fields.Keys) {
        case None => out := Panicked;
        case Some(db') =>
          db := db';
          out := Done;
          ObjectInserted(db0, before, db, v.fields, key);
      }
    }

    /** One round of the loop over the members, with `db0` the store before it. */
    method InsertField(v: Inter, key: Key, name: string, ghost db0: Store, ghost done: set<string>)
      returns (out: Outcome)
      requires v.IObj? && name in v.fields && name !in done && PartlyInserted(db0, db, v.fields, key, done)
      modifies this
      ensures Confined(db0, db, key) && Lookup(db, key) == Lookup(db0, key)
      ensures out.Panicked? <==> InsertTrips(db0, v.fields[name], Child(key, name))
      ensures !out.Panicked? ==> PartlyInserted(db0, db, v.fields, key, done + {name})
      ensures out.Panicked? ==>
                Confined(old(db), db, Child(key, name)) && LeftByPanic(old(db), db, v.fields[name], Child(key, name))
      decreases v, 0
    {
      ghost var before := db;
      UntouchedMember(db0, before, v.fields, key, done, name);
      TripsLocal(db0, before, v.fields[name], Child(key, name));
      out := RedisInsert(v.fields[name], Child(key, name));
      ConfinedChild(before, db, key, name);
      UnderChild(key, name, key);
      if !out.Panicked? {
        MemberInserted(db0, before, db, v.fields, key, done, name);
      }
    }

    // ---------- Patching ----------

    /** In every store: the call panics exactly where `PatchSafe` fails, and otherwise
        leaves at every key what `PatchAt` says, whatever the order of the iterations. */
    method RedisPatch(v: Inter, key: Key) returns (out: Outcome)
      modifies this
      ensures out.Panicked? <==> !PatchSafe(old(db), v, key)
      ensures PatchSafe(old(db), v, key) ==> Patched(old(db), db, v, key)
      ensures Confined(old(db), db, key)
      decreases v, 2
    {
      match v {
        case IStr(text) =>
          db := db[key := Str(text)];
          out := Done;
          SamePoint(key);
        case IArr(_, _) =>
          out := Panicked;
        case IObj(fields) =>
          out := PatchFields(v, key);
        case INil =>
          out := Done;
      }
    }

    method PatchFields(v: Inter, key: Key) returns (out: Outcome)
      requires v.IObj?
      modifies this
      ensures out.Panicked? <==> !PatchSafe(old(db), v, key)
      ensures PatchSafe(old(db), v, key) ==> Patched(old(db), db, v, key)
      ensures Confined(old(db), db, key)
      decreases v, 1
    {
      ghost var keys := v.fields.Keys;
      var todo := v.fields.Keys;
      PatchStart(db, v.fields, key);
      while todo != {}
        invariant todo <= keys
        invariant Confined(old(db), db, key)
        invariant todo != keys ==> SMembers(old(db), key).Some?
        invariant forall name :: name in keys - todo ==> PatchSafe(old(db), v.fields[name], Child(key, name))
        invariant PartlyPatched(old(db), db, v.fields, key, keys - todo)
      {
        var name :| name in todo;
        out := PatchField(v, key, name, old(db), keys - todo);
        if out.Panicked? {
          return;
        }
        assert keys - (todo - {name}) == keys - todo + {name};
        todo := todo - {name};
      }
      out := Done;
      assert keys - todo == keys;
      PatchDone(old(db), db, v.fields, key);
    }

    /** One round of the loop, with `db0` the store before it and `done` the members handled. */
    method PatchField(v: Inter, key: Key, name: string, ghost db0: Store, ghost done: set<string>)
      returns (out: Outcome)
      requires v.IObj? && name in v.fields && name !in done
      requires PartlyPatched(db0, db, v.fields, key, done)
      requires done != {} ==> SMembers(db0, key).Some?
      modifies this
      ensures Confined(old(db), db, key)
      ensures out.Panicked? <==> SMembers(db0, key).None? || !PatchSafe(db0, v.fields[name], Child(key, name))
      ensures !out.Panicked? ==> PartlyPatched(db0, db, v.fields, key, done + {name})
      decreases v, 0
    {
      UnpatchedChild(db0, db, v.fields, key, done, name);
      SafeLocal(db0, db, v.fields[name], Child(key, name));
      PatchOwn(db0, db, v.fields, key, done, name);
      if v.fields[name].INil? {
        match SRem(db, key, name) {
          case None => return Panicked;
          case Some(db') => db := db';
        }
        ghost var unlisted := db;
        SRemLookup(old(db), unlisted, key, name);
        var child := Child(key, name);
        if child in db {
          if db[child].Str? {
            db := db - {child};
          } else if db[child].Set? {
            NilSmooth(db, child);
            out := RedisRemoveObject(None, child);
          }
        }
        out := Done;
        NulledStep(db0, old(db), unlisted, db, v.fields, key, done, name);
      } else {
        out := RedisPatch(v.fields[name], Child(key, name));
        ConfinedChild(old(db), db, key, name);
        if out.Panicked? {
          return;
        }
        ghost var patched := db;
        PatchedOwn(old(db), patched, key, name);
        match SAdd(db, key, {name}) {
          case None => return Panicked;
          case Some(db') => db := db';
        }
        out := Done;
        PatchedStep(db0, old(db), patched, db, v.fields, key, done, name);
      }
    }

    // ---------- Removal ----------

    method RedisRemoveResource(schema: Schema, uri: Key) returns (out: Outcome)
      modifies this
      ensures out.Done? <==> ObjectSmooth(old(db), Some(schema), uri)
      ensures if out.Done? then ObjectRemoved(old(db), db, Some(schema), uri)
              else ObjectPartly(old(db), db, Some(schema), uri)
      ensures uri in db <==> SMembers(old(db), uri).None?
      ensures db.Keys <= old(db).Keys && Confined(old(db), db, uri)
    {
      out := RedisRemoveObject(Some(schema), uri);
    }

    method RedisRemoveField(p: Option<Property>, key: Key) returns (out: Outcome)
      modifies this
      ensures out.Done? <==> FieldSmooth(old(db), p, key)
      ensures if out.Done? then FieldRemoved(old(db), db, p, key) else FieldPartly(old(db), db, p, key)
      ensures db.Keys <= old(db).Keys && Confined(old(db), db, key)
      decreases db.Keys, 3
    {
      FieldByType(db, p, key);
      if key !in db {
        return Done;
      }
      match db[key] {
        case Str(_) =>
          db := db - {key};
          out := Done;
        case Set(_) =>
          if IsNavLink(p) {
            return Done;
          }
          out := RedisRemoveObject(FieldsOf(p), key);
          PartlyInside(old(db), db, p, key);
          SetField(old(db), db, p, key);
        case List(_) =>
          out := RedisRemoveArray(p, key);
          PartlyInside(old(db), db, p, key);
          ListField(old(db), db, p, key);
      }
    }

    method RedisRemoveObject(schema: Option<Schema>, key: Key) returns (out: Outcome)
      modifies this
      ensures out.Done? <==> ObjectSmooth(old(db), schema, key)
      ensures if out.Done? then ObjectRemoved(old(db), db, schema, key) else ObjectPartly(old(db), db, schema, key)
      ensures key in db <==> SMembers(old(db), key).None?
      ensures db.Keys <= old(db).Keys && Confined(old(db), db, key)
      decreases db.Keys, 0
    {
      var members := SMembers(db, key);
      if members.None? {
        assert Under(key, key) && ObjectTrips(db, schema, key, |key|);
        return Panicked;
      }
      ghost var before := db;
      ObjectSmoothIff(before, schema, key, members.value);
      db := db - {key};
      MembersStart(before, db, schema, key);
      out := Done;
      if members.value != {} {
        out := RemoveMembers(schema, key, members.value, before);
      }
      if out.Done? {
        MembersDone(before, db, schema, key, members.value);
      }
    }

    /** The members of an object whose own key is gone already. */
    method RemoveMembers(schema: Option<Schema>, key: Key, names: set<string>, ghost db0: Store) returns (out: Outcome)
      requires SMembers(db0, key) == Some(names) && MembersGone(db0, db, schema, key, {})
      modifies this
      ensures out.Done? <==>
                forall name {:trigger Child(key, name)} :: name in names ==>
                  FieldSmooth(db0, PropOf(schema, name), Child(key, name))
      ensures if out.Done? then MembersGone(db0, db, schema, key, names) else ObjectPartly(db0, db, schema, key)
      ensures db.Keys <= old(db).Keys && Confined(db0, db, key)
      decreases db.Keys, 4
    {
      var todo := names;
      ghost var done: set<string> := {};
      while todo != {}
        invariant todo + done == names && todo !! done
        invariant db.Keys <= old(db).Keys && MembersGone(db0, db, schema, key, done)
        invariant forall name {:trigger Child(key, name)} :: name in done ==>
                    FieldSmooth(db0, PropOf(schema, name), Child(key, name))
        decreases |todo|
      {
        var name :| name in todo;
        ghost var before := db;
        MemberSmooth(db0, before, schema, key, done, name);
        out := RedisRemoveField(PropOf(schema, name), Child(key, name));
        if !out.Done? {
          GoneConfined(db0, before, schema, key, done);
          MembersPartly(db0, before, db, schema, key, done, name);
          ConfinedChild(before, db, key, name);
          return Panicked;
        }
        MembersStep(db0, before, db, schema, key, done, name);
        todo, done := todo - {name}, done + {name};
      }
      GoneConfined(db0, db, schema, key, done);
      out := Done;
    }

    method RedisRemoveArray(p: Option<Property>, key: Key) returns (out: Outcome)
      requires key in db && db[key].List?
      modifies this
      ensures out.Done? <==> ArraySmooth(old(db), p, key)
      ensures if out.Done? then ArrayRemoved(old(db), db, p, key) else ArrayPartly(old(db), db, p, key)
      ensures db.Keys <= old(db).Keys && Confined(old(db), db, key)
      decreases db.Keys, 2
    {
      var items := db[key].items;
      match ElementsOf(p) {
        case Trap =>
          assert Under(key, key) && ArrayTrips(db, p, key, |key|);
          return Panicked;
        case Leave =>
        case Into(schema) =>
          ArraySmoothIff(db, p, key, items);
          out := RemoveElements(p, key, items);
          if !out.Done? {
            return Panicked;
          }
      }
      ItemsDone(old(db), db, p, key, items);
      db := db - {key};
      out := Done;
    }

    method RemoveElements(p: Option<Property>, key: Key, items: seq<string>) returns (out: Outcome)
      requires key in db && db[key] == List(items) && ElementsOf(p).Into?
      modifies this
      ensures out.Done? <==>
                forall item :: item in items ==> ObjectSmooth(old(db), ElementsOf(p).schema, Child(key, item))
      ensures if out.Done? then ItemsGone(old(db), db, ElementsOf(p).schema, key, ItemSet(items))
              else ArrayPartly(old(db), db, p, key)
      ensures db.Keys <= old(db).Keys && Confined(old(db), db, key)
      decreases db.Keys, 1
    {
      var schema := ElementsOf(p).schema;
      ghost var seen: set<string> := {};
      for i := 0 to |items|
        invariant db.Keys <= old(db).Keys
        invariant seen == ItemSet(items[..i])
        invariant ItemsGone(old(db), db, schema, key, seen)
        invariant forall x :: x in seen ==> ObjectSmooth(old(db), schema, Child(key, x))
      {
        ghost var before := db;
        ItemSmooth(old(db), before, schema, key, seen, items[i]);
        out := RedisRemoveObject(schema, Child(key, items[i]));
        if !out.Done? {
          ItemsConfined(old(db), before, schema, key, seen);
          ConfinedChild(before, db, key, items[i]);
          assert items[i] in items;
          ItemsPartly(old(db), before, db, p, key, seen, items[i]);
          return Panicked;
        }
        ItemsStep(old(db), before, db, schema, key, seen, items[i]);
        ItemSetNext(items, i);
        seen := seen + {items[i]};
      }
      out := Done;
      assert items[..|items|] == items;
      ItemsConfined(old(db), db, schema, key, seen);
    }
  }
}
