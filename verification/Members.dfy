/** The handlers that create and delete members, and the backends' `addMemberToArray`. */
module Members {
  import opened Basics
  import opened Text
  import opened Redis
  import opened Schema
  import opened Convert
  import opened Insert
  import opened Remove
  import opened Collections
  import opened Dispatcher

  const ID := "Id"
  const MEMBER_ID := "MemberId"

  /** `Aborted` is a creation that panics; `Tripped` a deletion that panics over the resource's keys,
      `Unlinked` one that panics because no index links to the resource; `Strayed` one whose path ends in a
      slash and that met something beneath the member. */
  datatype Status = Created | BadName | Conflict | Aborted | NotFound | Deleted | Tripped | Unlinked | Strayed

  // ---------- Creation ----------

  /** The name of the new resource; none where the handler panics. */
  function NewId(body: map<string, Json>): Option<string> {
    if ID in body && !body[ID].JStr? then None
    else if MEMBER_ID in body then
      if body[MEMBER_ID].JStr? && body[MEMBER_ID].s != "" then Some(body[MEMBER_ID].s) else None
    else if ID in body && body[ID].s != "" then Some(body[ID].s)
    else None
  }

  /** The name is the payload's MemberId, or without one its Id; it is a text and not empty. */
  lemma NewIdIsAsked(body: map<string, Json>)
    ensures NewId(body) != Some("")
    ensures forall id :: id != "" && (ID in body ==> body[ID].JStr?) ==>
              (NewId(body) == Some(id) <==>
                 if MEMBER_ID in body then body[MEMBER_ID] == JStr(id) else ID in body && body[ID] == JStr(id))
    ensures ID in body && !body[ID].JStr? ==> NewId(body).None?
  {
  }

  /** The converted payload with the generated annotations emptied. */
  function WithOData(fields: map<string, Inter>): map<string, Inter> {
    fields[ODATA_ID := INil][ODATA_TYPE := INil][ODATA_CONTEXT := INil]
  }

  /** The data of a payload that converts. */
  ghost function NewData(schema: Schema, body: Json): Option<Inter>
    requires body.JObj?
    ensures NewData(schema, body).Some? ==> NewData(schema, body).value.IObj?
  {
    var fields := ConvertObject(schema, body, [], None);
    if fields.None? then None else Some(IObj(WithOData(fields.value)))
  }

  /** The annotations of a new member are generated, whatever the payload says of them: their names are listed and
      no key holds them; all other members are those of the payload. */
  lemma NewMemberGenerates(db: Store, schema: Schema, body: Json, key: Key, name: string)
    requires body.JObj? && NewData(schema, body).Some? && Holds(db, NewData(schema, body).value, key)
    ensures name in {ODATA_ID, ODATA_TYPE, ODATA_CONTEXT} ==> HasMember(db, key, name) && Child(key, name) !in db
    ensures name !in {ODATA_ID, ODATA_TYPE, ODATA_CONTEXT} ==>
              (HasMember(db, key, name) <==> name in ConvertObject(schema, body, [], None).value)
  {
    var fields := NewData(schema, body).value.fields;
    var child := Child(key, name);
    assert Under(key, key) && Lookup(db, key) == At(IObj(fields), key, |key|) == Some(Set(fields.Keys));
    assert child[..|key|] == key && child[|key|] == name && Under(key, child);
    if name in {ODATA_ID, ODATA_TYPE, ODATA_CONTEXT} {
      assert fields[name] == INil;
      assert Lookup(db, child) == At(IObj(fields), child, |key|) == At(INil, child, |key| + 1) == None;
    }
  }

  /** One above the largest number in the list, and at least one; 64-bit arithmetic. */
  method NextIndex(items: seq<string>) returns (next: Option<int>)
    ensures next.None? <==> exists i :: 0 <= i < |items| && ParseInt(items[i]).None?
    ensures next.Some? && next.value != MIN_INT64 ==>
              next.value >= 1 && forall i :: 0 <= i < |items| ==> ParseInt(items[i]).value < next.value
    ensures next.Some? && next.value == MIN_INT64 ==>
              exists i :: 0 <= i < |items| && ParseInt(items[i]) == Some(MAX_INT64)
    ensures next.Some? && next.value > 1 ==> exists i :: 0 <= i < |items| && ParseInt(items[i]) == Some(next.value - 1)
  {
    var offset := 0;
    for i := 0 to |items|
      invariant 0 <= offset <= MAX_INT64
      invariant forall j :: 0 <= j < i ==> ParseInt(items[j]).Some? && ParseInt(items[j]).value <= offset
      invariant offset > 0 ==> exists j :: 0 <= j < i && ParseInt(items[j]) == Some(offset)
    {
      var n := ParseInt(items[i]);
      if n.None? {
        return None;
      }
      if offset < n.value {
        offset := n.value;
      }
    }
    return Some(if offset == MAX_INT64 then MIN_INT64 else offset + 1);
  }

  lemma NextOfTexts(indices: seq<nat>, i: nat)
    requires i < |indices| && indices[i] < MAX_INT64
    ensures ParseInt(Texts(indices)[i]) == Some(indices[i])
  {
    ParseFormatInt(indices[i]);
  }

  ghost predicate Bounded(indices: seq<nat>, bound: int) {
    forall i :: 0 <= i < |indices| ==> indices[i] < bound
  }

  /** What creation does in every consistent state, also where earlier panics or the backends have
      left keys beneath the new member's: which answer it gives, that the collection stays
      consistent in any case, and on success the largest index plus one pushed and linked, the
      payload inserted into what was there, and when exactly it is stored as it is. */
  method CreateMember(d: Dispatcher, uri: Key, names: set<string>, schema: Schema, body: Json,
                      ghost ids: seq<string>, ghost indices: seq<nat>)
    returns (status: Status, ghost n: nat)
    requires body.JObj? && (NewId(body.fields).Some? ==> SlashFree(NewId(body.fields).value))
    requires Consistent(d.db, uri, names, ids, indices) && Bounded(indices, MAX_INT64)
    modifies d
    ensures status.Created? || status.BadName? || status.Conflict? || status.Aborted?
    ensures status.BadName? <==> NewId(body.fields).Some? && NewId(body.fields).value in names
    ensures status.Conflict? <==>
              NewId(body.fields).Some? && NewId(body.fields).value !in names && NewId(body.fields).value in ids
    ensures status.Aborted? <==>
              || NewId(body.fields).None?
              || (NewId(body.fields).value !in names && NewId(body.fields).value !in ids &&
                  (NewData(schema, body).None? ||
                   InsertTrips(old(d.db), NewData(schema, body).value, Child(uri, NewId(body.fields).value))))
    ensures status.Aborted? && NewId(body.fields).Some? && NewData(schema, body).Some? ==>
              LeftByPanic(old(d.db), d.db, NewData(schema, body).value, Child(uri, NewId(body.fields).value))
    ensures !status.Created? ==> Consistent(d.db, uri, names, ids, indices)
    ensures if NewId(body.fields).None? then d.db == old(d.db)
            else OnlyMember(old(d.db), d.db, uri, NewId(body.fields).value)
    ensures status.BadName? || status.Conflict? || NewData(schema, body).None? ==> d.db == old(d.db)
    ensures status.Created? ==>
              && NewId(body.fields).Some? && NewData(schema, body).Some?
              && Consistent(d.db, uri, names, ids + [NewId(body.fields).value], indices + [n])
              && Bounded(indices, n) && (n == 1 || n - 1 in indices)
              && var v, key := NewData(schema, body).value, Child(uri, NewId(body.fields).value);
                 && (forall k :: Under(key, k) ==> Lookup(d.db, k) == InsertAt(old(d.db), v, k, |key|))
                 && (Shows(d.db, v, key) <==> Untraced(old(d.db), v, key))
                 && (Fresh(old(d.db), key) ==> Holds(d.db, v, key))
  {
    n := 0;
    var newId := NewId(body.fields);
    if newId.None? {
      return Aborted, n;
    }
    var id := newId.value;
    if id in names {
      return BadName, n;
    }
    assert id in ids <==> id in IdSet(ids);
    if Child(uri, id) in d.db {
      return Conflict, n;
    }
    var fields := Interface2Redis(schema, body, [], None);
    if fields.None? {
      return Aborted, n;
    }
    ghost var before, v := d.db, IObj(WithOData(fields.value));
    var inserted := d.RedisInsert(IObj(WithOData(fields.value)), Child(uri, id));
    if inserted.Panicked? {
      NotCreated(before, d.db, uri, names, ids, indices, id);
      return Aborted, n;
    }
    ShowsExactly(before, d.db, v, Child(uri, id));
    if Fresh(before, Child(uri, id)) {
      FreshInserted(before, d.db, v, Child(uri, id));
    }
    ghost var between := d.db;
    status, n := Enter(d, uri, names, id, before, ids, indices);
    ShowsStay(between, d.db, v, Child(uri, id));
  }

  lemma ODataFits(schema: Schema, fields: map<string, Inter>)
    requires Inverse.FitsObject(Some(schema), IObj(fields))
    ensures Inverse.FitsObject(Some(schema), IObj(WithOData(fields)))
  {
  }

  /** A member that is stored as posted, and nothing beside it, can be deleted without a panic and
      without remainder. */
  lemma NewMemberIsRemovable(db: Store, schema: Schema, body: Json, key: Key)
    requires body.JObj? && NewData(schema, body).Some? && Insertable(NewData(schema, body).value)
    requires Holds(db, NewData(schema, body).value, key)
    ensures Removable(db, schema, key)
  {
    Inverse.ObjectFits(schema, body, [], None);
    ODataFits(schema, ConvertObject(schema, body, [], None).value);
    InsertedIsRemovable(db, schema, NewData(schema, body).value, key);
  }

  lemma ShowsStay(db: Store, db': Store, v: Inter, key: Key)
    requires Agree(db, db', key)
    ensures Shows(db', v, key) == Shows(db, v, key) && Holds(db', v, key) == Holds(db, v, key)
  {
    if Shows(db, v, key) {
      forall k | Under(key, k) && Reaches(v, k, |key|)
        ensures Lookup(db', k) == At(v, k, |key|)
      {
      }
    }
    if Shows(db', v, key) {
      forall k | Under(key, k) && Reaches(v, k, |key|)
        ensures Lookup(db, k) == At(v, k, |key|)
      {
      }
    }
    if Holds(db', v, key) {
      forall k | Under(key, k)
        ensures Lookup(db, k) == At(v, k, |key|)
      {
      }
    }
  }

  /** The index of a new member: above all others. */
  method NewIndex(items: seq<string>, ghost indices: seq<nat>) returns (n: nat)
    requires items == Texts(indices) && Bounded(indices, MAX_INT64)
    ensures Bounded(indices, n) && (n == 1 || n - 1 in indices)
  {
    forall i | 0 <= i < |indices|
      ensures ParseInt(items[i]) == Some(indices[i])
    {
      NextOfTexts(indices, i);
    }
    var next := NextIndex(items);
    n := next.value;
  }

  /** Pushes the index and inserts the link under it. */
  method PushLink(d: Dispatcher, uri: Key, id: string, n: nat, ghost indices: seq<nat>) returns (ghost pushed: Store)
    requires LRange(d.db, MembersKey(uri)).Some? && OnlyIndices(d.db, uri, indices) && n !in indices
    modifies d
    ensures RPush(old(d.db), MembersKey(uri), [FormatNat(n)]) == Some(pushed)
    ensures Confined(pushed, d.db, IndexKey(uri, n)) && Holds(d.db, MemberLink(uri, id), IndexKey(uri, n))
  {
    d.db := RPush(d.db, MembersKey(uri), [FormatNat(n)]).value;
    pushed := d.db;
    NewIndexIsFresh(pushed, uri, indices, n);
    LinkIsInsertable(Join(Child(uri, id)));
    var out := d.RedisInsert(LinkData(Join(Child(uri, id))), IndexKey(uri, n));
    FreshInserted(pushed, d.db, MemberLink(uri, id), IndexKey(uri, n));
  }

  lemma LinkIsInsertable(text: string)
    ensures Insertable(LinkData(text))
  {
    assert ODATA_ID in map[ODATA_ID := IStr(text)];
  }

  /** The second half of creation: the new index and the link under it. */
  method Enter(d: Dispatcher, uri: Key, ghost names: set<string>, id: string, ghost db0: Store,
               ghost ids: seq<string>, ghost indices: seq<nat>) returns (status: Status, ghost n: nat)
    requires Consistent(db0, uri, names, ids, indices) && Bounded(indices, MAX_INT64)
    requires id !in names && id !in ids && SlashFree(id)
    requires Confined(db0, d.db, Child(uri, id)) && Child(uri, id) in d.db
    modifies d
    ensures status.Created? && Consistent(d.db, uri, names, ids + [id], indices + [n])
    ensures Agree(old(d.db), d.db, Child(uri, id)) && Bounded(indices, n) && (n == 1 || n - 1 in indices)
    ensures OnlyMember(db0, d.db, uri, id)
  {
    ghost var inserted := d.db;
    LinksLocal(db0, inserted, uri, id, ids, indices);
    var index := NewIndex(LRange(d.db, MembersKey(uri)).value, indices);
    n := index;
    ghost var pushed := PushLink(d, uri, id, index, indices);
    Collections.Created(db0, inserted, pushed, d.db, uri, names, ids, indices, id, n);
    status := Status.Created;
  }

  // ---------- Deletion ----------

  /** The position of the index whose link is `link`. */
  method FindIndex(db: Store, list: Key, link: string, items: seq<string>) returns (j: Option<nat>)
    ensures j.Some? ==> j.value < |items| && Get(db, Child(Child(list, items[j.value]), ODATA_ID)) == Some(link)
    ensures j.None? ==> forall i :: 0 <= i < |items| ==> Get(db, Child(Child(list, items[i]), ODATA_ID)) != Some(link)
  {
    for i := 0 to |items|
      invariant forall m :: 0 <= m < i ==> Get(db, Child(Child(list, items[m]), ODATA_ID)) != Some(link)
    {
      if Get(db, Child(Child(list, items[i]), ODATA_ID)) == Some(link) {
        return Some(i);
      }
    }
    return None;
  }

  /** The position of the member among those listed, found by its link. */
  method FindMember(db: Store, uri: Key, id: string, items: seq<string>, ghost ids: seq<string>,
                    ghost indices: seq<nat>)
    returns (j: Option<nat>)
    requires Links(db, uri, ids, indices) && items == Texts(indices) && SlashFree(id)
    requires forall i :: 0 <= i < |uri| ==> SlashFree(uri[i])
    ensures j.Some? <==> id in ids
    ensures j.Some? ==> j.value < |ids| && ids[j.value] == id
  {
    forall i | 0 <= i < |ids|
      ensures Get(db, Child(Child(MembersKey(uri), items[i]), ODATA_ID)) == Some(Join(Child(uri, id))) <==> ids[i] == id
    {
      LinkFound(db, uri, ids, indices, i, id);
    }
    j := FindIndex(db, MembersKey(uri), Join(Child(uri, id)), items);
  }

  /** The key with the xname in front, as text and as segments. */
  function PrefixKey(xname: string, key: Key): Key
    requires key != []
  {
    [xname + key[0]] + key[1..]
  }

  lemma PrefixText(xname: string, key: Key)
    requires key != []
    ensures Join(PrefixKey(xname, key)) == xname + Join(key)
  {
    JoinPrepend(key, xname);
  }

  /** The dispatcher's collection callback, without further callbacks registered: the instance is
      not named as a property of the collection, and its key with the xname in front exists. */
  predicate IsInstance(db: Store, xname: string, uri: Key, names: set<string>, instance: string)
    requires uri != []
  {
    instance !in names && PrefixKey(xname, Child(uri, instance)) in db
  }

  /** Under `key` exactly the keys that removal leads to are gone. */
  ghost predicate Cleared(db: Store, db': Store, schema: Schema, key: Key) {
    forall k :: Under(key, k) ==>
      Lookup(db', k) == (if ObjectDeletes(db, Some(schema), k, |key|) then None else Lookup(db, k))
  }

  lemma ClearedStays(db: Store, removed: Store, db': Store, schema: Schema, key: Key)
    requires key in db && ObjectSmooth(db, Some(schema), key) && ObjectRemoved(db, removed, Some(schema), key)
    requires Agree(removed, db', key)
    ensures Cleared(db, db', schema, key)
    ensures Fresh(db', key) <==> Removable(db, schema, key)
  {
    RemovedCompletely(db, removed, schema, key);
    SameFresh(removed, db', key);
  }

  /** What deletion does in every consistent state.  The resource is resolved at its key with the
      xname in front, but removed at the key without. */
  method DeleteMember(d: Dispatcher, xname: string, uri: Key, names: set<string>, schema: Schema, id: string,
                      ghost ids: seq<string>, ghost indices: seq<nat>)
    returns (status: Status, ghost j: nat)
    requires SlashFree(id) && Consistent(d.db, uri, names, ids, indices)
    modifies d
    ensures status.NotFound? || status.Deleted? || status.Tripped? || status.Unlinked?
    ensures status.NotFound? <==> !IsInstance(old(d.db), xname, uri, names, id)
    ensures status.Unlinked? <==> IsInstance(old(d.db), xname, uri, names, id) && id !in ids
    ensures status.Tripped? <==>
              IsInstance(old(d.db), xname, uri, names, id) && id in ids &&
              !ObjectSmooth(old(d.db), Some(schema), Child(uri, id))
    ensures status.NotFound? || status.Unlinked? ==> d.db == old(d.db)
    ensures status.Tripped? ==>
              && Confined(old(d.db), d.db, Child(uri, id)) &&
                 ObjectPartly(old(d.db), d.db, Some(schema), Child(uri, id))
              && (IsConsistent(d.db, uri, names) <==> SMembers(old(d.db), Child(uri, id)).None?)
    ensures status.Deleted? ==>
              && j < |ids| && ids[j] == id
              && Consistent(d.db, uri, names, Drop(ids, j), Drop(indices, j))
              && Cleared(old(d.db), d.db, schema, Child(uri, id))
              && (Fresh(d.db, Child(uri, id)) <==> Removable(old(d.db), schema, Child(uri, id)))
              && Fresh(d.db, IndexKey(uri, indices[j])) && OnlyMember(old(d.db), d.db, uri, id)
  {
    j := 0;
    if id in names || PrefixKey(xname, Child(uri, id)) !in d.db {
      return NotFound, j;
    }
    assert id in ids <==> id in IdSet(ids);
    ghost var before := d.db;
    var out := d.RedisRemoveResource(schema, Child(uri, id));
    if id !in ids {
      AbsentIsSmooth(before, Some(schema), Child(uri, id));
      RemoveAbsent(before, d.db, Some(schema), Child(uri, id));
    } else {
      NotDeleted(before, d.db, uri, names, ids, indices, id);
    }
    if !out.Done? {
      return Tripped, j;
    }
    if id in ids {
      SmoothHasMembers(before, Some(schema), Child(uri, id));
    }
    ghost var removed := d.db;
    status, j := Unlink(d, uri, names, id, before, ids, indices);
    if id in ids {
      ClearedStays(before, removed, d.db, schema, Child(uri, id));
    }
  }

  lemma AbsentIsSmooth(db: Store, schema: Option<Schema>, key: Key)
    requires key !in db
    ensures ObjectSmooth(db, schema, key)
  {
    forall k | Under(key, k)
      ensures !ObjectTrips(db, schema, k, |key|)
    {
      assert k[..|key|] == key && (|k| == |key| ==> k == key);
    }
  }

  lemma SmoothHasMembers(db: Store, schema: Option<Schema>, key: Key)
    requires ObjectSmooth(db, schema, key)
    ensures SMembers(db, key).Some?
  {
    assert Under(key, key) && !ObjectTrips(db, schema, key, |key|);
  }

  lemma SameFresh(db: Store, db': Store, key: Key)
    requires Agree(db, db', key)
    ensures Fresh(db', key) == Fresh(db, key)
  {
    if Fresh(db, key) {
      forall k | k in db'
        ensures !Under(key, k)
      {
        assert Under(key, k) ==> Lookup(db', k) == Lookup(db, k);
      }
    }
    if Fresh(db', key) {
      forall k | k in db
        ensures !Under(key, k)
      {
        assert Under(key, k) ==> Lookup(db', k) == Lookup(db, k);
      }
    }
  }

  /** The second half of deletion: the index that links to the member, and its link. */
  method Unlink(d: Dispatcher, uri: Key, ghost names: set<string>, id: string, ghost db0: Store,
                ghost ids: seq<string>, ghost indices: seq<nat>) returns (status: Status, ghost j: nat)
    requires Consistent(db0, uri, names, ids, indices) && SlashFree(id) && id !in names
    requires Confined(db0, d.db, Child(uri, id)) && (id in ids ==> Child(uri, id) !in d.db)
    modifies d
    ensures id !in ids ==> status.Unlinked? && d.db == old(d.db)
    ensures id in ids ==>
              && status.Deleted? && j < |ids| && ids[j] == id
              && Consistent(d.db, uri, names, Drop(ids, j), Drop(indices, j))
              && Agree(old(d.db), d.db, Child(uri, id))
              && Fresh(d.db, IndexKey(uri, indices[j])) && OnlyMember(db0, d.db, uri, id)
  {
    ghost var removed := d.db;
    LinksLocal(db0, removed, uri, id, ids, indices);
    var items := LRange(d.db, MembersKey(uri)).value;
    var at := FindMember(d.db, uri, id, items, ids, indices);
    if at.None? {
      return Unlinked, 0;
    }
    j := at.value;
    d.db := LRem(d.db, MembersKey(uri), items[at.value]).value;
    ghost var dropped := d.db;
    d.db := Del(d.db, Child(MembersKey(uri), items[at.value]));
    d.db := Del(d.db, Child(Child(MembersKey(uri), items[at.value]), ODATA_ID));
    Collections.Deleted(db0, removed, dropped, d.db, uri, names, ids, indices, j);
    status := Status.Deleted;
  }

  // ---------- Deletion with a trailing slash ----------

  /** A path with a slash at its end resolves to the member, but its last token is empty: the handler
      removes what lies at the empty name beneath the member, and looks for the link in the member. */
  ghost predicate NothingBeneath(db: Store, member: Key) {
    && Child(member, "") !in db
    && (LRange(db, MembersKey(member)).Some? ==>
          forall item :: item in LRange(db, MembersKey(member)).value ==>
            Get(db, Child(Child(MembersKey(member), item), ODATA_ID)) != Some(Join(Child(member, ""))))
  }

  /** Such a DELETE leaves the collection and its members as they are.  It panics for want of a link if nothing
      lies where it looks, and then changes nothing at all. */
  method DeleteSlashed(d: Dispatcher, xname: string, uri: Key, names: set<string>, schema: Schema, id: string,
                       ghost ids: seq<string>, ghost indices: seq<nat>)
    returns (status: Status)
    requires SlashFree(id) && Consistent(d.db, uri, names, ids, indices)
    modifies d
    ensures status.NotFound? <==> !IsInstance(old(d.db), xname, uri, names, id)
    ensures status.NotFound? || status.Unlinked? || status.Strayed?
    ensures status.NotFound? ==> d.db == old(d.db)
    ensures NothingBeneath(old(d.db), Child(uri, id)) && !status.NotFound? ==> status.Unlinked? && d.db == old(d.db)
    ensures Consistent(d.db, uri, names, ids, indices) && Confined(old(d.db), d.db, Child(uri, id))
    ensures Lookup(d.db, Child(uri, id)) == Lookup(old(d.db), Child(uri, id))
  {
    if id in names || PrefixKey(xname, Child(uri, id)) !in d.db {
      return NotFound;
    }
    ghost var before := d.db;
    var member := Child(uri, id);
    status := RemoveBeneath(d, schema, member);
    StrayIsHarmless(before, d.db, uri, names, ids, indices, id);
  }

  method RemoveBeneath(d: Dispatcher, schema: Schema, member: Key) returns (status: Status)
    modifies d
    ensures status.Unlinked? || status.Strayed?
    ensures NothingBeneath(old(d.db), member) ==> status.Unlinked? && d.db == old(d.db)
    ensures Confined(old(d.db), d.db, member) && Lookup(d.db, member) == Lookup(old(d.db), member)
  {
    ghost var before := d.db;
    var request, list := Child(member, ""), MembersKey(member);
    var out := d.RedisRemoveResource(schema, request);
    ConfinedChild(before, d.db, member, "");
    if request !in before {
      AbsentIsSmooth(before, Some(schema), request);
      RemoveAbsent(before, d.db, Some(schema), request);
    }
    if !out.Done? {
      return Strayed;
    }
    ghost var removed := d.db;
    var items := LRange(d.db, list);
    if items.None? {
      return Unlinked;
    }
    var at := FindIndex(d.db, list, Join(request), items.value);
    if at.None? {
      return Unlinked;
    }
    var index := items.value[at.value];
    d.db := Del(Del(LRem(d.db, list, index).value, Child(list, index)), Child(Child(list, index), ODATA_ID));
    assert Under(member, list) && Under(member, Child(list, index)) &&
           Under(member, Child(Child(list, index), ODATA_ID));
    status := Strayed;
  }

  lemma StrayIsHarmless(db: Store, db': Store, uri: Key, names: set<string>, ids: seq<string>, indices: seq<nat>,
                        id: string)
    requires Consistent(db, uri, names, ids, indices) && id !in names
    requires Confined(db, db', Child(uri, id)) && Lookup(db', Child(uri, id)) == Lookup(db, Child(uri, id))
    ensures Consistent(db', uri, names, ids, indices)
  {
    ResourcesLocal(db, db', uri, names, IdSet(ids), IdSet(ids), id);
    LinksLocal(db, db', uri, id, ids, indices);
  }

  // ---------- Resolution ----------

  /** With an xname the key that resolution asks for lies outside the collection that creation and
      deletion work on. */
  lemma PrefixedOutside(xname: string, uri: Key, id: string, k: Key)
    requires xname != "" && uri != [] && Under(uri, k)
    ensures PrefixKey(xname, Child(uri, id)) != k
  {
    assert k[0] == k[..|uri|][0] == uri[0] && |xname + uri[0]| > |uri[0]|;
  }

  /** Without an xname the callback accepts exactly the members.  With one, whatever creations and deletions
      have done to the collection, it accepts what it accepted before. */
  lemma CallbackAfter(before: Store, db: Store, xname: string, uri: Key, names: set<string>, ids: seq<string>,
                      indices: seq<nat>)
    requires Confined(before, db, uri) && Consistent(db, uri, names, ids, indices)
    ensures forall id :: IsInstance(db, xname, uri, names, id) <==>
              if xname == "" then id in ids else IsInstance(before, xname, uri, names, id)
  {
    forall id
      ensures IsInstance(db, xname, uri, names, id) <==>
                if xname == "" then id in ids else IsInstance(before, xname, uri, names, id)
    {
      var key := PrefixKey(xname, Child(uri, id));
      if xname == "" {
        assert "" + uri[0] == uri[0] && key == Child(uri, id);
        assert id in ids <==> id in IdSet(ids);
      } else {
        if Under(uri, key) {
          PrefixedOutside(xname, uri, id, key);
        }
        assert Lookup(db, key) == Lookup(before, key);
      }
    }
  }

  /** A member that is created under a Host with an xname, and that no backend keeps a key for, is not
      found again under that Host: its deletion answers that there is none. */
  method CreateThenDelete(d: Dispatcher, xname: string, uri: Key, names: set<string>, schema: Schema, body: Json,
                          ghost ids: seq<string>, ghost indices: seq<nat>) returns (created: Status, deleted: Status)
    requires body.JObj? && NewId(body.fields).Some? && SlashFree(NewId(body.fields).value)
    requires Consistent(d.db, uri, names, ids, indices) && Bounded(indices, MAX_INT64)
    modifies d
    ensures created.Created? && xname != "" ==>
              (deleted.NotFound? <==> PrefixKey(xname, Child(uri, NewId(body.fields).value)) !in old(d.db))
    ensures created.Created? && xname == "" ==> !deleted.NotFound?
  {
    ghost var before, n, j := d.db, 0, 0;
    var id := NewId(body.fields).value;
    created, n := CreateMember(d, uri, names, schema, body, ids, indices);
    deleted := NotFound;
    if created.Created? {
      ghost var key := PrefixKey(xname, Child(uri, id));
      if xname == "" {
        assert "" + uri[0] == uri[0] && key == Child(uri, id);
        assert id in IdSet(ids + [id]);
      } else {
        assert Under(Child(uri, id), key) ==> Under(uri, key) by { UnderChild(uri, id, key); }
        assert Under(MembersKey(uri), key) ==> Under(uri, key) by { UnderChild(uri, MEMBERS, key); }
        assert !Under(uri, key) by {
          if Under(uri, key) {
            PrefixedOutside(xname, uri, id, key);
          }
        }
        assert Lookup(d.db, key) == Lookup(before, key);
      }
      deleted, j := DeleteMember(d, xname, uri, names, schema, id, ids + [id], indices + [n]);
    }
  }

  // ---------- Runs ----------

  /** A deletion comes under the xname of its Host, and its path may end in a slash. */
  datatype Request = Post(body: Json) | Delete(xname: string, id: string) | DeleteSlash(xname: string, id: string)

  /** A request whose name is one path segment. */
  ghost predicate Proper(request: Request) {
    match request
    case Delete(_, id) => SlashFree(id)
    case DeleteSlash(_, id) => SlashFree(id)
    case Post(body) => body.JObj? && (NewId(body.fields).Some? ==> SlashFree(NewId(body.fields).value))
  }

  /** The members after a request, told from its answer. */
  ghost function After(members: set<string>, request: Request, status: Status): set<string> {
    match request
    case Delete(_, id) => if status.Deleted? then members - {id} else members
    case DeleteSlash(_, _) => members
    case Post(body) =>
      if body.JObj? && NewId(body.fields).Some? && status.Created? then members + {NewId(body.fields).value}
      else members
  }

  ghost function AfterAll(members: set<string>, requests: seq<Request>, statuses: seq<Status>): set<string>
    requires |statuses| <= |requests|
  {
    if statuses == [] then members
    else
      var n := |statuses| - 1;
      After(AfterAll(members, requests[..n], statuses[..n]), requests[n], statuses[n])
  }

  lemma DropIds(ids: seq<string>, j: nat)
    requires j < |ids| && Distinct(ids)
    ensures IdSet(Drop(ids, j)) == IdSet(ids) - {ids[j]}
  {
    DropDistinct(ids, j);
  }

  lemma DropBounded(indices: seq<nat>, j: nat, bound: int)
    requires j < |indices| && Bounded(indices, bound)
    ensures Bounded(Drop(indices, j), bound)
  {
  }

  ghost predicate Ascending(indices: seq<nat>) {
    forall i, j :: 0 <= i < j < |indices| ==> indices[i] < indices[j]
  }

  lemma MemberConfined(db: Store, db': Store, uri: Key, id: string)
    ensures OnlyMember(db, db', uri, id) || Confined(db, db', Child(uri, id)) ==> Confined(db, db', uri)
  {
    forall k | !Under(uri, k)
      ensures !Under(Child(uri, id), k) && !Under(MembersKey(uri), k)
    {
      UnderChild(uri, id, k);
      UnderChild(uri, MEMBERS, k);
    }
  }

  /** What a served request keeps, whatever its answer: the members are those told by it. */
  ghost predicate Keeps(db: Store, db': Store, uri: Key, names: set<string>, members: set<string>, ids: seq<string>,
                        indices: seq<nat>, bound: int) {
    && Consistent(db', uri, names, ids, indices) && Bounded(indices, bound) && IdSet(ids) == members
    && Confined(db, db', uri)
  }

  method ServePost(d: Dispatcher, uri: Key, names: set<string>, schema: Schema, body: Json,
                   ghost ids: seq<string>, ghost indices: seq<nat>, ghost bound: int)
    returns (status: Status, ghost ids': seq<string>, ghost indices': seq<nat>)
    requires Proper(Post(body))
    requires Consistent(d.db, uri, names, ids, indices) && Bounded(indices, bound) && 2 <= bound <= MAX_INT64
    modifies d
    ensures !status.Tripped?
    ensures Keeps(old(d.db), d.db, uri, names, After(IdSet(ids), Post(body), status), ids', indices', bound + 1)
    ensures Ascending(indices) ==> Ascending(indices')
  {
    ghost var before, n := d.db, 0;
    ids', indices' := ids, indices;
    status, n := CreateMember(d, uri, names, schema, body, ids, indices);
    if status.Created? {
      ids', indices' := ids + [NewId(body.fields).value], indices + [n];
    }
    if NewId(body.fields).Some? {
      MemberConfined(before, d.db, uri, NewId(body.fields).value);
    }
  }

  method ServeDelete(d: Dispatcher, xname: string, uri: Key, names: set<string>, schema: Schema, id: string,
                     ghost ids: seq<string>, ghost indices: seq<nat>, ghost bound: int)
    returns (status: Status, ghost ids': seq<string>, ghost indices': seq<nat>)
    requires SlashFree(id) && Consistent(d.db, uri, names, ids, indices) && Bounded(indices, bound)
    modifies d
    ensures !status.Tripped? ==>
              Keeps(old(d.db), d.db, uri, names, After(IdSet(ids), Delete(xname, id), status), ids', indices',
                    bound + 1)
    ensures Ascending(indices) ==> Ascending(indices')
    ensures status.Tripped? ==>
              && Confined(old(d.db), d.db, uri)
              && (IsConsistent(d.db, uri, names) <==> SMembers(old(d.db), Child(uri, id)).None?)
  {
    ghost var before, j := d.db, 0;
    ids', indices' := ids, indices;
    status, j := DeleteMember(d, xname, uri, names, schema, id, ids, indices);
    MemberConfined(before, d.db, uri, id);
    if status.Deleted? {
      DropIds(ids, j);
      DropBounded(indices, j, bound);
      ids', indices' := Drop(ids, j), Drop(indices, j);
    }
  }

  method Serve(d: Dispatcher, uri: Key, names: set<string>, schema: Schema, request: Request,
               ghost ids: seq<string>, ghost indices: seq<nat>, ghost bound: int)
    returns (status: Status, ghost ids': seq<string>, ghost indices': seq<nat>)
    requires Proper(request)
    requires Consistent(d.db, uri, names, ids, indices) && Bounded(indices, bound) && 2 <= bound <= MAX_INT64
    modifies d
    ensures !status.Tripped? ==>
              && Keeps(old(d.db), d.db, uri, names, After(IdSet(ids), request, status), ids', indices', bound + 1)
              && (Ascending(indices) ==> Ascending(indices'))
    ensures status.Tripped? ==>
              && request.Delete? && Confined(old(d.db), d.db, uri)
              && (IsConsistent(d.db, uri, names) <==> SMembers(old(d.db), Child(uri, request.id)).None?)
  {
    match request {
      case Post(body) =>
        status, ids', indices' := ServePost(d, uri, names, schema, body, ids, indices, bound);
      case Delete(xname, id) =>
        status, ids', indices' := ServeDelete(d, xname, uri, names, schema, id, ids, indices, bound);
      case DeleteSlash(xname, id) =>
        ghost var before := d.db;
        ids', indices' := ids, indices;
        status := DeleteSlashed(d, xname, uri, names, schema, id, ids, indices);
        MemberConfined(before, d.db, uri, id);
    }
  }

  /** Every run of creations and deletions, panicking ones included, keeps the collection consistent up
      to the first deletion that trips over the keys of its resource; and that one breaks it if and
      only if the resource's key held a set. */
  method Run(d: Dispatcher, uri: Key, names: set<string>, schema: Schema, requests: seq<Request>,
             ghost ids: seq<string>, ghost indices: seq<nat>, ghost bound: int)
    returns (statuses: seq<Status>, ghost last: Store, ghost ids': seq<string>, ghost indices': seq<nat>)
    requires forall i :: 0 <= i < |requests| ==> Proper(requests[i])
    requires Consistent(d.db, uri, names, ids, indices)
    requires Bounded(indices, bound) && 2 <= bound && bound + |requests| <= MAX_INT64
    modifies d
    ensures |statuses| <= |requests| && forall i :: 0 <= i < |statuses| - 1 ==> !statuses[i].Tripped?
    ensures |statuses| < |requests| ==> statuses != [] && statuses[|statuses| - 1].Tripped?
    ensures statuses == [] || !statuses[|statuses| - 1].Tripped? ==>
              && |statuses| == |requests| && Consistent(d.db, uri, names, ids', indices')
              && IdSet(ids') == AfterAll(IdSet(ids), requests, statuses)
              && (Ascending(indices) ==> Ascending(indices'))
    ensures Confined(old(d.db), d.db, uri)
    ensures statuses != [] && statuses[|statuses| - 1].Tripped? ==>
              && requests[|statuses| - 1].Delete? && Consistent(last, uri, names, ids', indices')
              && (IsConsistent(d.db, uri, names) <==> SMembers(last, Child(uri, requests[|statuses| - 1].id)).None?)
  {
    ghost var db0 := d.db;
    statuses, ids', indices', last := [], ids, indices, d.db;
    while |statuses| < |requests|
      invariant |statuses| <= |requests| && forall i :: 0 <= i < |statuses| ==> !statuses[i].Tripped?
      invariant Keeps(db0, d.db, uri, names, AfterAll(IdSet(ids), requests, statuses), ids', indices',
                      bound + |statuses|)
      invariant Ascending(indices) ==> Ascending(indices')
    {
      var status;
      ghost var i, n;
      last := d.db;
      status, i, n := Serve(d, uri, names, schema, requests[|statuses|], ids', indices', bound + |statuses|);
      AfterOneMore(IdSet(ids), requests, statuses, status);
      ConfinedOn(db0, last, d.db, uri);
      statuses := statuses + [status];
      if status.Tripped? {
        return;
      }
      ids', indices' := i, n;
    }
  }

  lemma ConfinedOn(db: Store, before: Store, after: Store, uri: Key)
    requires Confined(db, before, uri)
    ensures Confined(before, after, uri) ==> Confined(db, after, uri)
  {
  }

  lemma {:induction false} AfterPrefix(members: set<string>, requests: seq<Request>, statuses: seq<Status>, n: nat)
    requires |statuses| <= n <= |requests|
    ensures AfterAll(members, requests[..n], statuses) == AfterAll(members, requests, statuses)
  {
    if statuses != [] {
      var k := |statuses| - 1;
      assert requests[..n][..k] == requests[..k];
    }
  }

  lemma AfterOneMore(members: set<string>, requests: seq<Request>, statuses: seq<Status>, status: Status)
    requires |statuses| < |requests|
    ensures AfterAll(members, requests, statuses + [status]) ==
            After(AfterAll(members, requests, statuses), requests[|statuses|], status)
  {
    var more, n := statuses + [status], |statuses|;
    assert more[..n] == statuses;
    AfterPrefix(members, requests, statuses, n);
  }

  // ---------- Lists that backends build ----------

  /** SADD of one member; the member's key. */
  method AddMemberToSet(d: Dispatcher, key: Key, member: string) returns (child: Option<Key>)
    modifies d
    ensures child.Some? <==> SAdd(old(d.db), key, {member}).Some?
    ensures child.Some? ==> child.value == Child(key, member) && SAdd(old(d.db), key, {member}) == Some(d.db)
    ensures child.None? ==> d.db == old(d.db)
  {
    match SAdd(d.db, key, {member}) {
      case None => child := None;
      case Some(db') =>
        d.db := db';
        child := Some(Child(key, member));
    }
  }

  /** Appends the length of the list to it; the first time the list is made a member of its object. */
  method AddMemberToArray(d: Dispatcher, key: Key, property: string) returns (element: Option<Key>)
    modifies d
    ensures LRange(old(d.db), Child(key, property)).None? ==> element.None? && d.db == old(d.db)
    ensures element.Some? ==>
              var list := LRange(old(d.db), Child(key, property)).value;
              && element.value == Child(Child(key, property), FormatNat(|list|))
              && LRange(d.db, Child(key, property)) == Some(list + [FormatNat(|list|)])
              && (if list == [] then HasMember(d.db, key, property) else Lookup(d.db, key) == Lookup(old(d.db), key))
    ensures forall k :: k != key && k != Child(key, property) ==> Lookup(d.db, k) == Lookup(old(d.db), k)
  {
    var list := LRange(d.db, Child(key, property));
    if list.None? {
      return None;
    }
    if list.value == [] {
      var child := AddMemberToSet(d, key, property);
      if child.None? {
        return None;
      }
      assert Child(key, property) != key;
    }
    match RPush(d.db, Child(key, property), [FormatNat(|list.value|)]) {
      case None => return None;
      case Some(db') =>
        d.db := db';
        return Some(Child(Child(key, property), FormatNat(|list.value|)));
    }
  }

  /** SET of a property's value and SADD of its name. */
  method SetValue(d: Dispatcher, key: Key, property: string, value: string)
    modifies d
    ensures Confined(old(d.db), d.db, key)
    ensures Fresh(old(d.db), key) ==> Holds(d.db, IObj(map[property := IStr(value)]), key)
  {
    ghost var db0 := d.db;
    d.db := d.db[Child(key, property) := Str(value)];
    var child := AddMemberToSet(d, key, property);
    assert Child(key, property)[..|key|] == key;
    if Fresh(db0, key) {
      assert Under(key, key) && Child(key, property) != key;
      assert {} + {property} == {property};
      ValueStored(db0, d.db, key, property, value);
    }
  }

  lemma ValueStored(db: Store, db': Store, key: Key, property: string, value: string)
    requires Fresh(db, key) && db' == db[Child(key, property) := Str(value)][key := Set({property})]
    ensures Holds(db', IObj(map[property := IStr(value)]), key)
  {
    assert map[property := IStr(value)].Keys == {property};
    forall k | Under(key, k)
      ensures Lookup(db', k) == At(IObj(map[property := IStr(value)]), k, |key|)
    {
      OneField(property, value, key, k);
      assert k == key || k == Child(key, property) || k !in db;
    }
  }

  /** Nothing changes but the collection's own set and what lies at or beneath its list. */
  ghost predicate ListOnly(db: Store, db': Store, uri: Key) {
    forall k :: k != uri && !Under(MembersKey(uri), k) ==> Lookup(db', k) == Lookup(db, k)
  }

  /** A backend lists its members: the indices are 0 up to the number of members. */
  method Populate(d: Dispatcher, uri: Key, ids: seq<string>) returns (ok: bool)
    requires Fresh(d.db, MembersKey(uri)) && Distinct(ids) && forall i :: 0 <= i < |ids| ==> SlashFree(ids[i])
    modifies d
    ensures ok ==> Lists(d.db, uri, Range(|ids|)) && Links(d.db, uri, ids, Range(|ids|))
    ensures ids != [] && ok ==> HasMember(d.db, uri, MEMBERS)
    ensures ListOnly(old(d.db), d.db, uri)
  {
    StartsEmpty(d.db, uri);
    for i := 0 to |ids|
      invariant Lists(d.db, uri, Range(i)) && Links(d.db, uri, ids[..i], Range(i))
      invariant i > 0 ==> HasMember(d.db, uri, MEMBERS)
      invariant ListOnly(old(d.db), d.db, uri)
    {
      ok := PopulateOne(d, uri, ids, i);
      if !ok {
        return;
      }
    }
    assert ids[..|ids|] == ids;
    ok := true;
  }

  lemma StartsEmpty(db: Store, uri: Key)
    requires Fresh(db, MembersKey(uri))
    ensures Lists(db, uri, Range(0)) && Links(db, uri, [], Range(0))
  {
    assert Under(MembersKey(uri), MembersKey(uri)) && Texts(Range(0)) == [];
  }

  lemma PopulateStep(db: Store, pushed: Store, linked: Store, uri: Key, ids: seq<string>, i: nat)
    requires i < |ids| && Distinct(ids) && SlashFree(ids[i])
    requires Links(db, uri, ids[..i], Range(i)) && Lists(pushed, uri, Range(i + 1))
    requires forall k :: k != uri && k != MembersKey(uri) ==> Lookup(pushed, k) == Lookup(db, k)
    requires Confined(pushed, linked, IndexKey(uri, i)) && Holds(linked, MemberLink(uri, ids[i]), IndexKey(uri, i))
    ensures Lists(linked, uri, Range(i + 1)) && Links(linked, uri, ids[..i + 1], Range(i + 1))
    ensures ListOnly(db, linked, uri) && Lookup(linked, uri) == Lookup(pushed, uri)
  {
    LinksStay(db, pushed, uri, ids[..i], Range(i));
    ListStays(pushed, linked, uri, i, Range(i + 1));
    RangeTexts(i);
    NewLink(pushed, linked, uri, ids[..i], Range(i), ids[i], i);
    RangeMore(ids, i);
    PopulateFrame(db, pushed, linked, uri, i);
  }

  lemma RangeMore(ids: seq<string>, i: nat)
    requires i < |ids|
    ensures Range(i) + [i] == Range(i + 1) && ids[..i] + [ids[i]] == ids[..i + 1]
  {
  }

  lemma PopulateFrame(db: Store, pushed: Store, linked: Store, uri: Key, i: nat)
    requires forall k :: k != uri && k != MembersKey(uri) ==> Lookup(pushed, k) == Lookup(db, k)
    requires Confined(pushed, linked, IndexKey(uri, i))
    ensures ListOnly(db, linked, uri) && Lookup(linked, uri) == Lookup(pushed, uri)
  {
    assert Under(MembersKey(uri), MembersKey(uri)) && !Under(MembersKey(uri), uri);
    ConfinedChild(pushed, linked, MembersKey(uri), FormatNat(i));
  }

  lemma PushedRange(db: Store, pushed: Store, uri: Key, ids: seq<string>, i: nat)
    requires Lists(db, uri, Range(i)) && Links(db, uri, ids, Range(i))
    requires LRange(pushed, MembersKey(uri)) == Some(Texts(Range(i)) + [FormatNat(i)])
    requires forall k :: k != uri && k != MembersKey(uri) ==> Lookup(pushed, k) == Lookup(db, k)
    ensures Lists(pushed, uri, Range(i + 1)) && Fresh(pushed, IndexKey(uri, i))
  {
    RangeTexts(i);
    LinksStay(db, pushed, uri, ids, Range(i));
    NewIndexIsFresh(pushed, uri, Range(i), i);
  }

  method PopulateOne(d: Dispatcher, uri: Key, ids: seq<string>, i: nat) returns (ok: bool)
    requires i < |ids| && Distinct(ids) && SlashFree(ids[i])
    requires Lists(d.db, uri, Range(i)) && Links(d.db, uri, ids[..i], Range(i)) &&
             (i > 0 ==> HasMember(d.db, uri, MEMBERS))
    modifies d
    ensures ok ==>
              Lists(d.db, uri, Range(i + 1)) && Links(d.db, uri, ids[..i + 1], Range(i + 1)) &&
              HasMember(d.db, uri, MEMBERS)
    ensures ListOnly(old(d.db), d.db, uri)
  {
    ghost var db0 := d.db;
    var element := AddMemberToArray(d, uri, MEMBERS);
    if element.None? {
      assert Under(MembersKey(uri), MembersKey(uri));
      return false;
    }
    ghost var pushed := d.db;
    RangeTexts(i);
    PushedRange(db0, pushed, uri, ids[..i], i);
    SetValue(d, element.value, ODATA_ID, Join(Child(uri, ids[i])));
    PopulateStep(db0, pushed, d.db, uri, ids, i);
    return true;
  }

  function Range(n: nat): seq<nat> {
    seq(n, i requires 0 <= i < n => i)
  }

  /** A list that only `AddMemberToArray` has pushed to is 0, 1, 2 and so on. */
  lemma RangeTexts(n: nat)
    ensures Texts(Range(n)) + [FormatNat(|Texts(Range(n))|)] == Texts(Range(n + 1)) && Texts(Range(0)) == []
    ensures Distinct(Range(n)) && n !in Range(n)
  {
  }

  /** The length of a list of distinct indices is free exactly when it is not among them; it is
      free in particular as long as the list is a range. */
  lemma LengthIsFree(db: Store, uri: Key, ids: seq<string>, indices: seq<nat>)
    requires Lists(db, uri, indices) && Links(db, uri, ids, indices)
    ensures Fresh(db, IndexKey(uri, |indices|)) <==> |indices| !in indices
    ensures indices == Range(|indices|) ==> |indices| !in indices
  {
    if |indices| in indices {
      var i :| 0 <= i < |indices| && indices[i] == |indices|;
      assert LinkAt(db, uri, ids[i], indices[i]);
      var key := IndexKey(uri, |indices|);
      assert Under(key, key);
      LinkKeys(db, uri, ids[i], key, key);
      assert Under(key, Child(key, ODATA_ID)) && Child(key, ODATA_ID) in db;
    } else {
      NewIndexIsFresh(db, uri, indices, |indices|);
    }
  }

  // ---------- The two allocators together ----------

  /** A backend adds to a collection of any origin: the indices stay distinct if and only if their
      number is not among them. */
  method AddToCollection(d: Dispatcher, uri: Key, ghost ids: seq<string>, ghost indices: seq<nat>)
    returns (element: Option<Key>)
    requires Lists(d.db, uri, indices) && Links(d.db, uri, ids, indices)
    modifies d
    ensures element.Some? ==>
              && Lists(d.db, uri, indices + [|indices|])
              && (Distinct(indices + [|indices|]) <==> |indices| !in indices)
  {
    element := AddMemberToArray(d, uri, MEMBERS);
    assert Texts(indices + [|indices|]) == Texts(indices) + [FormatNat(|indices|)];
    AddedDistinct(indices, |indices|);
  }

  lemma AddedDistinct(indices: seq<nat>, n: nat)
    requires Distinct(indices)
    ensures Distinct(indices + [n]) <==> n !in indices
  {
    var more := indices + [n];
    if n in indices {
      var i :| 0 <= i < |indices| && indices[i] == n;
      assert more[i] == more[|indices|];
    }
  }

  /** After a POST to an empty collection the next index that a backend adds is the one just used. */
  method CreateThenAdd(d: Dispatcher, uri: Key, names: set<string>, schema: Schema, body: Json)
    returns (created: Status, added: Option<Key>)
    requires body.JObj? && (NewId(body.fields).Some? ==> SlashFree(NewId(body.fields).value))
    requires Consistent(d.db, uri, names, [], [])
    modifies d
    ensures created.Created? && added.Some? ==> Lists(d.db, uri, [1, 1])
  {
    ghost var n;
    created, n := CreateMember(d, uri, names, schema, body, [], []);
    added := None;
    if created.Created? {
      NothingBefore(NewId(body.fields).value, n);
      added := AddToCollection(d, uri, [NewId(body.fields).value], [1]);
      assert [1] + [1] == [1, 1];
    }
  }

  lemma NothingBefore(id: string, n: nat)
    ensures [] + [id] == [id] && [] + [n] == [n]
  {
  }

  /** After a DELETE the index that a backend adds next is the number of those left. */
  method DeleteThenAdd(d: Dispatcher, xname: string, uri: Key, names: set<string>, schema: Schema, id: string,
                       ghost ids: seq<string>, ghost indices: seq<nat>)
    returns (deleted: Status, added: Option<Key>, ghost left: seq<nat>)
    requires SlashFree(id) && Consistent(d.db, uri, names, ids, indices)
    modifies d
    ensures deleted.Deleted? ==> exists j :: 0 <= j < |ids| && ids[j] == id && left == Drop(indices, j)
    ensures deleted.Deleted? && added.Some? ==>
              && Lists(d.db, uri, left + [|left|])
              && (Distinct(left + [|left|]) <==> |left| !in left)
  {
    ghost var j;
    deleted, j := DeleteMember(d, xname, uri, names, schema, id, ids, indices);
    added, left := None, [];
    if deleted.Deleted? {
      left := Drop(indices, j);
      added := AddToCollection(d, uri, Drop(ids, j), left);
    }
  }

  /** In a collection that the backends have built it is new if and only if the last was deleted. */
  lemma OnlyLastIsFree(n: nat, j: nat)
    requires j < n
    ensures |Drop(Range(n), j)| !in Drop(Range(n), j) <==> j == n - 1
  {
    DropDistinct(Range(n), j);
    assert Range(n)[n - 1] == n - 1 && |Drop(Range(n), j)| == n - 1;
  }

  // ---------- A creation after a panic ----------

  /** The same name posted twice, where the first creation panics: the second payload is stored as it
      is if and only if nothing that the first one left lies where it will be stored. */
  method CreateAgain(d: Dispatcher, uri: Key, names: set<string>, schema: Schema, first: Json, second: Json,
                     ghost ids: seq<string>, ghost indices: seq<nat>)
    returns (aborted: Status, created: Status, ghost between: Store)
    requires first.JObj? && second.JObj? && NewId(first.fields).Some? && NewId(second.fields) == NewId(first.fields)
    requires SlashFree(NewId(first.fields).value)
    requires Consistent(d.db, uri, names, ids, indices) && Bounded(indices, MAX_INT64)
    modifies d
    ensures aborted.Aborted? ==> Consistent(between, uri, names, ids, indices)
    ensures aborted.Aborted? ==>
              if NewData(schema, first).None? then between == old(d.db)
              else LeftByPanic(old(d.db), between, NewData(schema, first).value, Child(uri, NewId(first.fields).value))
    ensures aborted.Aborted? && created.Created? ==>
              && NewData(schema, second).Some?
              && var v, key := NewData(schema, second).value, Child(uri, NewId(second.fields).value);
                 && (forall k :: Under(key, k) ==> Lookup(d.db, k) == InsertAt(between, v, k, |key|))
                 && (Shows(d.db, v, key) <==> Untraced(between, v, key))
    ensures aborted.Aborted? ==>
              (created.Created? <==> NewData(schema, second).Some? &&
                                     !InsertTrips(between, NewData(schema, second).value,
                                                  Child(uri, NewId(second.fields).value)))
    ensures aborted.Aborted? <==>
              && NewId(first.fields).value !in names && NewId(first.fields).value !in ids
              && (NewData(schema, first).None? ||
                  InsertTrips(old(d.db), NewData(schema, first).value, Child(uri, NewId(first.fields).value)))
  {
    ghost var n, m;
    aborted, n := CreateMember(d, uri, names, schema, first, ids, indices);
    created, between := aborted, d.db;
    if aborted.Aborted? {
      created, m := CreateMember(d, uri, names, schema, second, ids, indices);
    }
  }
}
