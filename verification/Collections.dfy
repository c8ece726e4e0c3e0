/** Creating and deleting the members of a collection. */
module Collections {
  import opened Basics
  import opened Text
  import opened Redis
  import opened Schema
  import opened Convert
  import opened Insert
  import opened Remove
  import Inverse

  const MEMBERS := "Members"

  // A member is a resource, its index in the collection's list, and the link stored under that index.

  function MembersKey(uri: Key): Key {
    Child(uri, MEMBERS)
  }

  function IndexKey(uri: Key, index: nat): Key {
    Child(MembersKey(uri), FormatNat(index))
  }

  /** The data of the link to member `id`. */
  function MemberLink(uri: Key, id: string): Inter {
    LinkData(Join(Child(uri, id)))
  }

  function Texts(indices: seq<nat>): seq<string> {
    seq(|indices|, i requires 0 <= i < |indices| => FormatNat(indices[i]))
  }

  // ---------- What a collection looks like ----------

  /** The list holds the indices; an absent list is empty. */
  ghost predicate Lists(db: Store, uri: Key, indices: seq<nat>) {
    LRange(db, MembersKey(uri)) == Some(Texts(indices))
  }

  ghost predicate LinkAt(db: Store, uri: Key, id: string, index: nat) {
    SlashFree(id) && Holds(db, MemberLink(uri, id), IndexKey(uri, index))
  }

  ghost predicate OnlyIndices(db: Store, uri: Key, indices: seq<nat>) {
    forall k :: k in db && Under(MembersKey(uri), k) && |k| > |uri| + 1 ==> k[|uri| + 1] in Texts(indices)
  }

  /** Under index `indices[i]` lies the link to `ids[i]`, and nothing else lies beneath the list. */
  ghost predicate Links(db: Store, uri: Key, ids: seq<string>, indices: seq<nat>) {
    && |ids| == |indices| && Distinct(ids) && Distinct(indices)
    && (forall i {:trigger LinkAt(db, uri, ids[i], indices[i])} :: 0 <= i < |ids| ==>
          LinkAt(db, uri, ids[i], indices[i]))
    && OnlyIndices(db, uri, indices)
  }

  /** A member resource that deletion removes completely. */
  ghost predicate Removable(db: Store, schema: Schema, key: Key) {
    && key in db && ObjectSmooth(db, Some(schema), key)
    && forall k :: k in db && Under(key, k) ==> ObjectDeletes(db, Some(schema), k, |key|)
  }

  /** The keys of resources in the collection are exactly those of the members `ids`. */
  ghost predicate Resources(db: Store, uri: Key, names: set<string>, ids: set<string>) {
    ids !! names && forall id {:trigger Child(uri, id)} :: id !in names ==> (Child(uri, id) in db <==> id in ids)
  }

  ghost function IdSet(ids: seq<string>): set<string> {
    set id | id in ids
  }

  /** Distinct indices, each with the link to one member, and a resource for each link; what lies
      beneath the members is free.  `names` are the collection's own properties, which no member
      may be called. */
  ghost predicate Consistent(db: Store, uri: Key, names: set<string>, ids: seq<string>, indices: seq<nat>) {
    && uri != [] && MEMBERS in names && (forall i :: 0 <= i < |uri| ==> SlashFree(uri[i]))
    && Lists(db, uri, indices) && Links(db, uri, ids, indices) && Resources(db, uri, names, IdSet(ids))
  }

  ghost predicate IsConsistent(db: Store, uri: Key, names: set<string>) {
    exists ids, indices :: Consistent(db, uri, names, ids, indices)
  }

  // ---------- Locality ----------

  /** What happens under one child does not show under another. */
  lemma OtherChild(db: Store, db': Store, uri: Key, name: string, other: string)
    requires Confined(db, db', Child(uri, name)) && name != other
    ensures Agree(db, db', Child(uri, other))
  {
    forall k | Under(Child(uri, other), k)
      ensures Lookup(db', k) == Lookup(db, k)
    {
      UnderChild(uri, other, k);
      UnderChild(uri, name, k);
    }
  }

  /** A change under child `name` leaves the other resources what they are. */
  lemma ResourcesLocal(db: Store, db': Store, uri: Key, names: set<string>, ids: set<string>, ids': set<string>,
                       name: string)
    requires Resources(db, uri, names, ids) && Confined(db, db', Child(uri, name))
    requires ids' !! names && forall id :: id != name ==> (id in ids <==> id in ids')
    requires name !in names ==> (Child(uri, name) in db' <==> name in ids')
    ensures Resources(db', uri, names, ids')
  {
    forall id {:trigger Child(uri, id)} | id !in names && id != name
      ensures Child(uri, id) in db' <==> id in ids'
    {
      OtherChild(db, db', uri, name, id);
      assert Under(Child(uri, id), Child(uri, id)) && Lookup(db', Child(uri, id)) == Lookup(db, Child(uri, id));
    }
  }

  lemma LinkAtLocal(db: Store, db': Store, uri: Key, id: string, index: nat)
    requires LinkAt(db, uri, id, index) && Agree(db, db', IndexKey(uri, index))
    ensures LinkAt(db', uri, id, index)
  {
    forall k | Under(IndexKey(uri, index), k)
      ensures Lookup(db', k) == At(MemberLink(uri, id), k, |IndexKey(uri, index)|)
    {
      assert Lookup(db', k) == Lookup(db, k);
    }
  }

  /** What lies beneath the list stays. */
  ghost predicate SameBeneath(db: Store, db': Store, uri: Key) {
    forall k :: Under(MembersKey(uri), k) && |k| > |uri| + 1 ==> Lookup(db', k) == Lookup(db, k)
  }

  lemma LinksStay(db: Store, db': Store, uri: Key, ids: seq<string>, indices: seq<nat>)
    requires Links(db, uri, ids, indices) && SameBeneath(db, db', uri)
    ensures Links(db', uri, ids, indices)
  {
    forall i {:trigger LinkAt(db', uri, ids[i], indices[i])} | 0 <= i < |ids|
      ensures LinkAt(db', uri, ids[i], indices[i])
    {
      assert LinkAt(db, uri, ids[i], indices[i]);
      BeneathIndex(db, db', uri, indices[i]);
      LinkAtLocal(db, db', uri, ids[i], indices[i]);
    }
    forall k | k in db' && Under(MembersKey(uri), k) && |k| > |uri| + 1
      ensures k[|uri| + 1] in Texts(indices)
    {
      assert Lookup(db', k) == Lookup(db, k);
    }
  }

  lemma BeneathIndex(db: Store, db': Store, uri: Key, index: nat)
    requires SameBeneath(db, db', uri)
    ensures Agree(db, db', IndexKey(uri, index))
  {
    forall k | Under(IndexKey(uri, index), k)
      ensures Lookup(db', k) == Lookup(db, k)
    {
      UnderChild(MembersKey(uri), FormatNat(index), k);
    }
  }

  /** A change under another child leaves the list and the links what they are. */
  lemma LinksLocal(db: Store, db': Store, uri: Key, name: string, ids: seq<string>, indices: seq<nat>)
    requires Lists(db, uri, indices) && Links(db, uri, ids, indices)
    requires Confined(db, db', Child(uri, name)) && name != MEMBERS
    ensures Lists(db', uri, indices) && Links(db', uri, ids, indices)
  {
    OtherChild(db, db', uri, name, MEMBERS);
    assert Under(MembersKey(uri), MembersKey(uri));
    assert Lookup(db', MembersKey(uri)) == Lookup(db, MembersKey(uri));
    LinksStay(db, db', uri, ids, indices);
  }

  // ---------- The new member ----------

  /** A resource just inserted from converted data can be deleted completely. */
  lemma InsertedIsRemovable(db: Store, schema: Schema, v: Inter, key: Key)
    requires v.IObj? && Inverse.FitsObject(Some(schema), v) && Insertable(v) && Holds(db, v, key)
    ensures Removable(db, schema, key)
  {
    assert Under(key, key) && Lookup(db, key) == At(v, key, |key|);
    forall k | Under(key, k)
      ensures !ObjectTrips(db, Some(schema), k, |key|)
      ensures k in db ==> ObjectDeletes(db, Some(schema), k, |key|)
    {
      assert Lookup(db, k) == At(v, k, |key|);
      Inverse.ObjectFound(db, Some(schema), v, k, |key|);
    }
  }

  lemma PushedIndex(db: Store, db': Store, uri: Key, ids: seq<string>, indices: seq<nat>, n: nat)
    requires Lists(db, uri, indices) && Links(db, uri, ids, indices)
    requires RPush(db, MembersKey(uri), [FormatNat(n)]) == Some(db')
    ensures Lists(db', uri, indices + [n]) && Links(db', uri, ids, indices)
    ensures Confined(db, db', MembersKey(uri))
    ensures n !in indices ==> Fresh(db', IndexKey(uri, n))
  {
    assert Texts(indices + [n]) == Texts(indices) + [FormatNat(n)];
    LinksStay(db, db', uri, ids, indices);
    if n !in indices {
      NewIndexIsFresh(db', uri, indices, n);
    }
  }

  lemma NewIndexIsFresh(db: Store, uri: Key, indices: seq<nat>, n: nat)
    requires OnlyIndices(db, uri, indices) && n !in indices
    ensures Fresh(db, IndexKey(uri, n))
  {
    TextsHas(indices, n);
    forall k | k in db
      ensures !Under(IndexKey(uri, n), k)
    {
      UnderChild(MembersKey(uri), FormatNat(n), k);
    }
  }

  lemma TextsHas(indices: seq<nat>, n: nat)
    ensures FormatNat(n) in Texts(indices) <==> n in indices
  {
    if FormatNat(n) in Texts(indices) {
      var i :| 0 <= i < |indices| && Texts(indices)[i] == FormatNat(n);
      FormatNatInjective(indices[i], n);
    }
    if n in indices {
      var i :| 0 <= i < |indices| && indices[i] == n;
      assert Texts(indices)[i] == FormatNat(n);
    }
  }

  lemma NewLink(db: Store, db': Store, uri: Key, ids: seq<string>, indices: seq<nat>, id: string, n: nat)
    requires Links(db, uri, ids, indices) && id !in ids && n !in indices && SlashFree(id)
    requires Confined(db, db', IndexKey(uri, n)) && Holds(db', MemberLink(uri, id), IndexKey(uri, n))
    ensures Links(db', uri, ids + [id], indices + [n])
  {
    var ids', indices' := ids + [id], indices + [n];
    forall i {:trigger LinkAt(db', uri, ids'[i], indices'[i])} | 0 <= i < |ids'|
      ensures LinkAt(db', uri, ids'[i], indices'[i])
    {
      if i < |ids| {
        assert LinkAt(db, uri, ids[i], indices[i]);
        OtherIndex(db, db', uri, n, indices[i]);
        LinkAtLocal(db, db', uri, ids[i], indices[i]);
      }
    }
    OneMoreIndex(db, db', uri, indices, n);
  }

  lemma OtherIndex(db: Store, db': Store, uri: Key, n: nat, m: nat)
    requires Confined(db, db', IndexKey(uri, n)) && n != m
    ensures Agree(db, db', IndexKey(uri, m))
  {
    if FormatNat(m) == FormatNat(n) {
      FormatNatInjective(m, n);
    }
    OtherChild(db, db', MembersKey(uri), FormatNat(n), FormatNat(m));
  }

  lemma OneMoreIndex(db: Store, db': Store, uri: Key, indices: seq<nat>, n: nat)
    requires OnlyIndices(db, uri, indices) && Confined(db, db', IndexKey(uri, n))
    ensures OnlyIndices(db', uri, indices + [n])
  {
    assert Texts(indices + [n]) == Texts(indices) + [FormatNat(n)];
    forall k | k in db' && Under(MembersKey(uri), k) && |k| > |uri| + 1
      ensures k[|uri| + 1] in Texts(indices + [n])
    {
      UnderChild(MembersKey(uri), FormatNat(n), k);
      if !Under(IndexKey(uri, n), k) {
        assert Lookup(db', k) == Lookup(db, k);
      }
    }
  }

  // ---------- The deleted member ----------

  ghost function Drop<T>(s: seq<T>, j: nat): seq<T>
    requires j < |s|
  {
    s[..j] + s[j + 1..]
  }

  lemma DropDistinct<T>(s: seq<T>, j: nat)
    requires j < |s| && Distinct(s)
    ensures Distinct(Drop(s, j)) && forall x :: x in Drop(s, j) <==> x in s && x != s[j]
  {
    var d := Drop(s, j);
    forall i | 0 <= i < |d|
      ensures d[i] == s[if i < j then i else i + 1]
    {
    }
    forall i | 0 <= i < |s| && i != j
      ensures s[i] in d
    {
      assert d[if i < j then i else i - 1] == s[i];
    }
  }

  lemma {:induction false} WithoutAbsent(items: seq<string>, item: string)
    requires item !in items
    ensures Without(items, item) == items
  {
    if items != [] {
      WithoutAbsent(items[1..], item);
    }
  }

  lemma {:induction false} WithoutDistinct(items: seq<string>, j: nat)
    requires j < |items| && Distinct(items)
    ensures Without(items, items[j]) == Drop(items, j)
  {
    var rest := items[1..];
    assert forall i, k :: 0 <= i < k < |rest| ==> rest[i] == items[i + 1] && rest[k] == items[k + 1];
    if j == 0 {
      assert items[0] !in rest;
      WithoutAbsent(rest, items[0]);
    } else {
      WithoutDistinct(rest, j - 1);
      assert rest[j - 1] == items[j] && items[0] != items[j];
      assert Drop(items, j) == [items[0]] + Drop(rest, j - 1);
    }
  }

  lemma TextsDistinct(indices: seq<nat>)
    requires Distinct(indices)
    ensures Distinct(Texts(indices))
  {
    forall i, j | 0 <= i < j < |indices|
      ensures Texts(indices)[i] != Texts(indices)[j]
    {
      if FormatNat(indices[i]) == FormatNat(indices[j]) {
        FormatNatInjective(indices[i], indices[j]);
      }
    }
  }

  lemma TextsWithout(indices: seq<nat>, j: nat)
    requires Distinct(indices) && j < |indices|
    ensures Without(Texts(indices), FormatNat(indices[j])) == Texts(Drop(indices, j))
  {
    TextsDistinct(indices);
    WithoutDistinct(Texts(indices), j);
    assert Drop(Texts(indices), j) == Texts(Drop(indices, j));
  }

  lemma DroppedIndex(db: Store, db': Store, uri: Key, ids: seq<string>, indices: seq<nat>, j: nat)
    requires Lists(db, uri, indices) && Links(db, uri, ids, indices) && j < |ids|
    requires LRem(db, MembersKey(uri), FormatNat(indices[j])) == Some(db')
    ensures Lists(db', uri, Drop(indices, j)) && Links(db', uri, ids, indices)
    ensures Confined(db, db', MembersKey(uri))
  {
    TextsWithout(indices, j);
    LinksStay(db, db', uri, ids, indices);
  }

  lemma OneField(name: string, text: string, key: Key, k: Key)
    requires Under(key, k)
    ensures At(IObj(map[name := IStr(text)]), Child(key, name), |key|) == Some(Str(text))
    ensures At(IObj(map[name := IStr(text)]), k, |key|).Some? ==> k == key || k == Child(key, name)
  {
    var v := IObj(map[name := IStr(text)]);
    var child := Child(key, name);
    assert child[|key|] == name && At(v, child, |key|) == At(IStr(text), child, |key| + 1);
    if At(v, k, |key|).Some? && |k| > |key| {
      assert k[|key|] == name && At(v, k, |key|) == At(IStr(text), k, |key| + 1);
      assert k == k[..|key|] + [k[|key|]] == child;
    }
  }

  /** The two keys of a link are all that lies under its index. */
  lemma LinkKeys(db: Store, uri: Key, id: string, key: Key, k: Key)
    requires Holds(db, MemberLink(uri, id), key) && Under(key, k)
    ensures Lookup(db, Child(key, ODATA_ID)) == Some(Str(Join(Child(uri, id))))
    ensures k in db ==> k == key || k == Child(key, ODATA_ID)
  {
    OneField(ODATA_ID, Join(Child(uri, id)), key, k);
    assert Child(key, ODATA_ID)[..|key|] == key && Under(key, Child(key, ODATA_ID));
    assert Lookup(db, k) == At(MemberLink(uri, id), k, |key|);
  }

  lemma DroppedLink(db: Store, db': Store, uri: Key, ids: seq<string>, indices: seq<nat>, j: nat)
    requires Links(db, uri, ids, indices) && j < |ids|
    requires db' == Del(Del(db, IndexKey(uri, indices[j])), Child(IndexKey(uri, indices[j]), ODATA_ID))
    ensures Links(db', uri, Drop(ids, j), Drop(indices, j))
    ensures Confined(db, db', IndexKey(uri, indices[j]))
  {
    var ids', indices', key := Drop(ids, j), Drop(indices, j), IndexKey(uri, indices[j]);
    assert Child(key, ODATA_ID)[..|key|] == key;
    DropDistinct(ids, j);
    DropDistinct(indices, j);
    forall i {:trigger LinkAt(db', uri, ids'[i], indices'[i])} | 0 <= i < |ids'|
      ensures LinkAt(db', uri, ids'[i], indices'[i])
    {
      var m := if i < j then i else i + 1;
      assert ids'[i] == ids[m] && indices'[i] == indices[m] && LinkAt(db, uri, ids[m], indices[m]);
      OtherIndex(db, db', uri, indices[j], indices[m]);
      LinkAtLocal(db, db', uri, ids[m], indices[m]);
    }
    assert LinkAt(db, uri, ids[j], indices[j]);
    OneIndexLess(db, db', uri, indices, j, ids[j]);
  }

  lemma OneIndexLess(db: Store, db': Store, uri: Key, indices: seq<nat>, j: nat, id: string)
    requires j < |indices| && Distinct(indices) && OnlyIndices(db, uri, indices) && LinkAt(db, uri, id, indices[j])
    requires db' == Del(Del(db, IndexKey(uri, indices[j])), Child(IndexKey(uri, indices[j]), ODATA_ID))
    ensures OnlyIndices(db', uri, Drop(indices, j))
  {
    var key, indices' := IndexKey(uri, indices[j]), Drop(indices, j);
    DropDistinct(indices, j);
    forall k | k in db' && Under(MembersKey(uri), k) && |k| > |uri| + 1
      ensures k[|uri| + 1] in Texts(indices')
    {
      UnderChild(MembersKey(uri), FormatNat(indices[j]), k);
      if Under(key, k) {
        LinkKeys(db, uri, id, key, k);
      }
      assert k in db && k[|uri| + 1] in Texts(indices);
      var m :| 0 <= m < |indices| && Texts(indices)[m] == k[|uri| + 1];
      TextsHas(indices', indices[m]);
    }
  }

  /** Removal leaves nothing of a resource if and only if it leads to all of its keys. */
  lemma RemovedCompletely(db: Store, db': Store, schema: Schema, key: Key)
    requires key in db && ObjectSmooth(db, Some(schema), key) && ObjectRemoved(db, db', Some(schema), key)
    ensures Fresh(db', key) <==> Removable(db, schema, key)
  {
    forall k | Under(key, k)
      ensures Lookup(db', k) == if ObjectDeletes(db, Some(schema), k, |key|) then None else Lookup(db, k)
    {
    }
    if Fresh(db', key) {
      forall k | k in db && Under(key, k)
        ensures ObjectDeletes(db, Some(schema), k, |key|)
      {
        assert Lookup(db', k) == None;
      }
    }
  }

  // ---------- Whole steps ----------

  /** Nothing changes but the member's resource and what lies at or beneath the list. */
  ghost predicate OnlyMember(db: Store, db': Store, uri: Key, id: string) {
    forall k :: !Under(Child(uri, id), k) && !Under(MembersKey(uri), k) ==> Lookup(db', k) == Lookup(db, k)
  }

  /** Inserting the resource, pushing its index and inserting its link, one after the other. */
  lemma Created(db: Store, inserted: Store, pushed: Store, linked: Store, uri: Key, names: set<string>,
                ids: seq<string>, indices: seq<nat>, id: string, n: nat)
    requires Consistent(db, uri, names, ids, indices) && id !in names && id !in ids && n !in indices && SlashFree(id)
    requires Confined(db, inserted, Child(uri, id)) && Child(uri, id) in inserted
    requires RPush(inserted, MembersKey(uri), [FormatNat(n)]) == Some(pushed)
    requires Confined(pushed, linked, IndexKey(uri, n)) && Holds(linked, MemberLink(uri, id), IndexKey(uri, n))
    ensures Consistent(linked, uri, names, ids + [id], indices + [n])
    ensures Agree(inserted, linked, Child(uri, id)) && OnlyMember(db, linked, uri, id)
  {
    ResourcesLocal(db, inserted, uri, names, IdSet(ids), IdSet(ids + [id]), id);
    LinksLocal(db, inserted, uri, id, ids, indices);
    PushedIndex(inserted, pushed, uri, ids, indices, n);
    ConfinedChild(pushed, linked, MembersKey(uri), FormatNat(n));
    ResourcesLocal(inserted, pushed, uri, names, IdSet(ids + [id]), IdSet(ids + [id]), MEMBERS);
    ResourcesLocal(pushed, linked, uri, names, IdSet(ids + [id]), IdSet(ids + [id]), MEMBERS);
    NewLink(pushed, linked, uri, ids, indices, id, n);
    ListStays(pushed, linked, uri, n, indices + [n]);
    OtherChild(inserted, pushed, uri, MEMBERS, id);
    OtherChild(pushed, linked, uri, MEMBERS, id);
  }

  /** A creation that has panicked: what it left beneath the member's key, which does not exist, does
      not matter. */
  lemma NotCreated(db: Store, db': Store, uri: Key, names: set<string>, ids: seq<string>, indices: seq<nat>, id: string)
    requires Consistent(db, uri, names, ids, indices) && id !in names && id !in ids
    requires Confined(db, db', Child(uri, id)) && Child(uri, id) !in db'
    ensures Consistent(db', uri, names, ids, indices)
  {
    ResourcesLocal(db, db', uri, names, IdSet(ids), IdSet(ids), id);
    LinksLocal(db, db', uri, id, ids, indices);
  }

  /** A deletion that has panicked breaks the collection if and only if the member's key is gone. */
  lemma NotDeleted(db: Store, db': Store, uri: Key, names: set<string>, ids: seq<string>, indices: seq<nat>, id: string)
    requires Consistent(db, uri, names, ids, indices) && id in ids && Confined(db, db', Child(uri, id))
    ensures IsConsistent(db', uri, names) <==> Child(uri, id) in db'
  {
    assert id in IdSet(ids) && id !in names;
    LinksLocal(db, db', uri, id, ids, indices);
    if Child(uri, id) in db' {
      ResourcesLocal(db, db', uri, names, IdSet(ids), IdSet(ids), id);
      assert Consistent(db', uri, names, ids, indices);
    }
    if IsConsistent(db', uri, names) {
      var ids', indices' :| Consistent(db', uri, names, ids', indices');
      var j :| 0 <= j < |ids| && ids[j] == id;
      SameTexts(indices, indices');
      assert LinkAt(db', uri, ids[j], indices[j]) && LinkAt(db', uri, ids'[j], indices'[j]);
      LinkFound(db', uri, ids', indices', j, id);
      LinkFound(db', uri, ids, indices, j, id);
      assert ids'[j] == id && id in IdSet(ids');
    }
  }

  lemma SameTexts(a: seq<nat>, b: seq<nat>)
    requires Texts(a) == Texts(b)
    ensures a == b
  {
    forall i | 0 <= i < |a|
      ensures a[i] == b[i]
    {
      assert Texts(a)[i] == Texts(b)[i];
      FormatNatInjective(a[i], b[i]);
    }
  }

  lemma ListStays(db: Store, db': Store, uri: Key, n: nat, indices: seq<nat>)
    requires Lists(db, uri, indices) && Confined(db, db', IndexKey(uri, n))
    ensures Lists(db', uri, indices)
  {
    assert !Under(IndexKey(uri, n), MembersKey(uri));
    assert Lookup(db', MembersKey(uri)) == Lookup(db, MembersKey(uri));
  }

  /** Removing the resource, its index and its link, one after the other. */
  lemma Deleted(db: Store, removed: Store, dropped: Store, unlinked: Store, uri: Key, names: set<string>,
                ids: seq<string>, indices: seq<nat>, j: nat)
    requires Consistent(db, uri, names, ids, indices) && j < |ids|
    requires Confined(db, removed, Child(uri, ids[j])) && Child(uri, ids[j]) !in removed
    requires LRem(removed, MembersKey(uri), FormatNat(indices[j])) == Some(dropped)
    requires unlinked == Del(Del(dropped, IndexKey(uri, indices[j])), Child(IndexKey(uri, indices[j]), ODATA_ID))
    ensures Consistent(unlinked, uri, names, Drop(ids, j), Drop(indices, j))
    ensures Agree(removed, unlinked, Child(uri, ids[j])) && Fresh(unlinked, IndexKey(uri, indices[j]))
    ensures OnlyMember(db, unlinked, uri, ids[j])
  {
    var id, ids' := ids[j], Drop(ids, j);
    assert id in IdSet(ids) && id !in names;
    DropDistinct(ids, j);
    DropDistinct(indices, j);
    ResourcesLocal(db, removed, uri, names, IdSet(ids), IdSet(ids'), id);
    LinksLocal(db, removed, uri, id, ids, indices);
    DroppedIndex(removed, dropped, uri, ids, indices, j);
    DroppedLink(dropped, unlinked, uri, ids, indices, j);
    ConfinedChild(dropped, unlinked, MembersKey(uri), FormatNat(indices[j]));
    ResourcesLocal(removed, dropped, uri, names, IdSet(ids'), IdSet(ids'), MEMBERS);
    ResourcesLocal(dropped, unlinked, uri, names, IdSet(ids'), IdSet(ids'), MEMBERS);
    ListStays(dropped, unlinked, uri, indices[j], Drop(indices, j));
    OtherChild(removed, dropped, uri, MEMBERS, id);
    OtherChild(dropped, unlinked, uri, MEMBERS, id);
    NewIndexIsFresh(unlinked, uri, Drop(indices, j), indices[j]);
  }

  /** Which index a stored link is found under. */
  lemma LinkFound(db: Store, uri: Key, ids: seq<string>, indices: seq<nat>, i: nat, id: string)
    requires Links(db, uri, ids, indices) && i < |ids| && SlashFree(id)
    requires forall j :: 0 <= j < |uri| ==> SlashFree(uri[j])
    ensures Get(db, Child(Child(MembersKey(uri), Texts(indices)[i]), ODATA_ID)) == Some(Join(Child(uri, ids[i])))
    ensures Join(Child(uri, ids[i])) == Join(Child(uri, id)) <==> ids[i] == id
  {
    assert LinkAt(db, uri, ids[i], indices[i]) && Under(IndexKey(uri, indices[i]), IndexKey(uri, indices[i]));
    LinkKeys(db, uri, ids[i], IndexKey(uri, indices[i]), IndexKey(uri, indices[i]));
    if Join(Child(uri, ids[i])) == Join(Child(uri, id)) {
      JoinInjective(Child(uri, ids[i]), Child(uri, id));
      assert Child(uri, ids[i])[|uri|] == Child(uri, id)[|uri|];
    }
  }

  /** The link under index `n` leads to member `id`. */
  ghost predicate LinksTo(db: Store, uri: Key, n: nat, id: string) {
    Get(db, Child(IndexKey(uri, n), ODATA_ID)) == Some(Join(Child(uri, id)))
  }

  /** A member resource exists exactly when one index, and no more than one, links to it. */
  lemma LinksAreMembers(db: Store, uri: Key, names: set<string>, ids: seq<string>, indices: seq<nat>, id: string)
    requires Consistent(db, uri, names, ids, indices) && id !in names && SlashFree(id)
    ensures Child(uri, id) in db <==> exists i :: 0 <= i < |indices| && LinksTo(db, uri, indices[i], id)
    ensures forall i, j :: 0 <= i < j < |indices| ==>
              !LinksTo(db, uri, indices[i], id) || !LinksTo(db, uri, indices[j], id)
  {
    assert Under(Child(uri, id), Child(uri, id));
    forall i | 0 <= i < |indices|
      ensures LinksTo(db, uri, indices[i], id) <==> ids[i] == id
    {
      LinkFound(db, uri, ids, indices, i, id);
    }
  }
}
