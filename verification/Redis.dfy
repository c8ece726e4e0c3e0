/** The Redis keyspace as one map: every command is a function on it, with `None` for the error reply. */
module Redis {
  import opened Basics

  /** The "/"-separated segments; `Text.JoinInjective` says that nothing is lost by that. */
  type Key = seq<string>

  datatype Value = Str(text: string) | Set(members: set<string>) | List(items: seq<string>)

  type Store = map<Key, Value>

  function Lookup(db: Store, k: Key): Option<Value> {
    if k in db then Some(db[k]) else None
  }

  /** GET */
  function Get(db: Store, k: Key): Option<string> {
    if k in db && db[k].Str? then Some(db[k].text) else None
  }

  /** SMEMBERS: an absent key is the empty set. */
  function SMembers(db: Store, k: Key): Option<set<string>> {
    if k !in db then Some({}) else if db[k].Set? then Some(db[k].members) else None
  }

  function MembersOf(db: Store, k: Key): set<string> {
    if SMembers(db, k).Some? then SMembers(db, k).value else {}
  }

  /** LRANGE k 0 -1: an absent key is the empty list. */
  function LRange(db: Store, k: Key): Option<seq<string>> {
    if k !in db then Some([]) else if db[k].List? then Some(db[k].items) else None
  }

  /** SADD: an error without members or on a key of another type. */
  function SAdd(db: Store, k: Key, names: set<string>): Option<Store> {
    if names == {} || SMembers(db, k).None? then None
    else Some(db[k := Set(SMembers(db, k).value + names)])
  }

  /** SREM: the key goes away with its last member. */
  function SRem(db: Store, k: Key, name: string): Option<Store> {
    if SMembers(db, k).None? then None
    else if k !in db then Some(db)
    else if db[k].members - {name} == {} then Some(db - {k})
    else Some(db[k := Set(db[k].members - {name})])
  }

  /** RPUSH: an error without items or on a key of another type. */
  function RPush(db: Store, k: Key, items: seq<string>): Option<Store> {
    if items == [] || LRange(db, k).None? then None
    else Some(db[k := List(LRange(db, k).value + items)])
  }

  /** DEL */
  function Del(db: Store, k: Key): Store {
    db - {k}
  }

  function Without(items: seq<string>, item: string): seq<string> {
    if items == [] then []
    else (if items[0] == item then [] else [items[0]]) + Without(items[1..], item)
  }

  /** LREM k 0 item: every occurrence goes, and the key with the last item. */
  function LRem(db: Store, k: Key, item: string): Option<Store> {
    if LRange(db, k).None? then None
    else if k !in db then Some(db)
    else if Without(db[k].items, item) == [] then Some(db - {k})
    else Some(db[k := List(Without(db[k].items, item))])
  }

  // ---------- Subtrees ----------

  /** `k` is `key` or lies beneath it. */
  predicate Under(key: Key, k: Key) {
    |key| <= |k| && k[..|key|] == key
  }

  function Child(key: Key, name: string): Key {
    key + [name]
  }

  lemma UnderChild(key: Key, name: string, k: Key)
    ensures Under(Child(key, name), k) <==> Under(key, k) && |key| < |k| && k[|key|] == name
  {
    if |key| < |k| {
      assert k[..|key| + 1] == k[..|key|] + [k[|key|]];
      assert Child(key, name)[..|key|] == key;
    }
  }

  ghost predicate Fresh(db: Store, key: Key) {
    forall k :: k in db ==> !Under(key, k)
  }

  /** `db'` differs from `db` only under `key`. */
  ghost predicate Confined(db: Store, db': Store, key: Key) {
    forall k :: !Under(key, k) ==> Lookup(db', k) == Lookup(db, k)
  }

  ghost predicate Agree(db: Store, db': Store, key: Key) {
    forall k :: Under(key, k) ==> Lookup(db, k) == Lookup(db', k)
  }

  lemma ConfinedChild(db: Store, db': Store, key: Key, name: string)
    requires Confined(db, db', Child(key, name))
    ensures Confined(db, db', key)
  {
    forall k | !Under(key, k)
      ensures Lookup(db', k) == Lookup(db, k)
    {
      UnderChild(key, name, k);
    }
  }

  /** Stores with the same lookups are the same store. */
  lemma SameLookups(db: Store, db': Store)
    requires forall k :: Lookup(db', k) == Lookup(db, k)
    ensures db' == db
  {
    forall k
      ensures k in db <==> k in db'
      ensures k in db ==> db'[k] == db[k]
    {
      assert Lookup(db', k) == Lookup(db, k);
    }
  }

  /** The stores agree on every prefix of `k` from depth `i` on. */
  ghost predicate SameAlong(db: Store, db': Store, k: Key, i: nat)
    requires i <= |k|
  {
    forall j {:trigger k[..j]} :: i <= j <= |k| ==> Lookup(db, k[..j]) == Lookup(db', k[..j])
  }

  /** Stores that agree under `key` agree along every key beneath it. */
  lemma SameUnderAlong(db: Store, db': Store, key: Key, k: Key)
    requires Under(key, k)
    requires forall q :: Under(key, q) ==> Lookup(db, q) == Lookup(db', q)
    ensures SameAlong(db, db', k, |key|)
  {
    forall j {:trigger k[..j]} | |key| <= j <= |k|
      ensures Lookup(db, k[..j]) == Lookup(db', k[..j])
    {
      assert k[..j][..|key|] == k[..|key|];
    }
  }
}
