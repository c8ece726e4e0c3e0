/** What a client reads of a collection: its members' links, in the order of the list, and their number. */
module CollectionView {
  import opened Basics
  import opened Text
  import opened Redis
  import opened Schema
  import opened Build
  import opened Order
  import opened Collections
  import opened Members
  import opened Dispatcher

  /** The collection's schema has a list of links, and its own member set names the list. */
  predicate Listing(db: Store, schema: Schema, uri: Key) {
    && MEMBERS in schema.props && schema.props[MEMBERS].typ.Array? && schema.props[MEMBERS].typ.arrayOf.typ.Link?
    && MEMBERS in MembersOf(db, uri)
  }

  /** The links of the members, without the reader's xname. */
  function LinksOf(r: Reader, uri: Key, ids: seq<string>): seq<Json> {
    seq(|ids|, i requires 0 <= i < |ids| => LinkJson(TrimPrefix(Join(Child(uri, ids[i])), r.xname)))
  }

  lemma ListReads(db: Store, r: Reader, element: Property, uri: Key, names: set<string>, ids: seq<string>,
                  indices: seq<nat>)
    requires Consistent(db, uri, names, ids, indices) && element.typ.Link?
    ensures BuildArray(db, r, element, MembersKey(uri)) == Some(JArr(LinksOf(r, uri, ids)))
  {
    var items := LRange(db, MembersKey(uri)).value;
    forall i {:trigger items[i]} | 0 <= i < |items|
      ensures BuildElement(db, r, element, MembersKey(uri), items[i]) == Some(LinksOf(r, uri, ids)[i])
    {
      assert LinkAt(db, uri, ids[i], indices[i]);
      LinkFound(db, uri, ids, indices, i, ids[i]);
    }
    assert BuildArray(db, r, element, MembersKey(uri)).Some?;
    assert BuildArray(db, r, element, MembersKey(uri)).value.items == LinksOf(r, uri, ids);
  }

  /** A consistent collection that can be read at all lists exactly its members, and counts them. */
  lemma CollectionReads(db: Store, r: Reader, schema: Schema, uri: Key, names: set<string>, ids: seq<string>,
                        indices: seq<nat>)
    requires Consistent(db, uri, names, ids, indices) && Listing(db, schema, uri) &&
             BuildObject(db, r, schema, uri).Some?
    ensures var payload := BuildObject(db, r, schema, uri).value;
            && MEMBERS in payload && payload[MEMBERS] == JArr(LinksOf(r, uri, ids))
            && MEMBERS + ODATA_COUNT in payload && payload[MEMBERS + ODATA_COUNT] == JNum(|ids| as real)
  {
    var fields := FieldsRead(db, r, schema, uri);
    RightMembers(db, r, schema, uri);
    ListReads(db, r, schema.props[MEMBERS].typ.arrayOf, uri, names, ids, indices);
    assert KeySpace(db, r.xname, uri) == uri;
    assert BuildMember(db, r, schema, uri, MEMBERS) == Some(JArr(LinksOf(r, uri, ids)));
    assert fields[MEMBERS] == JArr(LinksOf(r, uri, ids)) && CountBase(MEMBERS).None?;
    CountBaseOf(MEMBERS);
    InCountKeys(fields, MEMBERS);
    InCountKeys(fields, MEMBERS + ODATA_COUNT);
  }

  /** A run of requests, and then a read: the payload has one link for each member that requests and
      answers determine, in the order of the indices, and their number. */
  method RunThenRead(d: Dispatcher, uri: Key, names: set<string>, schema: Schema, collection: Schema, r: Reader,
                     requests: seq<Request>, ghost ids: seq<string>, ghost indices: seq<nat>, ghost bound: int)
    returns (statuses: seq<Status>, payload: Option<map<string, Json>>,
            ghost members: seq<string>, ghost order: seq<nat>)
    requires forall i :: 0 <= i < |requests| ==> Proper(requests[i])
    requires Consistent(d.db, uri, names, ids, indices) && Ascending(indices)
    requires Bounded(indices, bound) && 2 <= bound && bound + |requests| <= MAX_INT64
    modifies d
    ensures |statuses| <= |requests|
    ensures payload.Some? && Listing(d.db, collection, uri) && Agrees(d.db, r, collection, uri) &&
            (statuses == [] || !statuses[|statuses| - 1].Tripped?) ==>
              && Consistent(d.db, uri, names, members, order) && Ascending(order) &&
                 IdSet(members) == AfterAll(IdSet(ids), requests, statuses)
              && MEMBERS in payload.value && payload.value[MEMBERS] == JArr(LinksOf(r, uri, members))
              && MEMBERS + ODATA_COUNT in payload.value
              && payload.value[MEMBERS + ODATA_COUNT] == JNum(|members| as real)
  {
    ghost var last;
    statuses, last, members, order := Run(d, uri, names, schema, requests, ids, indices, bound);
    payload := BuildStruct(d.db, r, collection, uri);
    if payload.Some? && Listing(d.db, collection, uri) && Agrees(d.db, r, collection, uri) &&
       (statuses == [] || !statuses[|statuses| - 1].Tripped?) {
      OnlyPayload(d.db, r, collection, uri, payload.value);
      CollectionReads(d.db, r, collection, uri, names, members, order);
    }
  }
}
