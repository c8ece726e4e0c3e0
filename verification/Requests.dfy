/** The PUT and PATCH handlers, from the converted payload to the answer. */
module Requests {
  import opened Basics
  import opened Redis
  import opened Schema
  import opened Convert
  import opened Insert
  import opened Remove
  import opened Patch
  import opened Build
  import opened Order
  import opened RoundTrip
  import opened Counts
  import opened Dispatcher
  import opened Containment
  import opened AcceptedPart
  import opened Merge
  import opened Shadows
  import opened PatchMerge

  /** `Aborted` where the handler panics; `Unread` where it answers although reading failed. */
  datatype Reply = Answered(payload: map<string, Json>) | Unread | Aborted

  /** Whatever the store holds where the data will be stored, removal deletes. */
  ghost predicate Reclaims(db: Store, schema: Schema, v: Inter, key: Key) {
    forall k :: Under(key, k) && Reaches(v, k, |key|) && k in db ==> ObjectDeletes(db, Some(schema), k, |key|)
  }

  lemma ReclaimedIsUntraced(db: Store, cleared: Store, schema: Schema, v: Inter, key: Key)
    requires Reclaims(db, schema, v, key) && ObjectRemoved(db, cleared, Some(schema), key)
    ensures Untraced(cleared, v, key)
  {
    forall k | Under(key, k) && Reaches(v, k, |key|)
      ensures k !in cleared
    {
      assert Lookup(cleared, k) == if ObjectDeletes(db, Some(schema), k, |key|) then None else Lookup(db, k);
    }
  }

  /** Replaces a resource; `cleared` is the store between removal and insertion.  Keys that the
      resource does not list and the payload does not name, such as those of resources beneath it,
      take no part in it.  A plain payload comes back as itself with its array counts, in every
      order if the counts it carries itself are right, unless something unlisted lies in its way. */
  method HandlePut(d: Dispatcher, r: Reader, schema: Schema, key: Key, body: Json)
    returns (reply: Reply, ghost cleared: Store)
    requires key != [] && body.JObj?
    modifies d
    ensures Confined(old(d.db), d.db, key)
    ensures if ObjectSmooth(old(d.db), Some(schema), key) then ObjectRemoved(old(d.db), cleared, Some(schema), key)
            else d.db == cleared && ObjectPartly(old(d.db), cleared, Some(schema), key)
    ensures var fields := ConvertObject(schema, body, [], None);
            && (reply.Aborted? <==>
                  !ObjectSmooth(old(d.db), Some(schema), key) || fields.None? ||
                  InsertTrips(cleared, IObj(fields.value), key))
            && (fields.None? ==> d.db == cleared)
            && (reply.Aborted? && fields.Some? && ObjectSmooth(old(d.db), Some(schema), key) ==>
                  LeftByPanic(cleared, d.db, IObj(fields.value), key))
            && (!reply.Aborted? ==>
                  && Inserted(cleared, d.db, IObj(fields.value), key)
                  && (Shows(d.db, IObj(fields.value), key) <==> Untraced(cleared, IObj(fields.value), key))
                  && (reply.Answered? <==> BuildObject(d.db, r, schema, key).Some?))
            && (PlainObject(r, schema, body) ==> fields.Some?)
            && (PlainObject(r, schema, body) && ObjectSmooth(old(d.db), Some(schema), key) &&
                Reclaims(old(d.db), schema, IObj(fields.value), key) ==>
                  reply.Answered? && (CountsRight(body) ==> JObj(reply.payload) == WithCounts(body)))
    ensures reply.Answered? ==> CanBuild(d.db, r, schema, key, reply.payload)
  {
    ghost var before := d.db;
    cleared := before;
    if PlainObject(r, schema, body) {
      PlainRoundTrip(before, r, schema, body, key);
    }
    var removed := d.RedisRemoveResource(schema, key);
    if !removed.Done? {
      return Aborted, d.db;
    }
    cleared := d.db;
    var fields := Interface2Redis(schema, body, [], None);
    if fields.None? {
      return Aborted, cleared;
    }
    if PlainObject(r, schema, body) && Reclaims(before, schema, IObj(fields.value), key) {
      ReclaimedIsUntraced(before, cleared, schema, IObj(fields.value), key);
      UntracedIsSafe(cleared, IObj(fields.value), key);
    }
    var inserted := d.RedisInsert(IObj(fields.value), key);
    if inserted.Panicked? {
      return Aborted, cleared;
    }
    ShowsExactly(cleared, d.db, IObj(fields.value), key);
    if PlainObject(r, schema, body) && Shows(d.db, IObj(fields.value), key) {
      PlainRoundTrip(d.db, r, schema, body, key);
      PlainInEveryOrder(d.db, r, schema, body, key);
    }
    var payload := BuildStruct(d.db, r, schema, key);
    reply := if payload.Some? then Answered(payload.value) else Unread;
  }

  /** Patches a resource with what the callback lets through. */
  method HandlePatch(d: Dispatcher, r: Reader, privileged: string -> bool, schema: Schema, key: Key, body: Json)
    returns (reply: Reply)
    requires key != [] && body.JObj?
    modifies d
    ensures Confined(old(d.db), d.db, key)
    ensures !reply.Aborted? ==>
              && Accepted(schema, body, privileged).Some?
              && Patched(old(d.db), d.db, IObj(Accepted(schema, body, privileged).value), key)
              && (reply.Answered? <==> BuildObject(d.db, r, schema, key).Some?)
    ensures reply.Answered? ==> CanBuild(d.db, r, schema, key, reply.payload)
    ensures reply.Aborted? <==>
              var fields := Accepted(schema, body, privileged);
              fields.None? || !PatchSafe(old(d.db), IObj(fields.value), key)
    ensures Accepted(schema, body, privileged).None? ==> d.db == old(d.db)
    ensures !reply.Aborted? ==> forall k :: Lookup(d.db, k) != Lookup(old(d.db), k) ==>
              Under(key, k) && Cause(schema, body, k[|key|..], 0, PatchCallback(privileged))
    ensures Mergeable(old(d.db), r, privileged, schema, key, body) ==>
              !reply.Aborted? &&
              (reply.Answered? &&
               JObj(reply.payload) == MergePatch(JObj(PriorAnswer(old(d.db), r, privileged, schema, key, body)),
                                                 Passed(schema, body, privileged)) <==>
               Merges(old(d.db), r, privileged, schema, key, body))
    ensures AllWritable(schema, body, privileged, true) <==> Passed(schema, body, privileged) == body
  {
    WholeIsWritable(schema, body, privileged, true);
    var fields := Interface2Redis(schema, body, [], Some(PatchCallback(privileged)));
    ghost var before := d.db;
    if fields.None? {
      return Aborted;
    }
    var patched := d.RedisPatch(IObj(fields.value), key);
    if patched.Panicked? {
      return Aborted;
    }
    if Mergeable(before, r, privileged, schema, key, body) {
      MergeIsAnswered(before, d.db, r, privileged, schema, key, body);
    }
    forall k | Lookup(d.db, k) != Lookup(before, k)
      ensures Under(key, k) && Cause(schema, body, k[|key|..], 0, PatchCallback(privileged))
    {
      PatchContained(before, d.db, privileged, schema, body, key, k);
    }
    var payload := BuildStruct(d.db, r, schema, key);
    if payload.Some? {
      OnlyPayload(d.db, r, schema, key, payload.value);
    }
    reply := if payload.Some? then Answered(payload.value) else Unread;
  }

  /** The data and the accepted part of a PATCH payload, and the reader of the store before the patch. */
  ghost function Accepted(schema: Schema, body: Json, privileged: string -> bool): Option<map<string, Inter>>
    requires body.JObj?
  {
    ConvertObject(schema, body, [], Some(PatchCallback(privileged)))
  }

  ghost function Passed(schema: Schema, body: Json, privileged: string -> bool): Json
    requires body.JObj?
  {
    WritablePart(schema, body, privileged, true)
  }

  /** The accepted part is array-free and typed, the patch does not panic, the resource was readable, and the
      counts will agree: all of it told from the store before the patch. */
  ghost predicate Mergeable(db: Store, r: Reader, privileged: string -> bool, schema: Schema, key: Key, body: Json)
    requires key != [] && body.JObj?
  {
    var fields, part := Accepted(schema, body, privileged), Passed(schema, body, privileged);
    fields.Some? && PatchObject(r, schema, part) && PatchSafe(db, IObj(fields.value), key) &&
    var prior := ReaderAfter(db, r, IObj(fields.value), key);
    BuildObject(db, prior, schema, key).Some? && AgreesHere(db, prior, schema, part, key)
  }

  /** What was read before, with the @odata.context text of after. */
  ghost function PriorAnswer(db: Store, r: Reader, privileged: string -> bool, schema: Schema, key: Key,
                             body: Json): map<string, Json>
    requires key != [] && body.JObj? && Mergeable(db, r, privileged, schema, key, body)
  {
    BuildObject(db, ReaderAfter(db, r, IObj(Accepted(schema, body, privileged).value), key), schema, key).value
  }

  ghost predicate Merges(db: Store, r: Reader, privileged: string -> bool, schema: Schema, key: Key, body: Json)
    requires key != [] && body.JObj? && Mergeable(db, r, privileged, schema, key, body)
  {
    MergesHere(db, ReaderAfter(db, r, IObj(Accepted(schema, body, privileged).value), key), schema,
               PriorAnswer(db, r, privileged, schema, key, body), SourceOf(db, r.xname, key),
               Passed(schema, body, privileged), key)
  }

  lemma MergeIsAnswered(db: Store, db': Store, r: Reader, privileged: string -> bool, schema: Schema, key: Key,
                        body: Json)
    requires key != [] && body.JObj? && Mergeable(db, r, privileged, schema, key, body)
    requires Patched(db, db', IObj(Accepted(schema, body, privileged).value), key)
    ensures BuildObject(db', r, schema, key) ==
              Some(MergePatch(JObj(PriorAnswer(db, r, privileged, schema, key, body)),
                              Passed(schema, body, privileged)).fields) <==>
              Merges(db, r, privileged, schema, key, body)
    ensures BuildObject(db', r, schema, key).Some? ==> Agrees(db', r, schema, key)
  {
    PartIsWritable(schema, body, [], privileged);
    PartConverts(r, schema, body, [], PatchCallback(privileged));
    PatchIsMerge(db, db', r, schema, Passed(schema, body, privileged), key, [],
                 Accepted(schema, body, privileged).value);
  }

  /** The same PATCH twice: if the first one does not panic the second does not either, and it leaves
      the store as the first one did. */
  method PatchTwice(d: Dispatcher, r: Reader, privileged: string -> bool, schema: Schema, key: Key, body: Json)
    returns (first: Reply, second: Reply, ghost once: Store)
    requires key != [] && body.JObj?
    modifies d
    ensures !first.Aborted? ==> !second.Aborted? && d.db == once
  {
    ghost var before := d.db;
    first := HandlePatch(d, r, privileged, schema, key, body);
    once := d.db;
    if !first.Aborted? {
      ghost var v := IObj(Accepted(schema, body, privileged).value);
      PatchedIsConfined(before, once, v, key);
      SafeAgain(before, once, v, key);
    }
    second := HandlePatch(d, r, privileged, schema, key, body);
    if !first.Aborted? {
      PatchIdempotent(before, once, d.db, IObj(Accepted(schema, body, privileged).value), key);
    }
  }
}
