# Redfish translation service: a verified model

The service keeps a Redfish JSON tree as flat Redis keys, checks it against a tree of schema
resources that it links together at start-up, and serves reads and writes on it. This project
models that core in Dafny and proves what it promises:

- **Store** (`Convert`, `Insert`, `Build`, `Remove`, `Patch`, `Dispatcher`): conversion of payloads,
  insertion, reading, removal and patching, each proved against a description of the store key by
  key, in every store and for every order of the map iterations. On top of it: what the order of a
  member set can change (`Order`, `Counts`), the round trip (`RoundTrip`), removal as the inverse of
  insertion (`Inverse`), patching as JSON merge patch (`Merge`, `Shadows`, `PatchMerge`, `ContextLeaf`), what a
  PATCH may change (`Containment`, `AcceptedPart`) and what a read may depend on (`Isolation`).
- **Schema tree** (`SchemaTree`, `Detect`, `Copy`, `Acyclic`, `Linker`, `TreeLinker`, `Traverse`,
  `Consistency`, `Walk`, `Lazy`): unfolding a pool of templates into a tree of fresh copies, its
  termination and checks, traversal, and URI resolution, which agrees with resolution by name in the
  pool.
- **Protocol** (`Ipc`): many frontends and one backend over Redis keys and notifications, as
  interleaved steps.
- **Requests** (`Collections`, `Members`, `CollectionView`, `Leftovers`, `Requests`, `Validator`): POST,
  DELETE, PUT and PATCH, and the validator in front of the converter.
- **State machines** (`Lockout`, `Publication`) and **names** (`Outlet`).

Redis is one map from a key to a text, set or list; a key is the sequence of its segments
(`Text.JoinInjective` says that nothing is lost by that). An empty set or list is an absent key. A map
iteration of the original is a loop that picks any name left, so contracts hold for every order. A
panic is an outcome, and the contracts say exactly when it happens. The answers of foreign services
(dispatch of an absent value, readiness checks, HSM, the password check, the clock, the collection
callback) are arbitrary parameters.

`dafny verify dfyconfig.toml` checks the whole project.

## Where the code differs from what one would expect

- The payload that `BuildStruct` builds depends on the order in which Redis lists an object's members if
  and only if, at some object that is read, an array sits next to its own count annotation and the two
  disagree (`Order.OrderExactly`).
- A PATCH writes under the URI, while a resource may be stored, and is then read, under its xname. After
  such a PATCH only the patched names are read (`PatchMerge.PrefixedResource`), and a PATCH that takes the
  last member of an object uncovers what lies under the xname (`PatchMerge.PrefixedInside`);
  `PatchMerge.PatchIsMerge` has the exact condition, at every depth, under which a PATCH is a merge.
- The generated @odata.context lists the names of the resource, so a PATCH that adds or removes a name
  changes it too, which a merge would not (`PatchMerge.PatchHidesText`, `ContextLeaf.TextChanges`).
- URI resolution asks for a member's key with the xname in front, creation and deletion use the key
  without. A member posted under a Host with an xname is then not found there
  (`Members.CreateThenDelete`), and no run of requests changes what is (`Members.CallbackAfter`).
- A DELETE whose path ends in a slash resolves to the member, and then looks for its link in the member
  itself (`Members.DeleteSlashed`).
- A POST that panics half-way leaves keys behind that a second POST of the same name builds upon
  (`Members.CreateAgain`, `Leftovers.PostTwice`), and a DELETE that panics after its first step leaves a
  link to nothing (`Collections.NotDeleted`).
- Removal panics over a list at a navigation link that is not auto-expanded (`Inverse.NavLinkListPanics`).
- The periodic update of an account reads the clock twice. A lock may therefore end with the failure
  counter still set even if CounterResetAfter does not exceed Duration; `Lockout.ClearsExactly` has the exact
  condition, which for a clock that stands still within a tick is CounterResetAfter <= Duration.
- An instance that one complete listing misses is removed from HSM; when it comes back while its service
  still exists it is never told of again (`Publication.InHSMExactly`, `Publication.ReturnsUnheld`).
- A power control invalidates the key under the name in the request, whatever its spelling. In any other
  spelling than the Redfish name the old state is still served under that name, and asking under
  the other spelling finds nothing (`Outlet.ControlForgetsExactly`, `Outlet.ControlThenRead`).
- Outlet names sort by number only below one hundred (`Outlet.SortsExactlyBelowHundred`).
- The validator accepts for auto-expanded links only what the converter cannot take
  (`Validator.ExpandedLinkFails`, `Validator.CleanObjectExactly`).
- The two index allocators collide after a POST to an empty collection and after the deletion of any
  member but the last (`Members.CreateThenAdd`, `Members.DeleteThenAdd`, `Members.OnlyLastIsFree`).

## Model

| member | source | states |
|---|---|---|
| `Ipc.StepKeepsInv` | internal/rfdispatcher/dispatcher/rfdispatcher.go:467-547 | every atomic step of a frontend, the backend loop or a handler, a timeout at any moment and the loss of a wake-up included, keeps the protocol invariant |
| `Ipc.RunKeepsInv` | cmd/ipcbackend/main.go:65-122 | the invariant holds after every finite interleaving of any number of frontends and handlers |
| `Ipc.OneWorkerPerTarget` | cmd/ipcbackend/main.go:65-122 | in every reachable state the undelivered rename messages plus the live handlers of a watched target are one if its key exists and none otherwise |
| `Ipc.ReturnsOwnAnswer` | internal/rfdispatcher/dispatcher/rfdispatcher.go:497-546 | a call that returns a response returns what the backend computed from that call's own target and request |
| `Ipc.WaitingCallIsServed` | docs/IPC.md:18-53 | a call in its wait either has its response stored or owns its target key with its own request in it and exactly one message or handler at work on it |
| `Ipc.WakeUpIsPending` | cmd/ipcbackend/main.go:106-114 | in every run that has not lost the call's wake-up, a call in its wait whose response is stored has the wake-up pending |
| `Ipc.CallReturns` | internal/rfdispatcher/dispatcher/rfdispatcher.go:513-546 | a call on a watched target, in every run without a loss or a timeout of it, has once nothing but new calls, losses and timeouts can happen been refused, or returned with the backend's answer to its own target and request |
| `Ipc.CanSettle` | cmd/ipcbackend/main.go:87-122 | from every state that a run can reach the protocol can come to that point by steps that are no new calls, losses or timeouts |
| `Ipc.OneCallReturns` | cmd/ipcbackend/main.go:65-122 | a single call on a watched target, alone, has a run that ends with the backend's answer to it |
| `Ipc.RefusedHasRival` | internal/rfdispatcher/dispatcher/rfdispatcher.go:497-511 | a call is refused only if another call has claimed the same target |
| `Ipc.RenameDecides` | internal/rfdispatcher/dispatcher/rfdispatcher.go:491-511 | a call gets its target exactly if that is free, and is refused otherwise |
| `Ipc.ReleaseFrees` | cmd/ipcbackend/main.go:116-121 | when a handler is done exactly its target key is gone, and the backend is told |
| `Ipc.LeftoversAreExact` | internal/rfdispatcher/dispatcher/rfdispatcher.go:497-537 | at rest the request keys left are exactly those of refused calls, the response keys exactly those written after a timed-out caller's cleanup, and no watched target key is left |
| `Ipc.StepLowersEffort` | cmd/ipcbackend/main.go:87-122 | every step but a new call lowers one number, so without new calls the protocol always comes to rest |
| `Ipc.RunsAreBounded` | internal/rfdispatcher/dispatcher/rfdispatcher.go:513-537 | a run without new calls is no longer than that number at its start |
| `Ipc.NeverStuck` | internal/rfdispatcher/dispatcher/rfdispatcher.go:513-537 | until everything is at rest some party can move without a new call and without losing a message |
| `Ipc.SuccessOnlyForApc` | cmd/ipcbackend/main.go:98-104 | with the shipped handler, success is returned to a call if and only if its target is the APC chassis reset |
| `Ipc.ApcResetSucceeds` | cmd/ipcbackend/main.go:65-106 | a reset of the APC chassis that is not refused, in a run without a loss or a timeout of it, returns success |
| `Ipc.ApcResetAlone` | cmd/ipcbackend/main.go:65-122 | there is such a run: a single reset of the APC chassis ends with its success |
| `Ipc.ResetWatchedExactly` | cmd/ipcbackend/main.go:65 | the subscription covers exactly the reset targets of chassis, whatever their names |
| `Text.ParseFormatInt` | internal/rfdispatcher/dispatcher/redisstruct.go:509-515 | ParseInt undoes FormatInt on the whole 64-bit range |
| `Text.ParseBoolExactly` | internal/rfdispatcher/dispatcher/redisstruct.go:436-443 | the texts that read as true and as false |
| `Text.JoinInjective` | internal/rfdispatcher/dispatcher/redisstruct.go:616-618 | two lists of slash-free segments joined with slashes are equal only if the lists are |
| `Convert.Interface2Redis` | internal/rfdispatcher/dispatcher/redisstruct.go:614-641 | for every schema, payload, path and callback, and every order of the map iteration, the result is that of a function of the payload: fails on the first bad or (without a callback) unknown member, and otherwise keeps exactly the accepted members |
| `Convert.StructField2Redis` | internal/rfdispatcher/dispatcher/redisstruct.go:466-551 | one field: null handling, type errors, dropped navigation links and actions, and the callback's veto |
| `Convert.StructArray2Redis` | internal/rfdispatcher/dispatcher/redisstruct.go:569-588 | element by element, failing if one element fails; simple element types give a plain list |
| `Convert.Int64IsExact` | internal/rfdispatcher/dispatcher/redisstruct.go:509-515 | a whole number of the 64-bit range converts to itself |
| `Convert.Int64Truncates` | internal/rfdispatcher/dispatcher/redisstruct.go:509-515 | fractions are truncated toward zero, from both sides |
| `Convert.LinksConvert` | internal/rfdispatcher/dispatcher/redisstruct.go:529-548 | a plain link converts if and only if it has an @odata.id that is a text, of which alone it becomes a link; a navigation link leaves nothing |
| `Convert.UnknownNames` | internal/rfdispatcher/dispatcher/redisstruct.go:618-632 | an unknown name is an error without a callback, and is passed over with one |
| `Dispatcher.Dispatcher.RedisInsert` | internal/rfdispatcher/dispatcher/redisstruct.go:647-712 | in every store and for every iteration order: it panics exactly where a function of store and data says, otherwise leaves at every key what a function of store and data says, changes only keys under the given key, and leaves a set at the key of an object unless it panics; a panic leaves some members or elements whole and one unfinished, in turn |
| `Dispatcher.Dispatcher.InsertElements` | internal/rfdispatcher/dispatcher/redisstruct.go:661-675 | an array of objects in every store: its indices are appended to the list and each element goes beneath its index; panics exactly if one element does or is no object, refused if the key holds no list |
| `Dispatcher.Dispatcher.InsertFields` | internal/rfdispatcher/dispatcher/redisstruct.go:684-703 | an object in every store: its names join the member set and each member goes beneath its name; panics exactly if it is empty, a member panics or the key holds no set |
| `Insert.ShowsExactly` | internal/rfdispatcher/dispatcher/redisstruct.go:647-712 | after an insertion into any store all that the data speaks of is stored as it says if and only if nothing that was there before shows beside it |
| `Insert.FreshInserted` | internal/rfdispatcher/dispatcher/redisstruct.go:647-712 | under an empty keyspace insertion panics exactly on data with an empty object or a non-object element, and otherwise the keyspace becomes exactly what the data stands for |
| `Insert.ListLeft` | internal/rfdispatcher/dispatcher/redisstruct.go:661-675 | an array of objects that panics has the indices up to the first element that panics in its list, and the elements before it stored whole |
| `Build.BuildStruct` | internal/rfdispatcher/dispatcher/redisstruct.go:313-459 | in every store: it fails exactly if a function of the store does, and otherwise the payload is one that writing the members in some order, at every level, makes of the store |
| `Build.BuildProperty` | internal/rfdispatcher/dispatcher/redisstruct.go:337-455 | one property by its type, in Redis, in the fallback keyspace or from the dispatcher; fails exactly if its description does, counts included |
| `Build.BuildElements` | internal/rfdispatcher/dispatcher/redisstruct.go:270-309 | array elements in list order, as texts for simple types and as objects, each built in an order of its own, or links otherwise |
| `Build.BuildOneElement` | internal/rfdispatcher/dispatcher/redisstruct.go:280-306 | one element of an array |
| `Build.BuildAutoExpandedLink` | internal/rfdispatcher/dispatcher/redisstruct.go:216-233 | the members of an embedded collection in list order, through the recursion on the linked resource's schema |
| `Build.BuildActionFields` | internal/rfdispatcher/dispatcher/redisstruct.go:117-138 | an action: lists as they are, texts without the xname prefix, anything else an error |
| `Build.FallbackText` | internal/rfdispatcher/dispatcher/redisstruct.go:318-330 | the fallback keyspace, as text, is the xname in front of the key unless the key starts with it |
| `Build.GeneratedValues` | internal/rfdispatcher/dispatcher/redisstruct.go:75-112 | a member that no key holds reads as the URI without the xname, the type of the resource, its context with the listed names, or what the dispatcher answers |
| `Build.StoredTextReads` | internal/rfdispatcher/dispatcher/redisstruct.go:415-443 | a stored text reads as itself or as the number or boolean that it says, and makes the read fail if it says none |
| `Build.LinksRead` | internal/rfdispatcher/dispatcher/redisstruct.go:236-267 | a navigation link reads as its own path, a plain link as its stored text, both without the xname |
| `Build.TrailingSlashes` | internal/rfdispatcher/dispatcher/redisstruct.go:76-77 | slashes at the end of a URI change neither its text nor the name of its last segment |
| `Build.ActionReads` | internal/rfdispatcher/dispatcher/redisstruct.go:117-138 | an action reads if and only if its members hold texts or lists, each list as its texts in order and each text without the xname |
| `Build.ExpandedReads` | internal/rfdispatcher/dispatcher/redisstruct.go:216-233 | an embedded collection reads as its members in list order, those that cannot be built as null |
| `Build.BareElementReads` | internal/rfdispatcher/dispatcher/redisstruct.go:280-306 | an element of a kind without known properties reads as an empty object, and fails where anything is stored for it |
| `Order.OrderExactly` | internal/rfdispatcher/dispatcher/redisstruct.go:334-459 | all orders in which Redis may list the members, at every level, build one and the same payload if and only if at every object that is read the count annotations among the members agree with their arrays |
| `RoundTrip.FieldRoundTrip` | internal/rfdispatcher/dispatcher/redisstruct.go:466-551 | one field of any readable kind reads back as stated, from every store that holds its converted form |
| `RoundTrip.ObjectRoundTrip` | internal/rfdispatcher/dispatcher/redisstruct.go:270-459 | every readable payload, nulls, navigation links and actions included, converts and inserts without error and reads back as the described payload |
| `RoundTrip.PlainRoundTrip` | internal/rfdispatcher/dispatcher/redisstruct.go:614-712 | every schema-typed payload of texts, enums, whole numbers, booleans, non-empty objects, plain links and arrays of texts, objects or links reads back as itself plus one @odata.count per array, from every store that shows its data |
| `Counts.PlainInEveryOrder` | internal/rfdispatcher/dispatcher/redisstruct.go:270-459 | such a payload comes back like that in every order of the member sets if and only if the counts that it carries itself are right |
| `Isolation.ObjectIsolated` | internal/rfdispatcher/dispatcher/redisstruct.go:313-459 | a read depends on no key outside the two subtrees it may read, through all mutually recursive builders |
| `Isolation.ReadIsolation` | internal/rfdispatcher/dispatcher/redisstruct.go:216-459 | a resource reads the same from any two stores that agree under its URI and under its xname-prefixed URI |
| `Dispatcher.Dispatcher.RedisRemoveResource` | internal/rfdispatcher/dispatcher/redisstruct.go:780-783 | panics exactly where a key of the wrong type is met, and otherwise deletes exactly the keys that the member sets, lists and schema lead to, all of them under the URI; a panic has deleted some of these and nothing else |
| `Dispatcher.Dispatcher.RedisRemoveField` | internal/rfdispatcher/dispatcher/redisstruct.go:788-821 | one field by the type of its key; navigation links to sets are left alone |
| `Dispatcher.Dispatcher.RedisRemoveObject` | internal/rfdispatcher/dispatcher/redisstruct.go:825-845 | an object: its key and what its members lead to, in every iteration order |
| `Dispatcher.Dispatcher.RedisRemoveArray` | internal/rfdispatcher/dispatcher/redisstruct.go:848-869 | a list: its key and, for element types that are objects, its elements; without a schema the elements stay |
| `Remove.ListRemoval` | internal/rfdispatcher/dispatcher/redisstruct.go:848-869 | the elements of a list go with it where the property has objects for elements, an embedded collection included, stay where they are simple or there is no schema, and any other property makes removal panic |
| `Inverse.ObjectFits` | internal/rfdispatcher/dispatcher/redisstruct.go:614-641 | everything that conversion yields, with any callback, has the shape that removal follows |
| `Inverse.RemoveUndoesInsert` | internal/rfdispatcher/dispatcher/redisstruct.go:780-869 | removing a resource after inserting converted data under an empty keyspace succeeds and restores exactly the store from before |
| `Inverse.NavLinkShields` | internal/rfdispatcher/dispatcher/redisstruct.go:802-815 | no removal, in any store, reaches a key that a navigation link shields: at or beneath one whose key is absent or holds a set, and beneath one whose key holds a text or a list that is not that of an embedded collection |
| `Inverse.NavLinkFate` | internal/rfdispatcher/dispatcher/redisstruct.go:788-821 | where removal does not panic, the key of a listed navigation link is deleted if and only if it exists and holds no set, and a list there is that of an auto-expanded link |
| `Inverse.NavLinkListPanics` | internal/rfdispatcher/dispatcher/redisstruct.go:848-869 | a listed navigation link that is not auto-expanded and whose key holds a list makes removal panic |
| `Inverse.BeneathNavLink` | internal/rfdispatcher/dispatcher/redisstruct.go:788-869 | a key strictly beneath a listed navigation link is deleted if and only if the link is that of an embedded collection of objects, its key holds the list, and removing the listed element leads to the key |
| `Dispatcher.Dispatcher.RedisPatch` | internal/rfdispatcher/dispatcher/redisstruct.go:716-777 | in every store it panics exactly on arrays and on keys that hold no set where one is needed, and otherwise leaves at every key the value of a function of the old store and the data, in every iteration order |
| `Dispatcher.Dispatcher.PatchFields` | internal/rfdispatcher/dispatcher/redisstruct.go:728-769 | the members of an object, in any order |
| `Dispatcher.Dispatcher.PatchField` | internal/rfdispatcher/dispatcher/redisstruct.go:731-768 | one member: null removes it and its name, anything else adds its name and is patched in turn |
| `Merge.PatchIdempotent` | cmd/rfdispatcher/rfserver.go:1106-1107 | patching the same data twice leaves the store as patching it once |
| `Merge.SafeAgain` | cmd/rfdispatcher/rfserver.go:1106-1107 | a patch that did not panic does not panic when it is repeated |
| `Shadows.MergesExactly` | internal/rfdispatcher/dispatcher/redisstruct.go:716-777 | patching an object at any depth, in every store where the patch does not panic, merges it into what was read if and only if a recursive condition on the store before holds: what is stored under other names is what was read under them, and the same in all objects that the patch goes into; an object left without members, if it has a shadow, was read from it and the patch names nothing of it |
| `Shadows.MergeByParts` | internal/rfdispatcher/dispatcher/redisstruct.go:716-777 | a payload with its counts is the merge of a patch if and only if the rest of it is the rest of the target, and each name given is merged |
| `PatchMerge.PatchIsMerge` | cmd/rfdispatcher/rfserver.go:1198-1212 | in every store where the PATCH does not panic: what is read after it is the MergePatch of section 2 of RFC 7396 applied to what was read before, with the @odata.context text of after, if and only if that condition holds at the resource; and whether the counts agree then is told from the store before |
| `PatchMerge.PrefixedResource` | internal/rfdispatcher/dispatcher/redisstruct.go:318-330 | a resource stored under its xname and a PATCH of another name: what is read afterwards is not the merge |
| `PatchMerge.PrefixedInside` | internal/rfdispatcher/dispatcher/redisstruct.go:318-330 | a resource with members of its own before and after, and a PATCH that removes the last member of an object inside, which uncovers what is stored under the xname: what is read afterwards is not the merge |
| `PatchMerge.FreshMerges` | cmd/rfdispatcher/rfserver.go:1198-1212 | where nothing is stored under the URI, a patch without nulls and empty objects is a merge into what is read under the xname if and only if it names all of that, in every object it descends into |
| `PatchMerge.SwallowsExactly` | internal/rfdispatcher/dispatcher/redisstruct.go:716-777 | merging a patch into a target gives the merge into nothing if and only if the patch names all that the target holds, in every object it descends into |
| `PatchMerge.ContextUnchanged` | internal/rfdispatcher/dispatcher/redisstruct.go:86-110 | where the generated text stays the same, so does what is read with it |
| `PatchMerge.HidesExactly` | internal/rfdispatcher/dispatcher/redisstruct.go:716-777 | a patch makes the same of two targets if and only if it has a value of its own wherever they differ |
| `PatchMerge.PatchHidesText` | internal/rfdispatcher/dispatcher/redisstruct.go:86-110 | where a PATCH is a merge up to the text, it is one in every respect if and only if it sets all places, at any depth, where the new text changes what was read before |
| `ContextLeaf.PatchIsMergeButContext` | internal/rfdispatcher/dispatcher/redisstruct.go:86-110 | where a PATCH is a merge, what is read after it equals the merge into what was read before except for @odata.context members |
| `ContextLeaf.PatchIsMergeExactly` | internal/rfdispatcher/dispatcher/redisstruct.go:86-110 | for resources whose text shows at the top only: and equals it, the text included, if and only if the names listed in the text stay the same, the text is not generated, or the patch sets it |
| `ContextLeaf.TextChanges` | internal/rfdispatcher/dispatcher/redisstruct.go:86-110 | a resource {A, @odata.context} and a PATCH that adds B: where the text lists the names differently, what is read afterwards is not the merge |
| `Containment.ChangeHasCause` | internal/rfdispatcher/dispatcher/redisstruct.go:614-641 | a key that patching converted data changes is an accepted member, the target of an accepted link, the member set above an accepted member, or at or beneath an accepted null |
| `Containment.PatchContained` | cmd/rfdispatcher/rfserver.go:1160-1206 | with the PATCH handler's own callback, every changed key lies under the resource and has such a cause |
| `Containment.AcceptedIsWritable` | cmd/rfdispatcher/rfserver.go:1160-1197 | what that callback accepts is known, no annotation, not read-only at any level, and privileged at the top level |
| `AcceptedPart.PartConverts` | cmd/rfdispatcher/rfserver.go:1160-1198 | converting a payload with the PATCH callback is converting the part of it that the callback accepts |
| `AcceptedPart.PartIsWritable` | cmd/rfdispatcher/rfserver.go:1160-1197 | of a payload that converts the PATCH callback lets through exactly the members, at every level, that are known, writable, no annotations, at the top level covered by privileges, and no navigation links or actions |
| `AcceptedPart.WholeIsWritable` | cmd/rfdispatcher/rfserver.go:1160-1197 | nothing is left out of a payload if and only if all its members, at every level, are of that kind |
| `AcceptedPart.AnnotationsExactly` | cmd/rfdispatcher/rfserver.go:1163-1166 | annotations are exactly the names Word@odata.Term, Word@Redfish.Term and Word@Message.Term; a name without @ is none |
| `AcceptedPart.CountsAreAnnotations` | cmd/rfdispatcher/rfserver.go:1163-1166 | the count annotation of every plain name is an annotation |
| `AcceptedPart.PlainNames` | cmd/rfdispatcher/rfserver.go:1163-1166 | plain names start with a letter or an underscore and go on with these and digits, terms with dots as well |
| `Requests.HandlePut` | cmd/rfdispatcher/rfserver.go:1345-1366 | for every resource: exactly when it panics, what it leaves at every key, and after a panic of removal, conversion or insertion what each of them leaves; exactly when all of the payload is stored as it is; a plain payload is answered as itself with its counts, if removal deletes whatever lies where its data goes and the counts it carries are right, whatever else lies beneath the resource |
| `Requests.HandlePatch` | cmd/rfdispatcher/rfserver.go:1198-1212 | the whole PATCH: exactly when it panics, otherwise what it leaves at every key, that every change has a cause the callback accepted, and that the answer is the merge of the writable part of the payload into what was read before if and only if the condition of PatchIsMerge holds; a payload that is writable as a whole is merged as a whole, and one that does not convert changes nothing |
| `Requests.PatchTwice` | cmd/rfdispatcher/rfserver.go:1106-1107 | the same PATCH request twice: if the first does not panic the second does not, and it leaves the store of the first |
| `Collections.LinksAreMembers` | cmd/rfdispatcher/rfserver.go:846-924 | in a consistent collection the key of a member exists if and only if an index links to it, and at most one index does, whatever lies beneath the members |
| `Collections.Created` | cmd/rfdispatcher/rfserver.go:884-924 | inserting the resource, pushing a new index and inserting the link keeps the collection consistent and touches nothing else |
| `Collections.NotCreated` | cmd/rfdispatcher/rfserver.go:872-887 | a creation that panics before its key is written leaves the collection consistent, whatever it left beneath that key |
| `Collections.Deleted` | cmd/rfdispatcher/rfserver.go:1018-1051 | removing the key of the resource, its index and its link keeps the collection consistent and touches nothing else |
| `Collections.NotDeleted` | cmd/rfdispatcher/rfserver.go:1018-1024 | a deletion that panics leaves the collection consistent if and only if the key of the resource is still there |
| `Collections.InsertedIsRemovable` | cmd/rfdispatcher/rfserver.go:872-887 | a resource stored from converted data can be deleted without a panic and without remainder |
| `Members.CallbackAfter` | internal/rfdispatcher/dispatcher/rfdispatcher.go:260-280 | without an xname the callback of URI resolution accepts exactly the members of a consistent collection; with one, whatever requests have done to the collection, it accepts exactly what it accepted before |
| `Members.PrefixText` | internal/rfdispatcher/dispatcher/rfdispatcher.go:262-280 | the key that the callback asks for, as text, is the xname followed by the path of the instance |
| `Members.CreateThenDelete` | cmd/rfdispatcher/rfserver.go:846-1051 | a member created by POST is not found by a DELETE under the same non-empty xname if and only if no key with the xname in front was there; without an xname it is found |
| `Members.NextIndex` | cmd/rfdispatcher/rfserver.go:896-908 | one above the largest number of the list and at least one, with the parse error and the 64-bit wrap-around |
| `Members.NewIdIsAsked` | cmd/rfdispatcher/rfserver.go:826-845 | a new member is named by the payload's MemberId, or without one by its Id, and only by a text that is not empty |
| `Members.CreateMember` | cmd/rfdispatcher/rfserver.go:827-924 | in every consistent collection: exactly which answer a POST gets, panics included, and what a panic leaves; that the collection stays consistent in any case; and on success the index max+1 is new, the payload is inserted into what was there, and is stored as it is if and only if nothing there shows beside it |
| `Members.NewMemberIsRemovable` | cmd/rfdispatcher/rfserver.go:872-1024 | a member that is stored as posted, and nothing beside it, can be deleted without a panic and without remainder |
| `Members.NewMemberGenerates` | cmd/rfdispatcher/rfserver.go:872-887 | the generated annotations of a new member are listed and held by no key, whatever the payload says of them, and all other members are those of the payload |
| `Members.DeleteMember` | cmd/rfdispatcher/rfserver.go:1018-1051 | in every consistent collection: exactly which answer a DELETE gets, resolved at the key with the xname in front; on success the one index of its link goes, the collection stays consistent, exactly the keys that removal leads to are gone, and nothing is left if and only if it leads to all; a DELETE that panics breaks the collection if and only if the key of the resource held a set |
| `Members.DeleteSlashed` | cmd/rfdispatcher/rfserver.go:1018-1040 | a DELETE whose path ends in a slash resolves to the member but works beneath it: the collection and the member's key stay, and unless something lies at the empty name it panics for want of a link and changes nothing |
| `Members.Run` | cmd/rfdispatcher/rfserver.go:846-1051 | every run of POST and DELETE requests, aborted POSTs and trailing slashes included, keeps indices distinct and ascending and links in bijection with the resources, changes nothing outside the collection, and the members are those that requests and answers determine, up to the first DELETE that panics over the keys of its resource, for which it says exactly when it breaks that |
| `CollectionView.CollectionReads` | internal/rfdispatcher/dispatcher/redisstruct.go:270-309 | a consistent collection that can be read lists the links of exactly its members, in the order of their indices, and their number as the count |
| `CollectionView.RunThenRead` | cmd/rfdispatcher/rfserver.go:846-1051 | after any such run, what is read lists and counts the members that requests and answers determine |
| `Members.CreateAgain` | cmd/rfdispatcher/rfserver.go:846-924 | a POST after an aborted POST of the same name: what the first leaves, exactly when the second succeeds, and that it stores its payload as it is if and only if nothing that the first left lies where it goes |
| `Leftovers.PostTwice` | cmd/rfdispatcher/rfserver.go:846-924 | a POST of a list with one object and a null panics in every iteration order; a POST of the same name with a list of one object then succeeds, and is read with three elements |
| `Members.AddMemberToSet` | internal/backend_helpers/common.go:185-209 | adds one name to a set or fails on a key of another type |
| `Members.AddMemberToArray` | internal/backend_helpers/common.go:240-271 | appends the length of the list, and makes a new list a member of its object |
| `Members.SetValue` | internal/backend_helpers/common.go:211-238 | sets a value and adds its name to the set above |
| `Members.Populate` | internal/backend_helpers/common.go:131-132 | a list built only by adding members holds 0 up to n-1, each linked to its member |
| `Members.LengthIsFree` | internal/backend_helpers/common.go:247-260 | the length of the list is free as an index if and only if it is not in the list; for lists 0 up to n-1 it always is |
| `Members.AddToCollection` | internal/backend_helpers/common.go:240-271 | a backend adding to a collection of any origin keeps the indices distinct if and only if their number is not among them |
| `Members.CreateThenAdd` | internal/backend_helpers/common.go:240-271 | after a POST to an empty collection a backend that adds a member uses the index 1 a second time |
| `Members.DeleteThenAdd` | internal/backend_helpers/common.go:240-271 | after a DELETE a backend that adds a member uses the number of those left, which is new if and only if it is not among them |
| `Members.OnlyLastIsFree` | internal/backend_helpers/common.go:240-271 | in a list built by backends that is so if and only if the last index was the one deleted |
| `Validator.CheckProperties` | cmd/rfdispatcher/rfvalidator.go:220-301 | the report is that of a function of schema and payload, in every iteration order, panics included |
| `Validator.CheckProperty` | cmd/rfdispatcher/rfvalidator.go:255-298 | one property by its type |
| `Validator.CheckArray` | cmd/rfdispatcher/rfvalidator.go:393-432 | every element by the element type; integers, nested arrays and unknown types panic |
| `Validator.CleanConverts` | cmd/rfdispatcher/rfvalidator.go:255-298 | on a supported property the validator does not panic, and a clean verdict promises that conversion without a callback succeeds |
| `Validator.CleanObjectConverts` | cmd/rfdispatcher/rfvalidator.go:210-301 | the same for whole payloads: clean at every level and no added name implies no error and no panic in the converter |
| `Validator.AddedNamesFail` | cmd/rfdispatcher/rfvalidator.go:222-238 | if all known members are clean, conversion succeeds if and only if no name was added |
| `Validator.CleanObjectExactly` | cmd/rfdispatcher/rfvalidator.go:210-432 | under any schema, a payload whose report is clean at every level and has no added name converts without a callback if and only if no member at any level is that of an auto-expanded link |
| `Validator.ExpandedLinkFails` | cmd/rfdispatcher/rfvalidator.go:282-295 | on an auto-expanded link every value that the validator accepts makes the converter panic |
| `Validator.IntegerArrayPanics` | cmd/rfdispatcher/rfvalidator.go:396-430 | on arrays of integers or of arrays the validator panics if and only if there is an element |
| `Validator.CleanIsTyped` | cmd/rfdispatcher/rfvalidator.go:210-432 | under every schema the validator panics exactly where an element of an array is an integer or an array, an element that is an auto-expanded link is no object, or a type is unknown; elsewhere a value has a clean verdict if and only if it is typed at every level: simple values that the converter takes, links that hold their id alone, known names, and all of it within the further constraints |
| `Validator.TestsAgree` | cmd/rfdispatcher/rfvalidator.go:255-298 | the validator's test of simple values is the converter's, and its test of links asks for the id and nothing else |
| `Detect.DetectNavigationLinks` | internal/rfschema/tree.go:129-150 | marks every link at the top of a resource and directly inside its objects other than Links, in place and in any order |
| `Detect.DetectNavigationArrays` | internal/rfschema/tree.go:152-180 | marks every array of referring links at the top of a resource other than ResourceBlock |
| `Detect.DetectionIsShallow` | internal/rfschema/tree.go:129-180 | after detection navigation links are exactly at these places and nowhere deeper |
| `Detect.DetectionKeepsLinks` | internal/rfschema/tree.go:129-180 | detection links nothing |
| `SchemaTree.MemberTypeIs` | internal/rfschema/tree.go:401-406 | a collection type is that of its members with Collection at the end |
| `Copy.CopyProperty` | internal/rfschema/copy.go:73-208 | a deep copy on the heap: the same property, made of new nodes only, at every depth |
| `Copy.LinkNode` | internal/rfschema/copy.go:73-122 | writing a link into a copy leaves every property with other nodes as it was |
| `Acyclic.LinkableExactly` | internal/rfschema/tree.go:311-334 | a sound pool has a rank, as linking needs it, if and only if the references left after cutting the known cycles make no cycle |
| `Linker.CopyResource` | internal/rfschema/copy.go:25-71 | a new resource with the same name, properties and instance number, not linked yet |
| `Linker.LinkNavProperty` | internal/rfschema/tree.go:285-345 | a navigation link gets a fresh copy of its target, or the CycleDetected marker if the reference is the known cycle of its resource |
| `Linker.LinkObject` | internal/rfschema/tree.go:446-469 | the links directly inside an object are set, and those that are not known cycles are also reachable under the resource's own properties |
| `Linker.LinkProperty` | internal/rfschema/tree.go:429-504 | one property of a visited resource: link, object, array of links, or left as it is |
| `Linker.LinkFields` | internal/rfschema/tree.go:422-505 | visiting a resource gives it the template's properties with every navigation link set to a fresh copy in a slot of its own |
| `Linker.LinkCollection` | internal/rfschema/tree.go:398-419 | visiting a collection gives it a fresh copy of its member type |
| `TreeLinker.CheckNilLinks` | internal/rfschema/tree.go:543-551 | succeeds if and only if no navigation link at the top is set |
| `TreeLinker.VisitLowersTotal` | internal/rfschema/tree.go:386-508 | the summed weight of the stack falls with every visit, which is why the loop ends |
| `TreeLinker.Unfold` | internal/rfschema/tree.go:347-508 | the loop terminates, no check inside it fails, no resource is popped twice, every resource is new and linked, and the templates keep everything but their instance number |
| `Consistency.ReferencedOnce` | internal/rfschema/tree.go:531-540 | in the result every resource is referred to from one place at most, and the root from none |
| `Consistency.CheckLinks` | internal/rfschema/tree.go:553-563 | succeeds if and only if all navigation links and arrays at the top are set |
| `Consistency.CountReferences` | internal/rfschema/tree.go:265-283 | the counter of every resource is the number of top-level links and collections among the visited resources that lead to it |
| `Consistency.CountsSuccessors` | internal/rfschema/traverse.go:76-87 | what traversal goes on to is what is counted: the member type of a collection, otherwise the targets of the navigation links at the top, and nothing else |
| `Consistency.ConsistencyCheck` | internal/rfschema/tree.go:518-541 | succeeds if and only if, among the resources reachable from the root, navigation links are set and none is referred to twice |
| `Consistency.TreeIsConsistent` | internal/rfschema/tree.go:518-541 | on a linked tree both hold |
| `Consistency.LinkDFS` | internal/rfschema/tree.go:347-516 | the whole function: no panic, a closed tree of fresh linked copies, templates unchanged but for the instance number, no resource popped twice |
| `Traverse.TraverseTree` | internal/rfschema/traverse.go:63-90 | on every finite resource graph without nil navigation links, cyclic or not, it terminates and visits exactly the reachable resources, each once |
| `Traverse.PushSuccessors` | internal/rfschema/traverse.go:76-87 | pushes exactly the resources that a resource leads to |
| `Traverse.ResourceStack.Push` | internal/rfschema/traverse.go:36-40 | puts the new item in front |
| `Traverse.ResourceStack.Pop` | internal/rfschema/traverse.go:43-51 | takes the item in front |
| `Walk.WalkTree` | internal/rfschema/walk.go:40-144 | the loop resolves a path as the step function does, token by token |
| `Walk.TokensOfPath` | internal/rfschema/walk.go:43-56 | a path built from non-empty slash-free tokens, with or without a trailing slash, has exactly these tokens |
| `Walk.RootPaths` | internal/rfschema/walk.go:40-56 | paths that do not start with the service root resolve to nothing, and the root's own path has no tokens |
| `Walk.SplitThenJoin` | internal/rfschema/walk.go:31-50 | splitting a text at slashes and joining it gives the text back |
| `Walk.OneMoreToken` | internal/rfschema/walk.go:62-133 | the result for one more token is one step from the result for the tokens before it |
| `Walk.TokenEnters` | internal/rfschema/walk.go:75-133 | what one more token does wherever the tokens before it have led: in a collection the callback decides; a resource is left by its navigation links alone, and objects, plain links and walkable leaves are positions in it; arrays, other leaves and unknown names lead nowhere; in an object an action goes without its # |
| `Walk.PrefixResolves` | internal/rfschema/walk.go:62-133 | if a token list resolves, so does each of its prefixes |
| `Walk.CollectionsAreNotObjects` | internal/rfschema/walk.go:75-132 | a position inside a property is never in a collection |
| `Lazy.EagerIsLazy` | internal/rfschema/walk.go:40-144 | on the linked tree every token list is accepted or refused, and lands on a copy of the template or property, as when link references are followed by name in the pool, aliases and cycle markers included, and it never panics |
| `Lockout.ManagerAccount.SetLockOut` | internal/rfdispatcher/accountservice/AccountService.go:410-419 | the account and its stored Locked property change together, and no other key but the member set does |
| `Lockout.ManagerAccount.Authenticate` | internal/rfdispatcher/accountservice/AccountService.go:351-406 | succeeds if and only if the account is not locked and the password is right, and otherwise records the failure |
| `Lockout.ManagerAccount.UpdatePeriodic` | internal/rfdispatcher/accountservice/AccountService.go:422-468 | resets the counter and ends the lock, each by its own reading of the clock |
| `Lockout.ManagerAccount.Run` | internal/rfdispatcher/accountservice/AccountService.go:351-468 | after every run of logins and ticks the state is that of the step function and the stored Locked equals the account's |
| `Lockout.CounterCounts` | internal/rfdispatcher/accountservice/AccountService.go:389-390 | the counter is the number of failures since it was last zero |
| `Lockout.LocksExactlyBeyond` | internal/rfdispatcher/accountservice/AccountService.go:376-406 | an account locks if and only if a failure makes the failures since the counter was last zero more than the threshold |
| `Lockout.UnlocksExactlyLate` | internal/rfdispatcher/accountservice/AccountService.go:451-464 | a locked account unlocks if and only if a tick reads more than the duration since the event that locked it |
| `Lockout.ResetsExactly` | internal/rfdispatcher/accountservice/AccountService.go:437-449 | a tick leaves the counter zero if and only if it was zero, or the tick reads more than CounterResetAfter since the latest failure; nothing else but a failure changes it |
| `Lockout.DisabledNeverLocks` | internal/rfdispatcher/accountservice/AccountService.go:377-382 | with lockouts disabled nothing changes in any run |
| `Lockout.ClearsExactly` | internal/rfdispatcher/accountservice/AccountService.go:437-464 | the counter is zero after every tick that ends a lock, in all runs whose two clock readings per event are at most gap apart, if and only if CounterResetAfter plus gap is at most Duration |
| `Lockout.KeepsCounter` | internal/rfdispatcher/accountservice/AccountService.go:437-464 | otherwise there is a run that ends a lock and keeps the counter |
| `Outlet.TranslatorsAreInverse` | internal/backend_helpers/jaws.go:242-279 | both translators accept the same names, yield canonical names of the other kind, and undo each other exactly on canonical names |
| `Outlet.RedfishNamesDiffer` | internal/backend_helpers/jaws.go:260 | different outlets have different Redfish names |
| `Outlet.SortsBelowHundred` | internal/backend_helpers/jaws.go:243-249 | outlets of a unit below one hundred sort lexicographically as by number |
| `Outlet.SortsByNumber` | internal/backend_helpers/jaws.go:243-249 | so do any two outlets whose padded numbers are equally long |
| `Outlet.SortsExactlyBelowHundred` | internal/backend_helpers/jaws.go:243-249 | all outlets of a unit numbered below a bound sort by number if and only if the bound is at most one hundred |
| `Outlet.Run` | internal/backend_helpers/jaws.go:384-399 | after any run of power controls and monitor reads, of any units and in any spelling, the cache holds under every name what the latest step that concerns the name left, and no other key has changed |
| `Outlet.ControlThenRead` | internal/backend_helpers/jaws.go:1797-2180 | switching an outlet and asking for its state under the same name gives the new state if and only if that is the Redfish name, and nothing under any other |
| `Outlet.ControlForgetsExactly` | internal/backend_helpers/jaws.go:1832-1835 | under the Redfish name nothing cached before a control is found after it if the request used that name; in any other spelling the control makes no difference to it, so the old state is still served |
| `Outlet.ReadFills` | internal/backend_helpers/jaws.go:384-399 | a read, whatever the name in it, fills the key that a control drops if and only if the request used the Redfish name and the read is of the outlet with the same unit and number |
| `Outlet.ReadAfterControl` | internal/backend_helpers/jaws.go:1832-1835 | under the name of the request nothing older than the control is found; a read right after it is found there if and only if it is of that outlet and the request used the Redfish name |
| `Publication.GCloudHelper.InitInstance` | internal/backend_helpers/gcloud.go:227-387 | which checks and messages an instance gets, by its phase and the answers of the outside world |
| `Publication.GCloudHelper.UpdateKnownInstance` | internal/backend_helpers/gcloud.go:389-455 | initialises an instance that is new, waiting or not yet told of, and records it in any case |
| `Publication.GCloudHelper.RunPeriodic` | internal/backend_helpers/gcloud.go:457-514 | one pass does what the listing determines; a completed pass leaves exactly the listed instances known, and HSM is asked to remove those that were known and are not listed |
| `Publication.GCloudHelper.Run` | internal/backend_helpers/gcloud.go:457-514 | every run keeps the waiting instances among those to be told of, and what happens is legal |
| `Publication.WaitingIsToBeTold` | internal/backend_helpers/gcloud.go:475-484 | the keys of waitReady are among those of informHSM |
| `Publication.ToldOnlyWhenReady` | internal/backend_helpers/gcloud.go:349-383 | HSM is told of an instance only after a readiness check has succeeded since the latest creation of its service, and not after it was told with success |
| `Publication.ToldOncePerCreation` | internal/backend_helpers/gcloud.go:372-382 | between two messages the first of which succeeded the service was created again |
| `Publication.ListedOnce` | internal/backend_helpers/gcloud.go:227-387 | the events that one listed instance adds, by its phase and the answers of the outside world |
| `Publication.PassTells` | internal/backend_helpers/gcloud.go:457-514 | an instance that is not yet told of, or whose service is new, is in HSM and done with after any pass that lists it and where set-up, check and message succeed |
| `Publication.RunIsPrompt` | internal/backend_helpers/gcloud.go:349-383 | in every run each successful check is followed at once by a message about the instance |
| `Publication.KnownExactly` | internal/backend_helpers/gcloud.go:486-507 | known after a run are exactly those that no complete pass has missed since they were listed, or known before |
| `Publication.InHSMExactly` | internal/backend_helpers/gcloud.go:349-383 | an instance that was told of, and whose service is not created again, is in HSM after any run if and only if it was before and no complete pass has found it missing while it was known and had it removed |
| `Publication.ReturnsUnheld` | internal/backend_helpers/gcloud.go:486-507 | an instance in HSM that one complete pass misses and the next lists again is known and not in HSM, as it stays by InHSMExactly |

## Left out

- Parsing of the JSON schema files and version mappings: the model starts from parsed templates, with the target type of a link reference in place of its text.
- Turning arrays of objects with a MemberId into embedded collections: the pool is taken after that step; reading such collections is modelled (`Build.BuildAutoExpandedLink`).
- Writing through auto-expanded links, patching arrays and removing keys by text pattern: unsupported by the original or matched by raw text.
- Floating-point properties: only whole numbers, which are converted as on amd64 when they do not fit 64 bits.
- The sorted text of names in @odata.context is a parameter of the reader, a function of the set of names.
- Files, scripts and backends that answer for absent values: one function of the key.
- Message annotations, counters and the status code of the PATCH answer, and the response body of POST.
- HTTP, privileges beyond one predicate per top-level name, hooks, logging, credentials, certificates and all foreign services.
- Locking and concurrent passes inside one process; only the IPC protocol is interleaved.
- Linker.LinkObject: properties are values here, so the alias that linking stores under the resource is a second copy of the property rather than the same node; the loop may or may not meet an alias it has just added, which makes no difference because a linked property is skipped. `Copy.CopyProperty` shows on nodes that values are justified.
- Linker.CopyResource: copies the fields that linking and walking use, not descriptions, limits and other metadata.
- Consistency.CountReferences: keeps the counters in a map beside the resources, and the callback of a traversal runs on the list of visits afterwards, which is the same because the callbacks change neither properties nor links.
- Traverse.TraverseTree: returns the visits in order instead of calling a function on each.
- TreeLinker.Unfold: the stack is a sequence to which a visit adds all new resources at once.
- Members.CreateMember: the name in the payload must be one path segment.
- Members.DeleteMember: of the collection callbacks only the dispatcher's own; others that may be registered with it are foreign services.
- Members.Run: the name in a DELETE is one path segment; the run ends at the first DELETE that panics over the keys of its resource, and the indices stay below the end of the 64-bit range.
- Convert.Interface2Redis: an error return and a panic are one outcome: every modelled caller panics on an error, and which of the two a payload with several faults meets first depends on the order of the map iteration.
- Convert.StructField2Redis: the same.
- PatchMerge.PatchIsMerge: for array-free payloads that fit the schema and name no count annotation of an array of it; arrays make the patch panic.
- Members.Populate: lists and links the members; their own resources are written by code that differs from backend to backend.
- Members.NextIndex: the list is stated for 64-bit numbers, where an index at the very end of the range wraps around.
- Lockout.ManagerAccount.Authenticate: one step, with the comparison of the password as a parameter; settings stay the same during a run and durations do not overflow.
- Outlet.Run: only the power state, not the other readings and not the expiry of keys.
- Publication.GCloudHelper.RunPeriodic: power events, credentials and Redis set-up are answers of the outside world without further effect; the removals at the end of a pass are one event.
- Requests.HandlePatch: what a PATCH that panics half-way leaves is bounded by the resource only.
- Ipc.RunKeepsInv: messages to the backend are delivered in any order but not lost; identifiers of calls are distinct.
- Validator.CheckProperties: enum members, formats, lengths, patterns, ranges and the URI format are one predicate; a report has one verdict per property instead of one map per kind of fault; required properties and name patterns are not modelled.
