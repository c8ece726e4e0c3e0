/** The request/response protocol between frontends (`PerformIPC`) and backend, as interleaved atomic steps. */
module Ipc {
  import opened Basics
  import opened Sums

  // Every call of `PerformIPC` is one frontend with its own id.  A frontend and a handler are
  // interleaved at every Redis command, timeouts may fire at any moment of the wait, and a
  // wake-up published to a frontend may be lost.

  type Target = string
  type Id = nat
  type Body = map<string, string>

  /** A request hash: the caller's fields and the id whose response key it names. */
  datatype Req = Req(replyTo: Id, body: Body)

  datatype Phase =
    | Created                            // id generated
    | Inserted                           // request hash stored
    | Subscribed                         // listening on the response key
    | Refused                            // RENAMENX answered 0: final
    | Waiting                            // RENAMENX answered 1
    | Woken                              // message received
    | Answered(reply: Option<string>)    // response read, cleanup still to run
    | Expired                            // timed out, cleanup still to run
    | Returned(reply: Option<string>)    // final
    | TimedOut                           // final

  datatype Call = Call(target: Target, body: Body, phase: Phase, inbox: bool)

  datatype Event = RenameTo(t: Target) | Deleted(t: Target)

  datatype HandlerPhase = Started | Working(request: Option<Req>) | Responded

  datatype Handler = Handler(target: Target, phase: HandlerPhase)

  /**
   The Redis keys of the protocol live in three name spaces: `requests` are the
   "...:ID:Request" keys, `responses` the "...:ID:Response" keys, and `targets` the target
   keys.  `mailbox` holds the undelivered keyspace messages of the backend; they are
   delivered in any order.  `written` and `late` record history: the calls whose response
   was stored, and those whose response was stored after the caller's cleanup had run.
   */
  datatype State = State(
    requests: map<Id, Req>,
    responses: map<Id, string>,
    targets: map<Target, Req>,
    calls: map<Id, Call>,
    mailbox: multiset<Event>,
    handlers: map<nat, Handler>,
    spawned: nat,
    written: set<Id>,
    late: set<Id>)

  /** Which target keys the backend's subscription pattern covers, and what it answers. */
  datatype Config = Config(watched: Target -> bool, work: (Target, Body) -> string)

  const IDLE := State(map[], map[], map[], map[], multiset{}, map[], 0, {}, {})

  datatype Step =
    | Begin(id: Id, t: Target, b: Body)
    | Insert(id: Id)
    | Subscribe(id: Id)
    | Rename(id: Id)
    | Wake(id: Id)
    | Lose(id: Id)
    | Read(id: Id)
    | Expire(id: Id)
    | Cleanup(id: Id)
    | Deliver(e: Event)
    | Fetch(h: nat)
    | Reply(h: nat)
    | Release(h: nat)

  predicate InPhase(s: State, id: Id, phase: Phase) {
    id in s.calls && s.calls[id].phase == phase
  }

  predicate Enabled(s: State, step: Step) {
    match step
    case Begin(id, _, _) => id !in s.calls
    case Insert(id) => InPhase(s, id, Created)
    case Subscribe(id) => InPhase(s, id, Inserted)
    case Rename(id) => InPhase(s, id, Subscribed)
    case Wake(id) => InPhase(s, id, Waiting) && s.calls[id].inbox
    case Lose(id) => id in s.calls && s.calls[id].inbox
    case Read(id) => InPhase(s, id, Woken)
    case Expire(id) => InPhase(s, id, Waiting)
    case Cleanup(id) => id in s.calls && (s.calls[id].phase.Answered? || s.calls[id].phase.Expired?)
    case Deliver(e) => e in s.mailbox
    case Fetch(h) => h in s.handlers && s.handlers[h].phase.Started?
    case Reply(h) => h in s.handlers && s.handlers[h].phase.Working?
    case Release(h) => h in s.handlers && s.handlers[h].phase.Responded?
  }

  function Move(s: State, id: Id, phase: Phase, inbox: bool): State
    requires id in s.calls
  {
    s.(calls := s.calls[id := s.calls[id].(phase := phase, inbox := inbox)])
  }

  /** HGETALL: the empty hash when the key is gone. */
  function Lookup<K, V>(m: map<K, V>, k: K): Option<V> {
    if k in m then Some(m[k]) else None
  }

  predicate Cleaned(phase: Phase) {
    phase.Returned? || phase.TimedOut?
  }

  /** RENAMENX of the request key to the target key. */
  function Renamed(c: Config, s: State, id: Id): State
    requires id in s.calls
  {
    var t := s.calls[id].target;
    if id !in s.requests || t in s.targets then
      Move(s, id, Refused, false)
    else
      Move(s, id, Waiting, false).(
        requests := s.requests - {id},
        targets := s.targets[t := s.requests[id]],
        mailbox := if c.watched(t) then s.mailbox + multiset{RenameTo(t)} else s.mailbox)
  }

  function Delivered(s: State, e: Event): State {
    var rest := s.(mailbox := s.mailbox - multiset{e});
    match e
    case RenameTo(t) =>
      rest.(handlers := s.handlers[s.spawned := Handler(t, Started)], spawned := s.spawned + 1)
    case Deleted(_) => rest
  }

  /** HMSET of the response, with the message it publishes to a frontend still listening.
      With no request under the target the reply goes to the empty key, which is not one
      of the protocol's keys. */
  function Replied(c: Config, s: State, h: nat): State
    requires h in s.handlers && s.handlers[h].phase.Working?
  {
    var Handler(t, Working(request)) := s.handlers[h];
    var s1 := s.(handlers := s.handlers[h := Handler(t, Responded)]);
    match request
    case None => s1
    case Some(Req(id, body)) =>
      var s2 := s1.(responses := s.responses[id := c.work(t, body)], written := s.written + {id});
      if id !in s.calls then s2
      else if Cleaned(s.calls[id].phase) then s2.(late := s.late + {id})
      else Move(s2, id, s.calls[id].phase, true)
  }

  function Released(c: Config, s: State, h: nat): State
    requires h in s.handlers
  {
    var t := s.handlers[h].target;
    s.(targets := s.targets - {t},
       handlers := s.handlers - {h},
       mailbox := if c.watched(t) && t in s.targets then s.mailbox + multiset{Deleted(t)} else s.mailbox)
  }

  function CleanedUp(s: State, id: Id): State
    requires id in s.calls
  {
    var phase := s.calls[id].phase;
    var final := if phase.Answered? then Returned(phase.reply) else TimedOut;
    Move(s, id, final, false).(requests := s.requests - {id}, responses := s.responses - {id})
  }

  function Apply(c: Config, s: State, step: Step): State
    requires Enabled(s, step)
  {
    match step
    case Begin(id, t, b) => s.(calls := s.calls[id := Call(t, b, Created, false)])
    case Insert(id) =>
      Move(s, id, Inserted, false).(requests := s.requests[id := Req(id, s.calls[id].body)])
    case Subscribe(id) => Move(s, id, Subscribed, false)
    case Rename(id) => Renamed(c, s, id)
    case Wake(id) => Move(s, id, Woken, false)
    case Lose(id) => Move(s, id, s.calls[id].phase, false)
    case Read(id) => Move(s, id, Answered(Lookup(s.responses, id)), s.calls[id].inbox)
    case Expire(id) => Move(s, id, Expired, s.calls[id].inbox)
    case Cleanup(id) => CleanedUp(s, id)
    case Deliver(e) => Delivered(s, e)
    case Fetch(h) =>
      var t := s.handlers[h].target;
      s.(handlers := s.handlers[h := Handler(t, Working(Lookup(s.targets, t)))])
    case Reply(h) => Replied(c, s, h)
    case Release(h) => Released(c, s, h)
  }

  // ---------- The invariant ----------

  predicate Claimed(phase: Phase) {
    !phase.Created? && !phase.Inserted? && !phase.Subscribed? && !phase.Refused?
  }

  /** Everything the invariant says about call `id`. */
  ghost predicate CallOk(c: Config, s: State, id: Id, call: Call) {
    && (id in s.requests <==> call.phase.Inserted? || call.phase.Subscribed? || call.phase.Refused?)
    && (id in s.requests ==> s.requests[id] == Req(id, call.body))
    && (id in s.written ==> Claimed(call.phase))
    && (id in s.responses <==> id in s.written && (Cleaned(call.phase) ==> id in s.late))
    && (id in s.responses ==> s.responses[id] == c.work(call.target, call.body))
    && (id in s.late ==> id in s.written && call.phase.TimedOut?)
    && (Claimed(call.phase) && id !in s.written ==>
          call.target in s.targets && s.targets[call.target] == Req(id, call.body))
    && (call.inbox || call.phase.Woken? ==> id in s.written && !Cleaned(call.phase))
    && (call.phase.Answered? || call.phase.Returned? ==>
          id in s.written && call.phase.reply == Some(c.work(call.target, call.body)))
  }

  ghost predicate CallsInv(c: Config, s: State) {
    && (forall id {:trigger CallOk(c, s, id, s.calls[id])} :: id in s.calls ==> CallOk(c, s, id, s.calls[id]))
    && s.requests.Keys <= s.calls.Keys && s.responses.Keys <= s.calls.Keys && s.written <= s.calls.Keys
    && s.late <= s.calls.Keys
  }

  /** A target key carries the request of a call that claimed it. */
  ghost predicate HolderOk(calls: map<Id, Call>, t: Target, r: Req) {
    && r.replyTo in calls
    && calls[r.replyTo].target == t
    && calls[r.replyTo].body == r.body
    && Claimed(calls[r.replyTo].phase)
  }

  ghost predicate TargetsInv(s: State) {
    forall t {:trigger HolderOk(s.calls, t, s.targets[t])} :: t in s.targets ==> HolderOk(s.calls, t, s.targets[t])
  }

  /** One unit of backend work, a message or a handler, for every watched target key. */
  ghost predicate WorkInv(c: Config, targets: map<Target, Req>, mailbox: multiset<Event>,
                          handlers: map<nat, Handler>, spawned: nat) {
    && (forall t :: mailbox[RenameTo(t)] <= 1)
    && (forall t :: RenameTo(t) in mailbox ==> c.watched(t) && t in targets)
    && (forall h :: h in handlers ==>
          h < spawned && c.watched(handlers[h].target) && handlers[h].target in targets &&
          RenameTo(handlers[h].target) !in mailbox)
    && (forall h, h' :: h in handlers && h' in handlers && handlers[h].target == handlers[h'].target ==> h == h')
    && (forall t :: t in targets && c.watched(t) ==>
          RenameTo(t) in mailbox || exists h :: h in handlers && handlers[h].target == t)
  }

  /** A handler has replied exactly when the holder of its target has been answered. */
  ghost predicate HandlerOk(s: State, h: Handler) {
    h.target in s.targets ==>
      && (h.phase.Working? ==> h.phase.request == Some(s.targets[h.target]))
      && (h.phase.Responded? <==> s.targets[h.target].replyTo in s.written)
  }

  ghost predicate AnswerInv(c: Config, s: State) {
    && (forall h {:trigger HandlerOk(s, s.handlers[h])} :: h in s.handlers ==> HandlerOk(s, s.handlers[h]))
    && (forall t :: t in s.targets && (RenameTo(t) in s.mailbox || !c.watched(t)) ==>
          s.targets[t].replyTo !in s.written)
  }

  ghost predicate Inv(c: Config, s: State) {
    && CallsInv(c, s)
    && TargetsInv(s)
    && WorkInv(c, s.targets, s.mailbox, s.handlers, s.spawned)
    && AnswerInv(c, s)
  }

  lemma InitialInv(c: Config)
    ensures Inv(c, IDLE)
  {
  }

  // ---------- Every step keeps the invariant ----------

  /** A call that a step does not touch stays well described. */
  lemma OtherCall(c: Config, s: State, s': State, id: Id)
    requires id in s.calls && id in s'.calls && s'.calls[id] == s.calls[id]
    requires CallOk(c, s, id, s.calls[id])
    requires Lookup(s.requests, id) == Lookup(s'.requests, id)
    requires Lookup(s.responses, id) == Lookup(s'.responses, id)
    requires id in s.written <==> id in s'.written
    requires id in s.late <==> id in s'.late
    requires !Claimed(s.calls[id].phase) || id in s.written ||
             Lookup(s.targets, s.calls[id].target) == Lookup(s'.targets, s.calls[id].target)
    ensures CallOk(c, s', id, s'.calls[id])
  {
  }

  /** A step that changes only call `id` and the request and response keys of that id. */
  lemma KeepFrontend(c: Config, s: State, id: Id, call: Call, requests: map<Id, Req>, responses: map<Id, string>)
    requires Inv(c, s)
    requires requests - {id} == s.requests - {id} && responses - {id} == s.responses - {id}
    requires CallOk(c, s.(requests := requests, responses := responses), id, call)
    requires id in s.calls ==> call.target == s.calls[id].target && call.body == s.calls[id].body
    requires id in s.calls && Claimed(s.calls[id].phase) ==> Claimed(call.phase)
    ensures Inv(c, s.(requests := requests, responses := responses, calls := s.calls[id := call]))
  {
    var s' := s.(requests := requests, responses := responses, calls := s.calls[id := call]);
    KeepFrontendCalls(c, s, id, call, s');
    forall t | t in s.targets
      ensures HolderOk(s'.calls, t, s.targets[t])
    {
      assert HolderOk(s.calls, t, s.targets[t]);
    }
    forall h | h in s.handlers
      ensures HandlerOk(s', s.handlers[h])
    {
      assert HandlerOk(s, s.handlers[h]);
    }
  }

  lemma KeepFrontendCalls(c: Config, s: State, id: Id, call: Call, s': State)
    requires CallsInv(c, s)
    requires s' == s.(requests := s'.requests, responses := s'.responses, calls := s.calls[id := call])
    requires s'.requests - {id} == s.requests - {id} && s'.responses - {id} == s.responses - {id}
    requires CallOk(c, s', id, call)
    ensures CallsInv(c, s')
  {
    SameElsewhere(s.requests, s'.requests, id);
    SameElsewhere(s.responses, s'.responses, id);
    forall i | i in s'.calls
      ensures CallOk(c, s', i, s'.calls[i])
    {
      if i != id {
        OtherCall(c, s, s', i);
      }
    }
  }

  lemma SameElsewhere<V>(m: map<Id, V>, m': map<Id, V>, id: Id)
    requires m' - {id} == m - {id}
    ensures forall i :: i != id ==> Lookup(m, i) == Lookup(m', i)
    ensures m'.Keys <= m.Keys + {id}
  {
    assert forall i :: i != id ==> (i in m <==> i in m - {id}) && (i in m' <==> i in m' - {id});
  }

  lemma KeepSetup(c: Config, s: State, step: Step)
    requires Inv(c, s) && Enabled(s, step)
    requires step.Begin? || step.Insert? || step.Subscribe?
    ensures Inv(c, Apply(c, s, step))
  {
    var s' := Apply(c, s, step);
    assert step.id in s.calls ==> CallOk(c, s, step.id, s.calls[step.id]);
    KeepFrontend(c, s, step.id, s'.calls[step.id], s'.requests, s'.responses);
  }

  lemma KeepWait(c: Config, s: State, step: Step)
    requires Inv(c, s) && Enabled(s, step)
    requires step.Wake? || step.Lose? || step.Read? || step.Expire?
    ensures Inv(c, Apply(c, s, step))
  {
    assert CallOk(c, s, step.id, s.calls[step.id]);
    KeepFrontend(c, s, step.id, Apply(c, s, step).calls[step.id], s.requests, s.responses);
  }

  lemma KeepCleanup(c: Config, s: State, id: Id)
    requires Inv(c, s) && Enabled(s, Cleanup(id))
    ensures Inv(c, CleanedUp(s, id))
  {
    assert CallOk(c, s, id, s.calls[id]);
    KeepFrontend(c, s, id, CleanedUp(s, id).calls[id], s.requests - {id}, s.responses - {id});
  }

  lemma RenameCalls(c: Config, s: State, id: Id)
    requires Inv(c, s) && InPhase(s, id, Subscribed)
    ensures CallsInv(c, Renamed(c, s, id))
  {
    var s' := Renamed(c, s, id);
    assert CallOk(c, s, id, s.calls[id]);
    forall i | i in s'.calls
      ensures CallOk(c, s', i, s'.calls[i])
    {
      assert CallOk(c, s, i, s.calls[i]);
      if i != id {
        OtherCall(c, s, s', i);
      }
    }
  }

  lemma RenameWork(c: Config, targets: map<Target, Req>, mailbox: multiset<Event>,
                   handlers: map<nat, Handler>, spawned: nat, t: Target, r: Req)
    requires WorkInv(c, targets, mailbox, handlers, spawned) && t !in targets
    ensures WorkInv(c, targets[t := r], if c.watched(t) then mailbox + multiset{RenameTo(t)} else mailbox, handlers,
                    spawned)
  {
    if c.watched(t) {
      var mailbox' := mailbox + multiset{RenameTo(t)};
      assert forall u :: u != t ==> mailbox'[RenameTo(u)] == mailbox[RenameTo(u)];
      assert mailbox'[RenameTo(t)] == 1;
    }
  }

  lemma RenameTargets(c: Config, s: State, id: Id)
    requires Inv(c, s) && InPhase(s, id, Subscribed)
    ensures TargetsInv(Renamed(c, s, id))
  {
    var s', t := Renamed(c, s, id), s.calls[id].target;
    assert CallOk(c, s, id, s.calls[id]);
    forall u | u in s'.targets
      ensures HolderOk(s'.calls, u, s'.targets[u])
    {
      assert u in s.targets ==> HolderOk(s.calls, u, s.targets[u]);
    }
  }

  lemma RenameAnswers(c: Config, s: State, id: Id, s': State)
    requires AnswerInv(c, s) && id in s.calls && s.calls[id].target !in s.targets && id !in s.written
    requires s'.written == s.written && s'.handlers == s.handlers
    requires s'.targets == s.targets[s.calls[id].target := Req(id, s.calls[id].body)]
    requires forall u :: u in s.targets && RenameTo(u) in s'.mailbox ==> RenameTo(u) in s.mailbox
    requires forall h :: h in s.handlers ==> s.handlers[h].target in s.targets
    ensures AnswerInv(c, s')
  {
    forall h | h in s.handlers
      ensures HandlerOk(s', s'.handlers[h])
    {
      assert HandlerOk(s, s.handlers[h]);
    }
  }

  lemma RenameBackend(c: Config, s: State, id: Id)
    requires Inv(c, s) && InPhase(s, id, Subscribed)
    ensures var s' := Renamed(c, s, id);
            WorkInv(c, s'.targets, s'.mailbox, s'.handlers, s'.spawned) && AnswerInv(c, s')
  {
    var s', t := Renamed(c, s, id), s.calls[id].target;
    assert CallOk(c, s, id, s.calls[id]);
    if t !in s.targets {
      RenameWork(c, s.targets, s.mailbox, s.handlers, s.spawned, t, s.requests[id]);
      RenameAnswers(c, s, id, s');
    } else {
      assert forall h :: h in s.handlers ==> HandlerOk(s, s.handlers[h]) ==> HandlerOk(s', s.handlers[h]);
    }
  }

  lemma KeepRename(c: Config, s: State, id: Id)
    requires Inv(c, s) && InPhase(s, id, Subscribed)
    ensures Inv(c, Renamed(c, s, id))
  {
    RenameCalls(c, s, id);
    RenameTargets(c, s, id);
    RenameBackend(c, s, id);
  }

  /** A backend step that writes no response and takes no target away. */
  lemma KeepCalls(c: Config, s: State, s': State)
    requires CallsInv(c, s) && TargetsInv(s)
    requires s' == s.(mailbox := s'.mailbox, handlers := s'.handlers, spawned := s'.spawned)
    ensures CallsInv(c, s') && TargetsInv(s')
  {
    forall i | i in s.calls
      ensures CallOk(c, s', i, s.calls[i])
    {
      OtherCall(c, s, s', i);
    }
  }

  lemma DeliverWork(c: Config, targets: map<Target, Req>, mailbox: multiset<Event>,
                    handlers: map<nat, Handler>, spawned: nat, t: Target)
    requires WorkInv(c, targets, mailbox, handlers, spawned) && RenameTo(t) in mailbox
    ensures WorkInv(c, targets, mailbox - multiset{RenameTo(t)}, handlers[spawned := Handler(t, Started)], spawned + 1)
  {
    var mailbox', handlers' := mailbox - multiset{RenameTo(t)}, handlers[spawned := Handler(t, Started)];
    assert forall u :: u != t ==> mailbox'[RenameTo(u)] == mailbox[RenameTo(u)];
    assert RenameTo(t) !in mailbox';
    forall u | u in targets && c.watched(u)
      ensures RenameTo(u) in mailbox' || exists h :: h in handlers' && handlers'[h].target == u
    {
      if t == u {
        assert handlers'[spawned].target == u;
      } else if h :| h in handlers && handlers[h].target == u {
        assert h in handlers' && handlers'[h].target == u;
      }
    }
  }

  lemma DeliverAnswers(c: Config, s: State, t: Target)
    requires Inv(c, s) && RenameTo(t) in s.mailbox
    ensures AnswerInv(c, Delivered(s, RenameTo(t)))
  {
    var s' := Delivered(s, RenameTo(t));
    assert forall u :: u != t ==> s'.mailbox[RenameTo(u)] == s.mailbox[RenameTo(u)];
    forall h | h in s'.handlers
      ensures HandlerOk(s', s'.handlers[h])
    {
      assert h in s.handlers ==> HandlerOk(s, s.handlers[h]);
    }
  }

  lemma DeliverDeleted(c: Config, s: State, t: Target)
    requires Inv(c, s) && Deleted(t) in s.mailbox
    ensures var s' := Delivered(s, Deleted(t));
            WorkInv(c, s'.targets, s'.mailbox, s'.handlers, s'.spawned) && AnswerInv(c, s')
  {
    var s' := Delivered(s, Deleted(t));
    assert forall u :: s'.mailbox[RenameTo(u)] == s.mailbox[RenameTo(u)];
    assert forall h :: h in s.handlers ==> HandlerOk(s, s.handlers[h]) ==> HandlerOk(s', s.handlers[h]);
  }

  lemma KeepDeliver(c: Config, s: State, e: Event)
    requires Inv(c, s) && e in s.mailbox
    ensures Inv(c, Delivered(s, e))
  {
    var s' := Delivered(s, e);
    KeepCalls(c, s, s');
    match e
    case RenameTo(t) =>
      DeliverWork(c, s.targets, s.mailbox, s.handlers, s.spawned, t);
      DeliverAnswers(c, s, t);
    case Deleted(t) => DeliverDeleted(c, s, t);
  }

  /** The work on a target does not depend on how far its handler has come. */
  lemma AdvanceWork(c: Config, targets: map<Target, Req>, mailbox: multiset<Event>,
                    handlers: map<nat, Handler>, spawned: nat, h: nat, phase: HandlerPhase)
    requires WorkInv(c, targets, mailbox, handlers, spawned) && h in handlers
    ensures WorkInv(c, targets, mailbox, handlers[h := handlers[h].(phase := phase)], spawned)
  {
    var handlers' := handlers[h := handlers[h].(phase := phase)];
    assert forall g :: g in handlers <==> g in handlers';
    assert forall g :: g in handlers ==> handlers'[g].target == handlers[g].target;
  }

  lemma KeepFetch(c: Config, s: State, h: nat)
    requires Inv(c, s) && Enabled(s, Fetch(h))
    ensures Inv(c, Apply(c, s, Fetch(h)))
  {
    var s' := Apply(c, s, Fetch(h));
    KeepCalls(c, s, s');
    AdvanceWork(c, s.targets, s.mailbox, s.handlers, s.spawned, h, Working(Lookup(s.targets, s.handlers[h].target)));
    assert HandlerOk(s, s.handlers[h]);
    forall g | g in s'.handlers
      ensures HandlerOk(s', s'.handlers[g])
    {
      assert HandlerOk(s, s.handlers[g]);
    }
  }

  lemma ReplyCalls(c: Config, s: State, h: nat)
    requires Inv(c, s) && Enabled(s, Reply(h))
    ensures CallsInv(c, Replied(c, s, h))
  {
    var s', t := Replied(c, s, h), s.handlers[h].target;
    var id := s.targets[t].replyTo;
    assert HandlerOk(s, s.handlers[h]);
    assert HolderOk(s.calls, t, s.targets[t]);
    assert CallOk(c, s, id, s.calls[id]);
    forall i | i in s'.calls
      ensures CallOk(c, s', i, s'.calls[i])
    {
      if i != id {
        OtherCall(c, s, s', i);
      }
    }
  }

  lemma ReplyTargets(c: Config, s: State, h: nat)
    requires TargetsInv(s) && Enabled(s, Reply(h))
    ensures TargetsInv(Replied(c, s, h))
  {
    forall t | t in s.targets
      ensures HolderOk(Replied(c, s, h).calls, t, s.targets[t])
    {
      assert HolderOk(s.calls, t, s.targets[t]);
    }
  }

  /** Distinct targets are held by distinct calls. */
  lemma DistinctHolders(s: State, t: Target, u: Target)
    requires TargetsInv(s) && t in s.targets && u in s.targets && t != u
    ensures s.targets[t].replyTo != s.targets[u].replyTo
  {
    assert HolderOk(s.calls, u, s.targets[u]) && HolderOk(s.calls, t, s.targets[t]);
  }

  lemma ReplyAnswers(c: Config, s: State, h: nat)
    requires Inv(c, s) && Enabled(s, Reply(h))
    ensures AnswerInv(c, Replied(c, s, h))
  {
    assert HandlerOk(s, s.handlers[h]);
    assert HolderOk(s.calls, s.handlers[h].target, s.targets[s.handlers[h].target]);
    AnswersAfterReply(c, s, h, Replied(c, s, h));
  }

  lemma AnswersAfterReply(c: Config, s: State, h: nat, s': State)
    requires Inv(c, s) && Enabled(s, Reply(h))
    requires s'.targets == s.targets && s'.mailbox == s.mailbox
    requires s'.handlers == s.handlers[h := s.handlers[h].(phase := Responded)]
    requires s'.written == s.written + {s.targets[s.handlers[h].target].replyTo}
    ensures AnswerInv(c, s')
  {
    var t := s.handlers[h].target;
    forall u | u in s.targets && u != t
      ensures s.targets[u].replyTo in s.written <==> s.targets[u].replyTo in s'.written
    {
      DistinctHolders(s, t, u);
    }
    forall g | g in s'.handlers
      ensures HandlerOk(s', s'.handlers[g])
    {
      assert HandlerOk(s, s.handlers[g]);
    }
  }

  lemma KeepReply(c: Config, s: State, h: nat)
    requires Inv(c, s) && Enabled(s, Reply(h))
    ensures Inv(c, Replied(c, s, h))
  {
    ReplyCalls(c, s, h);
    ReplyTargets(c, s, h);
    ReplyAnswers(c, s, h);
    AdvanceWork(c, s.targets, s.mailbox, s.handlers, s.spawned, h, Responded);
  }

  lemma ReleaseCalls(c: Config, s: State, h: nat)
    requires Inv(c, s) && Enabled(s, Release(h))
    ensures CallsInv(c, Released(c, s, h)) && TargetsInv(Released(c, s, h))
  {
    var s', t := Released(c, s, h), s.handlers[h].target;
    assert HandlerOk(s, s.handlers[h]);
    forall i | i in s'.calls
      ensures CallOk(c, s', i, s'.calls[i])
    {
      assert CallOk(c, s, i, s.calls[i]);
      OtherCall(c, s, s', i);
    }
  }

  lemma ReleaseWork(c: Config, targets: map<Target, Req>, mailbox: multiset<Event>,
                    handlers: map<nat, Handler>, spawned: nat, h: nat)
    requires WorkInv(c, targets, mailbox, handlers, spawned) && h in handlers
    ensures WorkInv(c, targets - {handlers[h].target}, mailbox + multiset{Deleted(handlers[h].target)}, handlers - {h},
                    spawned)
  {
    var t := handlers[h].target;
    var targets', mailbox', handlers' := targets - {t}, mailbox + multiset{Deleted(t)}, handlers - {h};
    assert forall u :: mailbox'[RenameTo(u)] == mailbox[RenameTo(u)];
    forall u | u in targets' && c.watched(u)
      ensures RenameTo(u) in mailbox' || exists g :: g in handlers' && handlers'[g].target == u
    {
      if g :| g in handlers && handlers[g].target == u {
        assert g in handlers' && handlers'[g].target == u;
      }
    }
  }

  lemma KeepRelease(c: Config, s: State, h: nat)
    requires Inv(c, s) && Enabled(s, Release(h))
    ensures Inv(c, Released(c, s, h))
  {
    var s' := Released(c, s, h);
    ReleaseCalls(c, s, h);
    ReleaseWork(c, s.targets, s.mailbox, s.handlers, s.spawned, h);
    assert forall u :: s'.mailbox[RenameTo(u)] == s.mailbox[RenameTo(u)];
    forall g | g in s'.handlers
      ensures HandlerOk(s', s'.handlers[g])
    {
      assert HandlerOk(s, s.handlers[g]);
    }
  }

  lemma StepKeepsInv(c: Config, s: State, step: Step)
    requires Inv(c, s) && Enabled(s, step)
    ensures Inv(c, Apply(c, s, step))
  {
    match step
    case Begin(_, _, _) => KeepSetup(c, s, step);
    case Insert(_) => KeepSetup(c, s, step);
    case Subscribe(_) => KeepSetup(c, s, step);
    case Rename(id) => KeepRename(c, s, id);
    case Wake(_) => KeepWait(c, s, step);
    case Lose(_) => KeepWait(c, s, step);
    case Read(_) => KeepWait(c, s, step);
    case Expire(_) => KeepWait(c, s, step);
    case Cleanup(id) => KeepCleanup(c, s, id);
    case Deliver(e) => KeepDeliver(c, s, e);
    case Fetch(h) => KeepFetch(c, s, h);
    case Reply(h) => KeepReply(c, s, h);
    case Release(h) => KeepRelease(c, s, h);
  }

  // ---------- Safety over whole runs ----------

  /** `steps` leads from `s` to `s'`, each step enabled where it is taken. */
  ghost predicate Leads(c: Config, s: State, steps: seq<Step>, s': State)
    decreases steps
  {
    if steps == [] then s' == s
    else Enabled(s, steps[0]) && Leads(c, Apply(c, s, steps[0]), steps[1..], s')
  }

  ghost predicate Reachable(c: Config, s: State) {
    exists steps :: Leads(c, IDLE, steps, s)
  }

  lemma {:induction false} RunKeepsInv(c: Config, s: State, steps: seq<Step>, s': State)
    requires Inv(c, s) && Leads(c, s, steps, s')
    ensures Inv(c, s')
    decreases steps
  {
    if steps != [] {
      StepKeepsInv(c, s, steps[0]);
      RunKeepsInv(c, Apply(c, s, steps[0]), steps[1..], s');
    }
  }

  lemma ReachableInv(c: Config, s: State)
    requires Reachable(c, s)
    ensures Inv(c, s)
  {
    InitialInv(c);
    var steps :| Leads(c, IDLE, steps, s);
    RunKeepsInv(c, IDLE, steps, s);
  }

  ghost function HandlersOf(s: State, t: Target): set<nat> {
    set h | h in s.handlers && s.handlers[h].target == t
  }

  /** In every interleaving a watched target key exists exactly when there is one
      undelivered rename message or one live handler for it, and never more than one. */
  lemma OneWorkerPerTarget(c: Config, s: State, t: Target)
    requires Reachable(c, s) && c.watched(t)
    ensures s.mailbox[RenameTo(t)] + |HandlersOf(s, t)| == (if t in s.targets then 1 else 0)
  {
    ReachableInv(c, s);
    if h :| h in s.handlers && s.handlers[h].target == t {
      assert HandlersOf(s, t) == {h};
    } else {
      assert HandlersOf(s, t) == {};
    }
  }

  /** A call that returns a response returns what the backend computed from its own
      target and request, whatever the other callers did. */
  lemma ReturnsOwnAnswer(c: Config, s: State, id: Id)
    requires Reachable(c, s) && id in s.calls && s.calls[id].phase.Returned?
    ensures s.calls[id].phase.reply == Some(c.work(s.calls[id].target, s.calls[id].body))
  {
    ReachableInv(c, s);
    assert CallOk(c, s, id, s.calls[id]);
  }

  /** Two calls never hold the same target, and a call in its wait holds its target until
      its response has been written. */
  lemma WaitingCallIsServed(c: Config, s: State, id: Id)
    requires Reachable(c, s) && InPhase(s, id, Waiting) && c.watched(s.calls[id].target)
    ensures id in s.responses ||
            (s.calls[id].target in s.targets && s.targets[s.calls[id].target] == Req(id, s.calls[id].body) &&
             s.mailbox[RenameTo(s.calls[id].target)] + |HandlersOf(s, s.calls[id].target)| == 1)
  {
    ReachableInv(c, s);
    assert CallOk(c, s, id, s.calls[id]);
    OneWorkerPerTarget(c, s, s.calls[id].target);
  }

  // ---------- What is left in Redis ----------

  predicate Finished(phase: Phase) {
    phase.Refused? || Cleaned(phase)
  }

  ghost predicate Quiescent(s: State) {
    && (forall id :: id in s.calls ==> Finished(s.calls[id].phase))
    && s.mailbox == multiset{}
    && s.handlers == map[]
  }

  /** Once everything has come to rest the only keys left are the requests of refused
      calls, the responses written after a timed-out caller had cleaned up, and the target
      keys that no backend listens to. */
  lemma LeftoversAreExact(c: Config, s: State)
    requires Reachable(c, s) && Quiescent(s)
    ensures forall id :: id in s.requests <==> InPhase(s, id, Refused)
    ensures s.responses.Keys == s.late
    ensures forall id :: id in s.late ==> InPhase(s, id, TimedOut)
    ensures forall t :: c.watched(t) ==> t !in s.targets
  {
    ReachableInv(c, s);
    forall id | id in s.calls
      ensures id in s.requests <==> InPhase(s, id, Refused)
      ensures id in s.responses <==> id in s.late
      ensures id in s.late ==> InPhase(s, id, TimedOut)
    {
      assert CallOk(c, s, id, s.calls[id]);
    }
  }

  // ---------- Every call ends ----------

  /** An upper bound on the steps that a call can still cause on its own side, and, while
      it is unanswered, the six steps' worth of backend work it is owed. */
  ghost function CallWeight(call: Call, answered: bool): nat {
    (match call.phase
     case Created => 18
     case Inserted => 17
     case Subscribed => 16
     case Waiting => 4
     case Woken => 3
     case Answered(_) => 2
     case Expired => 2
     case _ => 0)
    + (if call.inbox then 1 else 0)
    + (if Claimed(call.phase) && !answered then 6 else 0)
  }

  ghost function HandlerWeight(h: Handler): nat {
    match h.phase
    case Started => 4
    case Working(_) => 3
    case Responded => 6
  }

  ghost function CallWeights(s: State): map<nat, nat> {
    map id | id in s.calls :: CallWeight(s.calls[id], id in s.written)
  }

  ghost function HandlerWeights(s: State): map<nat, nat> {
    map h | h in s.handlers :: HandlerWeight(s.handlers[h])
  }

  ghost function Effort(s: State): nat {
    Sum(CallWeights(s)) + Sum(HandlerWeights(s)) + 5 * |s.mailbox|
  }

  /** Only call `id` and the mailbox count towards the change. */
  lemma CallEffort(s: State, s': State, id: Id)
    requires id in s.calls && s'.calls.Keys == s.calls.Keys && s'.handlers == s.handlers
    requires forall i :: i in s.calls && i != id ==> s'.calls[i] == s.calls[i]
    requires s'.written == s.written
    requires CallWeight(s'.calls[id], id in s.written) + 5 * |s'.mailbox| <
               CallWeight(s.calls[id], id in s.written) + 5 * |s.mailbox|
    ensures Effort(s') < Effort(s)
  {
    SumRemove(CallWeights(s), id);
    SumRemove(CallWeights(s'), id);
    assert CallWeights(s) - {id} == CallWeights(s') - {id};
    assert HandlerWeights(s') == HandlerWeights(s);
  }

  lemma FrontendEffort(c: Config, s: State, step: Step)
    requires Enabled(s, step)
    requires step.Insert? || step.Subscribe? || step.Wake? || step.Lose? || step.Read? || step.Expire? || step.Cleanup?
    requires CallOk(c, s, step.id, s.calls[step.id])
    ensures Effort(Apply(c, s, step)) < Effort(s)
  {
    CallEffort(s, Apply(c, s, step), step.id);
  }

  lemma RenameEffort(c: Config, s: State, id: Id)
    requires InPhase(s, id, Subscribed)
    ensures Effort(Renamed(c, s, id)) < Effort(s)
  {
    CallEffort(s, Renamed(c, s, id), id);
  }

  lemma DeliverEffort(s: State, e: Event)
    requires e in s.mailbox && s.spawned !in s.handlers
    ensures Effort(Delivered(s, e)) < Effort(s)
  {
    var s' := Delivered(s, e);
    assert CallWeights(s') == CallWeights(s);
    if e.RenameTo? {
      SumRemove(HandlerWeights(s'), s.spawned);
      assert HandlerWeights(s') - {s.spawned} == HandlerWeights(s);
    } else {
      assert HandlerWeights(s') == HandlerWeights(s);
    }
  }

  lemma HandlerEffort(s: State, s': State, h: nat)
    requires h in s.handlers && h in s'.handlers && s'.handlers == s.handlers[h := s'.handlers[h]]
    ensures Sum(HandlerWeights(s')) - HandlerWeight(s'.handlers[h]) ==
              Sum(HandlerWeights(s)) - HandlerWeight(s.handlers[h])
  {
    SumRemove(HandlerWeights(s), h);
    SumRemove(HandlerWeights(s'), h);
    assert HandlerWeights(s) - {h} == HandlerWeights(s') - {h};
  }

  lemma FetchEffort(c: Config, s: State, h: nat)
    requires Enabled(s, Fetch(h))
    ensures Effort(Apply(c, s, Fetch(h))) < Effort(s)
  {
    var s' := Apply(c, s, Fetch(h));
    assert CallWeights(s') == CallWeights(s);
    HandlerEffort(s, s', h);
  }

  /** The reply discharges the six units owed to the call that is answered. */
  lemma AnswerEffort(s: State, s': State, id: Id)
    requires id in s.calls && id !in s.written && Claimed(s.calls[id].phase)
    requires s'.calls.Keys == s.calls.Keys && s'.written == s.written + {id}
    requires forall i :: i in s.calls && i != id ==> s'.calls[i] == s.calls[i]
    requires s'.calls[id].phase == s.calls[id].phase
    ensures Sum(CallWeights(s')) + 5 <= Sum(CallWeights(s))
  {
    SumRemove(CallWeights(s), id);
    SumRemove(CallWeights(s'), id);
    assert CallWeights(s) - {id} == CallWeights(s') - {id};
  }

  /** What the reply to a call that is still waiting changes. */
  lemma RepliedShape(c: Config, s: State, h: nat, id: Id, body: Body)
    requires Enabled(s, Reply(h)) && s.handlers[h].phase.request == Some(Req(id, body))
    requires id in s.calls && Claimed(s.calls[id].phase)
    ensures var s' := Replied(c, s, h);
            && s'.calls.Keys == s.calls.Keys && s'.written == s.written + {id} && s'.mailbox == s.mailbox
            && s'.handlers == s.handlers[h := s.handlers[h].(phase := Responded)]
            && (forall i :: i in s.calls && i != id ==> s'.calls[i] == s.calls[i])
            && s'.calls[id].phase == s.calls[id].phase
  {
  }

  lemma ReplyEffort(c: Config, s: State, h: nat, id: Id, body: Body)
    requires Enabled(s, Reply(h)) && s.handlers[h].phase.request == Some(Req(id, body))
    requires id in s.calls && id !in s.written && Claimed(s.calls[id].phase)
    ensures Effort(Replied(c, s, h)) < Effort(s)
  {
    var s' := Replied(c, s, h);
    RepliedShape(c, s, h, id, body);
    AnswerEffort(s, s', id);
    HandlerEffort(s, s', h);
  }

  lemma ReleaseEffort(c: Config, s: State, h: nat)
    requires Enabled(s, Release(h))
    ensures Effort(Released(c, s, h)) < Effort(s)
  {
    var s' := Released(c, s, h);
    assert CallWeights(s') == CallWeights(s);
    SumRemove(HandlerWeights(s), h);
    assert HandlerWeights(s) - {h} == HandlerWeights(s');
  }

  lemma StepLowersEffort(c: Config, s: State, step: Step)
    requires Inv(c, s) && Enabled(s, step) && !step.Begin?
    ensures Effort(Apply(c, s, step)) < Effort(s)
  {
    match step
    case Rename(id) => RenameEffort(c, s, id);
    case Deliver(e) => DeliverEffort(s, e);
    case Fetch(h) => FetchEffort(c, s, h);
    case Release(h) => ReleaseEffort(c, s, h);
    case Reply(h) =>
      var t := s.handlers[h].target;
      assert HandlerOk(s, s.handlers[h]);
      assert HolderOk(s.calls, t, s.targets[t]);
      ReplyEffort(c, s, h, s.targets[t].replyTo, s.targets[t].body);
    case _ =>
      FrontendEffort(c, s, step);
  }

  lemma {:induction false} LeadsOn(c: Config, s: State, steps: seq<Step>, s': State, step: Step)
    requires Leads(c, s, steps, s') && Enabled(s', step)
    ensures Leads(c, s, steps + [step], Apply(c, s', step))
    decreases steps
  {
    if steps != [] {
      LeadsOn(c, Apply(c, s, steps[0]), steps[1..], s', step);
      assert (steps + [step])[1..] == steps[1..] + [step];
    }
  }

  /** From a reachable state every step but a new call lowers the effort that is left. */
  lemma ReachableStep(c: Config, s: State, step: Step)
    requires Reachable(c, s) && Enabled(s, step)
    ensures Reachable(c, Apply(c, s, step))
    ensures !step.Begin? ==> Effort(Apply(c, s, step)) < Effort(s)
  {
    var steps :| Leads(c, IDLE, steps, s);
    LeadsOn(c, IDLE, steps, s, step);
    if !step.Begin? {
      ReachableInv(c, s);
      StepLowersEffort(c, s, step);
    }
  }

  /** With no new calls a run is over after at most `Effort(s)` steps ... */
  lemma {:induction false} RunsAreBounded(c: Config, s: State, steps: seq<Step>, s': State)
    requires Reachable(c, s) && Leads(c, s, steps, s')
    requires forall i :: 0 <= i < |steps| ==> !steps[i].Begin?
    ensures |steps| + Effort(s') <= Effort(s)
    decreases steps
  {
    if steps != [] {
      ReachableStep(c, s, steps[0]);
      RunsAreBounded(c, Apply(c, s, steps[0]), steps[1..], s');
    }
  }

  /** ... and it can only stop where everything is at rest: until then some party can move
      without any new call, lost message or help from another party. */
  lemma NeverStuck(c: Config, s: State)
    requires !Quiescent(s)
    ensures exists step :: Enabled(s, step) && !step.Begin? && !step.Lose?
  {
    if s.mailbox != multiset{} {
      var e :| e in s.mailbox;
      assert Enabled(s, Deliver(e));
    } else if h :| h in s.handlers {
      assert Enabled(s, Fetch(h)) || Enabled(s, Reply(h)) || Enabled(s, Release(h));
    } else {
      var id :| id in s.calls && !Finished(s.calls[id].phase);
      assert Enabled(s, Insert(id)) || Enabled(s, Subscribe(id)) || Enabled(s, Rename(id)) ||
             Enabled(s, Expire(id)) || Enabled(s, Read(id)) || Enabled(s, Cleanup(id));
    }
  }

  // ---------- Without losses and timeouts every call is answered ----------

  /** A call keeps its target and request, what it has claimed, and its end. */
  ghost predicate Continues(before: Call, after: Call) {
    && after.target == before.target && after.body == before.body
    && (Claimed(before.phase) ==> Claimed(after.phase)) && (before.phase.Refused? ==> after.phase.Refused?)
    && (before.phase.Expired? || before.phase.TimedOut? ==> after.phase.Expired? || after.phase.TimedOut?)
  }

  lemma ReplyContinues(c: Config, s: State, h: nat, id: Id)
    requires Enabled(s, Reply(h)) && id in s.calls
    ensures var s' := Replied(c, s, h);
            s'.calls.Keys == s.calls.Keys && Continues(s.calls[id], s'.calls[id]) &&
            s'.calls[id].phase == s.calls[id].phase
  {
  }

  lemma RenameContinues(c: Config, s: State, i: Id, id: Id)
    requires Enabled(s, Rename(i)) && id in s.calls
    ensures var s' := Renamed(c, s, i);
            s'.calls.Keys == s.calls.Keys && Continues(s.calls[id], s'.calls[id])
  {
  }

  lemma StepContinues(c: Config, s: State, step: Step, id: Id)
    requires Enabled(s, step) && id in s.calls
    ensures var s' := Apply(c, s, step);
            && id in s'.calls && Continues(s.calls[id], s'.calls[id])
            && (!step.Begin? ==> s'.calls.Keys == s.calls.Keys)
            && (step == Expire(id) ==> s'.calls[id].phase.Expired?)
  {
    match step
    case Reply(h) => ReplyContinues(c, s, h, id);
    case Rename(i) => RenameContinues(c, s, i, id);
    case Deliver(e) => DeliverKeepsCalls(s, e);
    case _ =>
  }

  lemma DeliverKeepsCalls(s: State, e: Event)
    ensures Delivered(s, e).calls == s.calls
  {
  }

  /** The run neither loses a wake-up of the call nor times it out. */
  ghost predicate Undisturbed(steps: seq<Step>, id: Id) {
    Lose(id) !in steps && Expire(id) !in steps
  }

  /** What holds of a call in every run that leaves it undisturbed. */
  ghost predicate Served(s: State, id: Id) {
    id in s.calls ==>
      && !s.calls[id].phase.Expired? && !s.calls[id].phase.TimedOut?
      && (s.calls[id].phase.Waiting? && id in s.responses ==> s.calls[id].inbox)
  }

  lemma StepServes(c: Config, s: State, step: Step, id: Id)
    requires Inv(c, s) && Served(s, id) && Enabled(s, step) && step != Lose(id) && step != Expire(id)
    ensures Served(Apply(c, s, step), id)
  {
    match step
    case Reply(h) => ReplyServes(c, s, h, id);
    case Rename(i) => RenameServes(c, s, i, id);
    case Deliver(e) => DeliverKeepsCalls(s, e);
    case Fetch(_) =>
    case Release(_) =>
    case _ => FrontendServes(c, s, step, id);
  }

  lemma RenameServes(c: Config, s: State, i: Id, id: Id)
    requires Inv(c, s) && Served(s, id) && Enabled(s, Rename(i))
    ensures Served(Renamed(c, s, i), id)
  {
    assert id in s.calls ==> CallOk(c, s, id, s.calls[id]);
  }

  lemma FrontendServes(c: Config, s: State, step: Step, id: Id)
    requires Inv(c, s) && Served(s, id) && Enabled(s, step) && step != Lose(id) && step != Expire(id)
    requires step.Begin? || step.Insert? || step.Subscribe? || step.Wake? || step.Lose? || step.Read? || step.Expire? ||
             step.Cleanup?
    ensures Served(Apply(c, s, step), id)
  {
    assert id in s.calls ==> CallOk(c, s, id, s.calls[id]);
  }

  /** The response comes with its wake-up. */
  lemma ReplyServes(c: Config, s: State, h: nat, id: Id)
    requires Inv(c, s) && Served(s, id) && Enabled(s, Reply(h))
    ensures Served(Replied(c, s, h), id)
  {
    var t := s.handlers[h].target;
    assert HandlerOk(s, s.handlers[h]);
    assert HolderOk(s.calls, t, s.targets[t]);
  }

  lemma {:induction false} RunServes(c: Config, s: State, steps: seq<Step>, s': State, id: Id)
    requires Inv(c, s) && Served(s, id) && Leads(c, s, steps, s') && Undisturbed(steps, id)
    ensures Served(s', id)
    decreases steps
  {
    if steps != [] {
      StepKeepsInv(c, s, steps[0]);
      StepServes(c, s, steps[0], id);
      RunServes(c, Apply(c, s, steps[0]), steps[1..], s', id);
    }
  }

  /** A waiting call whose response is stored has its wake-up pending, unless the run has lost it. */
  lemma WakeUpIsPending(c: Config, steps: seq<Step>, s: State, id: Id)
    requires Leads(c, IDLE, steps, s) && Lose(id) !in steps
    requires InPhase(s, id, Waiting) && id in s.responses
    ensures s.calls[id].inbox
  {
    InitialInv(c);
    NoExpiryYet(c, IDLE, steps, s, id);
    RunServes(c, IDLE, steps, s, id);
  }

  /** A call that has timed out never waits again. */
  lemma {:induction false} NoExpiryYet(c: Config, s: State, steps: seq<Step>, s': State, id: Id)
    requires Leads(c, s, steps, s') && InPhase(s', id, Waiting)
    ensures Expire(id) !in steps
    ensures id in s.calls ==> !s.calls[id].phase.Expired? && !s.calls[id].phase.TimedOut?
    decreases steps
  {
    if steps != [] {
      NoExpiryYet(c, Apply(c, s, steps[0]), steps[1..], s', id);
      if id in s.calls {
        StepContinues(c, s, steps[0], id);
      }
    }
  }

  /** Nothing can happen any more but new calls, timeouts and losses. */
  ghost predicate Settled(s: State) {
    forall step :: Enabled(s, step) ==> step.Begin? || step.Expire? || step.Lose?
  }

  /** The backend can move as long as there is a message or a handler. */
  lemma HandlerMoves(s: State, h: nat)
    requires h in s.handlers
    ensures !Settled(s)
  {
    match s.handlers[h].phase
    case Started => assert Enabled(s, Fetch(h));
    case Working(_) => assert Enabled(s, Reply(h));
    case Responded => assert Enabled(s, Release(h));
  }

  /** There is backend work on a watched target whose call still waits for its response. */
  lemma WorkIsEnabled(c: Config, s: State, id: Id)
    requires Inv(c, s) && InPhase(s, id, Waiting) && id !in s.responses && c.watched(s.calls[id].target)
    ensures !Settled(s)
  {
    var t := s.calls[id].target;
    assert CallOk(c, s, id, s.calls[id]) && t in s.targets;
    if RenameTo(t) in s.mailbox {
      assert Enabled(s, Deliver(RenameTo(t)));
    } else {
      var h :| h in s.handlers && s.handlers[h].target == t;
      HandlerMoves(s, h);
    }
  }

  /** As long as the call is neither refused nor returned something can happen that is no timeout. */
  lemma CallMoves(c: Config, s: State, id: Id)
    requires Inv(c, s) && Served(s, id) && id in s.calls && c.watched(s.calls[id].target)
    requires !s.calls[id].phase.Refused? && !s.calls[id].phase.Returned?
    ensures !Settled(s)
  {
    match s.calls[id].phase
    case Created => assert Enabled(s, Insert(id));
    case Inserted => assert Enabled(s, Subscribe(id));
    case Subscribed => assert Enabled(s, Rename(id));
    case Waiting =>
      if id in s.responses {
        assert Enabled(s, Wake(id));
      } else {
        WorkIsEnabled(c, s, id);
      }
    case Woken => assert Enabled(s, Read(id));
    case Answered(_) => assert Enabled(s, Cleanup(id));
    case _ =>
  }

  /** In every run that leaves it undisturbed, a call on a watched target has, once the run has settled, been
      refused or returned with the backend's answer to it: it never needs its timeout. */
  lemma CallReturns(c: Config, steps: seq<Step>, s: State, id: Id)
    requires Leads(c, IDLE, steps, s) && Undisturbed(steps, id) && Settled(s)
    requires id in s.calls && c.watched(s.calls[id].target)
    ensures s.calls[id].phase.Refused? ||
            s.calls[id].phase == Returned(Some(c.work(s.calls[id].target, s.calls[id].body)))
  {
    InitialInv(c);
    RunKeepsInv(c, IDLE, steps, s);
    RunServes(c, IDLE, steps, s, id);
    assert CallOk(c, s, id, s.calls[id]);
    if !s.calls[id].phase.Refused? && !s.calls[id].phase.Returned? {
      CallMoves(c, s, id);
    }
  }

  /** Every reachable state settles, by steps that disturb no call. */
  lemma {:induction false} CanSettle(c: Config, s: State) returns (steps: seq<Step>, s': State)
    requires Inv(c, s)
    ensures Leads(c, s, steps, s') && Settled(s')
    ensures forall i :: 0 <= i < |steps| ==> !steps[i].Begin? && !steps[i].Expire? && !steps[i].Lose?
    decreases Effort(s)
  {
    if Settled(s) {
      steps, s' := [], s;
    } else {
      var step :| Enabled(s, step) && !step.Begin? && !step.Expire? && !step.Lose?;
      StepKeepsInv(c, s, step);
      StepLowersEffort(c, s, step);
      var rest;
      rest, s' := CanSettle(c, Apply(c, s, step));
      steps := [step] + rest;
      assert steps[1..] == rest;
    }
  }

  // ---------- Refusals ----------

  /** A refused call found another call of the same target ahead of it. */
  ghost predicate HasRival(s: State, id: Id) {
    id in s.calls &&
    exists other :: other in s.calls && other != id && s.calls[other].target == s.calls[id].target &&
                    Claimed(s.calls[other].phase)
  }

  ghost predicate RefusedRightly(s: State) {
    forall id :: InPhase(s, id, Refused) ==> HasRival(s, id)
  }

  lemma StepRefuses(c: Config, s: State, step: Step)
    requires Inv(c, s) && RefusedRightly(s) && Enabled(s, step)
    ensures RefusedRightly(Apply(c, s, step))
  {
    var s' := Apply(c, s, step);
    forall id | InPhase(s', id, Refused)
      ensures HasRival(s', id)
    {
      var other := Rival(c, s, step, id);
      StepContinues(c, s, step, id);
      StepContinues(c, s, step, other);
      assert other in s'.calls && Claimed(s'.calls[other].phase);
    }
  }

  lemma Rival(c: Config, s: State, step: Step, id: Id) returns (other: Id)
    requires Inv(c, s) && RefusedRightly(s) && Enabled(s, step) && InPhase(Apply(c, s, step), id, Refused)
    ensures id in s.calls && other in s.calls && other != id && s.calls[other].target == s.calls[id].target
    ensures Claimed(s.calls[other].phase)
  {
    if InPhase(s, id, Refused) {
      other :| other in s.calls && other != id && s.calls[other].target == s.calls[id].target &&
               Claimed(s.calls[other].phase);
    } else {
      OnlyRenameRefuses(c, s, step, id);
      var t := s.calls[id].target;
      assert CallOk(c, s, id, s.calls[id]) && HolderOk(s.calls, t, s.targets[t]);
      other := s.targets[t].replyTo;
    }
  }

  lemma OnlyRenameRefuses(c: Config, s: State, step: Step, id: Id)
    requires Enabled(s, step) && InPhase(Apply(c, s, step), id, Refused) && !InPhase(s, id, Refused)
    ensures step == Rename(id) && id in s.calls && (id !in s.requests || s.calls[id].target in s.targets)
  {
    if id in s.calls && step.Reply? {
      ReplyContinues(c, s, step.h, id);
    }
  }

  lemma {:induction false} RunRefuses(c: Config, s: State, steps: seq<Step>, s': State)
    requires Inv(c, s) && RefusedRightly(s) && Leads(c, s, steps, s')
    ensures RefusedRightly(s')
    decreases steps
  {
    if steps != [] {
      StepKeepsInv(c, s, steps[0]);
      StepRefuses(c, s, steps[0]);
      RunRefuses(c, Apply(c, s, steps[0]), steps[1..], s');
    }
  }

  /** A call is refused only if another call has claimed the same target. */
  lemma RefusedHasRival(c: Config, s: State, id: Id)
    requires Reachable(c, s) && InPhase(s, id, Refused)
    ensures HasRival(s, id)
  {
    InitialInv(c);
    var steps :| Leads(c, IDLE, steps, s);
    RunRefuses(c, IDLE, steps, s);
  }

  /** RENAMENX: the call gets the target exactly if it is free, and is refused otherwise. */
  lemma RenameDecides(c: Config, s: State, id: Id)
    requires Reachable(c, s) && Enabled(s, Rename(id))
    ensures var s' := Apply(c, s, Rename(id));
            InPhase(s', id, if s.calls[id].target in s.targets then Refused else Waiting)
  {
    ReachableInv(c, s);
    assert CallOk(c, s, id, s.calls[id]);
  }

  /** When a handler is done its target is free again, which the backend is told, and nothing else has changed. */
  lemma ReleaseFrees(c: Config, s: State, h: nat)
    requires Reachable(c, s) && Enabled(s, Release(h))
    ensures var s', t := Apply(c, s, Release(h)), s.handlers[h].target;
            && t in s.targets && s'.targets == s.targets - {t} && h !in s'.handlers
            && s'.mailbox == s.mailbox + multiset{Deleted(t)}
            && s'.calls == s.calls && s'.requests == s.requests && s'.responses == s.responses
  {
    ReachableInv(c, s);
  }

  // ---------- The backend of this repository ----------

  const APC_RESET := "/redfish/v1/Chassis/APC/Actions/Chassis.Reset/Target"
  const WATCH_PREFIX := "/redfish/v1/Chassis/"
  const WATCH_SUFFIX := "/Actions/Chassis.Reset/Target"

  /** The subscription pattern: any one name between the prefix and the suffix. */
  predicate ResetWatched(t: Target) {
    && |WATCH_PREFIX| + |WATCH_SUFFIX| <= |t|
    && t[..|WATCH_PREFIX|] == WATCH_PREFIX
    && t[|t| - |WATCH_SUFFIX|..] == WATCH_SUFFIX
  }

  function ResetWork(t: Target, body: Body): string {
    if t == APC_RESET then "Success" else "Bad Key"
  }

  const RESET_BACKEND := Config(ResetWatched, ResetWork)

  /** The pattern covers exactly the reset targets of the chassis, whatever their names. */
  lemma ResetWatchedExactly(t: Target)
    ensures ResetWatched(t) <==> exists name :: t == WATCH_PREFIX + name + WATCH_SUFFIX
  {
    if ResetWatched(t) {
      var name := t[|WATCH_PREFIX|..|t| - |WATCH_SUFFIX|];
      assert t == t[..|WATCH_PREFIX|] + name + t[|t| - |WATCH_SUFFIX|..];
    }
    if name :| t == WATCH_PREFIX + name + WATCH_SUFFIX {
      assert t[..|WATCH_PREFIX|] == WATCH_PREFIX && t[|t| - |WATCH_SUFFIX|..] == WATCH_SUFFIX;
    }
  }

  lemma ApcIsWatched()
    ensures ResetWatched(APC_RESET)
  {
    assert |WATCH_PREFIX| == 20 && |WATCH_SUFFIX| == 29 && |APC_RESET| == 52;
    assert APC_RESET[..20] == WATCH_PREFIX;
    assert APC_RESET[23..] == WATCH_SUFFIX;
  }

  /** A reset of the APC chassis that is not refused, lost or timed out is reported as done. */
  lemma ApcResetSucceeds(steps: seq<Step>, s: State, id: Id)
    requires Leads(RESET_BACKEND, IDLE, steps, s) && Undisturbed(steps, id) && Settled(s)
    requires id in s.calls && s.calls[id].target == APC_RESET && !s.calls[id].phase.Refused?
    ensures s.calls[id].phase == Returned(Some("Success"))
  {
    ApcIsWatched();
    CallReturns(RESET_BACKEND, steps, s, id);
  }

  /** A call that is alone is not refused: there is a run of it that ends with the answer to it. */
  lemma OneCallReturns(c: Config, id: Id, t: Target, body: Body) returns (steps: seq<Step>, s: State)
    requires c.watched(t)
    ensures Leads(c, IDLE, steps, s) && InPhase(s, id, Returned(Some(c.work(t, body))))
  {
    var first := Begin(id, t, body);
    var s1 := Apply(c, IDLE, first);
    InitialInv(c);
    StepKeepsInv(c, IDLE, first);
    var rest;
    rest, s := CanSettle(c, s1);
    steps := [first] + rest;
    assert steps[0] == first && steps[1..] == rest;
    NoNewCalls(c, s1, rest, s);
    NotRefused(c, steps, s, id);
    CallReturns(c, steps, s, id);
  }

  lemma NotRefused(c: Config, steps: seq<Step>, s: State, id: Id)
    requires Leads(c, IDLE, steps, s) && s.calls.Keys == {id}
    ensures !InPhase(s, id, Refused)
  {
    assert Reachable(c, s);
    if InPhase(s, id, Refused) {
      RefusedHasRival(c, s, id);
    }
  }

  /** And there is such a run: a single reset of the APC chassis, alone, ends with its success. */
  lemma ApcResetAlone(id: Id, body: Body) returns (steps: seq<Step>, s: State)
    ensures Leads(RESET_BACKEND, IDLE, steps, s) && InPhase(s, id, Returned(Some("Success")))
  {
    ApcIsWatched();
    steps, s := OneCallReturns(RESET_BACKEND, id, APC_RESET, body);
  }

  lemma SameCalls(c: Config, s: State, step: Step)
    requires Enabled(s, step) && !step.Begin?
    ensures Apply(c, s, step).calls.Keys == s.calls.Keys
  {
    if id :| id in s.calls {
      StepContinues(c, s, step, id);
    }
    match step
    case Reply(h) =>
    case _ =>
  }

  /** Without new calls the calls stay those that they are, with their targets and requests. */
  lemma {:induction false} NoNewCalls(c: Config, s: State, steps: seq<Step>, s': State)
    requires Inv(c, s) && Leads(c, s, steps, s') && forall i :: 0 <= i < |steps| ==> !steps[i].Begin?
    ensures s'.calls.Keys == s.calls.Keys
    ensures forall id :: id in s.calls ==>
              s'.calls[id].target == s.calls[id].target && s'.calls[id].body == s.calls[id].body
    decreases steps
  {
    if steps != [] {
      StepKeepsInv(c, s, steps[0]);
      forall id | id in s.calls
        ensures var s1 := Apply(c, s, steps[0]);
                s1.calls.Keys == s.calls.Keys && Continues(s.calls[id], s1.calls[id])
      {
        StepContinues(c, s, steps[0], id);
      }
      SameCalls(c, s, steps[0]);
      NoNewCalls(c, Apply(c, s, steps[0]), steps[1..], s');
    }
  }

  /** Nothing but the APC chassis is ever reported as reset. */
  lemma SuccessOnlyForApc(s: State, id: Id)
    requires Reachable(RESET_BACKEND, s) && id in s.calls && s.calls[id].phase.Returned?
    ensures s.calls[id].phase.reply == Some("Success") <==> s.calls[id].target == APC_RESET
  {
    ReturnsOwnAnswer(RESET_BACKEND, s, id);
  }
}
