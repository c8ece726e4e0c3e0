/** When the Google Cloud helper tells HSM about an instance. */
module Publication {
  import opened Basics

  // ---------- What may happen to an instance ----------

  /** A service was created; a readiness check or a message to HSM succeeded or failed; at the end of a
      pass, HSM was asked to remove the instances `gone`, and did so for those of `removed`. */
  datatype Event =
    | Created(x: string)
    | Checked(x: string, ok: bool)
    | Told(x: string, ok: bool)
    | Swept(gone: set<string>, removed: set<string>)

  /** Waiting for readiness after `n` failed checks, or ready after `n` failed messages. */
  datatype Phase = Idle | Waiting(n: nat) | Ready(n: nat)

  function Advance(phase: Phase, x: string, e: Event): Phase {
    if e.Swept? || e.x != x then phase
    else
      match (e, phase)
      case (Created(_), _) => Waiting(0)
      case (Checked(_, ok), Waiting(n)) => if ok then Ready(0) else Waiting(n + 1)
      case (Told(_, ok), Ready(n)) => if ok then Idle else Ready(n + 1)
      case _ => phase
  }

  function PhaseOf(log: seq<Event>, x: string): Phase {
    if log == [] then Idle else Advance(PhaseOf(log[..|log| - 1], x), x, log[|log| - 1])
  }

  /** Checks happen only while waiting, and HSM is told only when ready. */
  ghost predicate Legal(log: seq<Event>) {
    forall i :: 0 <= i < |log| ==>
      && (log[i].Checked? ==> PhaseOf(log[..i], log[i].x).Waiting?)
      && (log[i].Told? ==> PhaseOf(log[..i], log[i].x).Ready?)
  }

  lemma LegalMore(log: seq<Event>, e: Event)
    requires Legal(log)
    requires e.Checked? ==> PhaseOf(log, e.x).Waiting?
    requires e.Told? ==> PhaseOf(log, e.x).Ready?
    ensures Legal(log + [e]) &&
            forall x {:trigger PhaseOf(log + [e], x)} :: PhaseOf(log + [e], x) == Advance(PhaseOf(log, x), x, e)
  {
    var log' := log + [e];
    assert log'[..|log|] == log;
    forall i | 0 <= i < |log'|
      ensures log'[i].Checked? ==> PhaseOf(log'[..i], log'[i].x).Waiting?
      ensures log'[i].Told? ==> PhaseOf(log'[..i], log'[i].x).Ready?
    {
      if i < |log| {
        assert log'[..i] == log[..i];
      }
    }
  }

  /** `c` is the latest creation of `x` before `n`, and HSM has not heard of it since. */
  ghost predicate Untold(log: seq<Event>, x: string, c: nat, n: nat) {
    c < n <= |log| && log[c] == Created(x) && forall k :: c < k < n ==> log[k] != Created(x) && log[k] != Told(x, true)
  }

  /** What the phases mean in terms of the log. */
  lemma {:induction false} PhaseMeans(log: seq<Event>, x: string, n: nat) returns (c: nat, r: nat)
    requires n <= |log| && Legal(log)
    ensures PhaseOf(log[..n], x) != Idle ==> Untold(log, x, c, n)
    ensures PhaseOf(log[..n], x).Ready? ==> c < r < n && log[r] == Checked(x, true)
  {
    if n == 0 || PhaseOf(log[..n], x) == Idle {
      c, r := 0, 0;
    } else {
      assert log[..n][..n - 1] == log[..n - 1];
      c, r := PhaseMeans(log, x, n - 1);
      if log[n - 1] == Created(x) {
        c := n - 1;
      } else if log[n - 1] == Checked(x, true) {
        r := n - 1;
      }
    }
  }

  /** HSM is told of an instance only after a readiness check has succeeded since the latest
      creation of its service, and not again after it has been told once with success. */
  lemma ToldOnlyWhenReady(log: seq<Event>, n: nat) returns (c: nat, r: nat)
    requires Legal(log) && n < |log| && log[n].Told?
    ensures Untold(log, log[n].x, c, n) && c < r < n && log[r] == Checked(log[n].x, true)
  {
    c, r := PhaseMeans(log, log[n].x, n);
  }

  /** Between two successful messages about an instance its service was created again. */
  lemma ToldOncePerCreation(log: seq<Event>, m: nat, n: nat) returns (c: nat)
    requires Legal(log) && m < n < |log| && log[m].Told? && log[m].ok && log[n].Told? && log[n].x == log[m].x
    ensures m < c < n && log[c] == Created(log[n].x)
  {
    var r;
    c, r := ToldOnlyWhenReady(log, n);
    assert log[m] == Told(log[n].x, true);
  }

  // ---------- What a pass does ----------

  /** One instance of a listing, with what the outside world will answer about it: whether its
      service was just created, and whether set-up, readiness check and message succeed. */
  datatype Listed = Listed(xname: Option<string>, status: string, created: bool, setUp: bool, ready: bool, heard: bool)

  /** The listing ends early with an error, or is complete; HSM refuses to remove some instances. */
  datatype Listing = Listing(instances: seq<Listed>, complete: bool, refused: set<string>)

  ghost function Seen(instances: seq<Listed>): set<string> {
    set i | 0 <= i < |instances| && instances[i].xname.Some? :: instances[i].xname.value
  }

  /** What initialising an instance in `phase` leads to.  Set-up is repeated until the first
      readiness check, and once more before every message that follows a failed one. */
  ghost function Attempt(phase: Phase, x: string, w: Listed): seq<Event> {
    match phase
    case Idle => []
    case Waiting(n) =>
      if n == 0 && !w.setUp then []
      else if w.ready then [Checked(x, true), Told(x, w.heard)]
      else [Checked(x, false)]
    case Ready(_) => if w.setUp then [Told(x, w.heard)] else []
  }

  ghost function HandleOne(log: seq<Event>, w: Listed): seq<Event> {
    if w.xname.None? then log
    else
      var x := w.xname.value;
      var log' := if w.created then log + [Created(x)] else log;
      log' + Attempt(PhaseOf(log', x), x, w)
  }

  ghost function HandleAll(log: seq<Event>, instances: seq<Listed>): seq<Event> {
    if instances == [] then log else HandleOne(HandleAll(log, instances[..|instances| - 1]), instances[|instances| - 1])
  }

  ghost function KnownAfter(known: set<string>, listing: Listing): set<string> {
    if listing.complete then Seen(listing.instances) else known + Seen(listing.instances)
  }

  ghost function KnownRun(known: set<string>, listings: seq<Listing>): set<string> {
    if listings == [] then known else KnownAfter(KnownRun(known, listings[..|listings| - 1]), listings[|listings| - 1])
  }

  /** Those that the pass removes from HSM: known, not listed, and not refused. */
  ghost function Removed(known: set<string>, listing: Listing): set<string> {
    if listing.complete then known - Seen(listing.instances) - listing.refused else {}
  }

  ghost function HandlePass(log: seq<Event>, known: set<string>, listing: Listing): seq<Event> {
    HandleAll(log, listing.instances) +
    if listing.complete then [Swept(known - Seen(listing.instances), Removed(known, listing))] else []
  }

  ghost function HandleRun(log: seq<Event>, known: set<string>, listings: seq<Listing>): seq<Event> {
    if listings == [] then log
    else
      var before := listings[..|listings| - 1];
      HandlePass(HandleRun(log, known, before), KnownRun(known, before), listings[|listings| - 1])
  }

  // ---------- The helper ----------

  ghost predicate InPhase(phase: Phase, waits: Option<nat>, informs: Option<nat>) {
    match phase
    case Idle => waits.None? && informs.None?
    case Waiting(n) => waits == Some(n) && informs == Some(0)
    case Ready(n) => waits.None? && informs == Some(n)
  }

  function Entry(counts: map<string, nat>, x: string): Option<nat> {
    if x in counts then Some(counts[x]) else None
  }

  /** The two maps hold exactly the phase of every instance. */
  ghost predicate Tracks(log: seq<Event>, waits: map<string, nat>, informs: map<string, nat>) {
    Legal(log) && forall x {:trigger PhaseOf(log, x)} :: InPhase(PhaseOf(log, x), Entry(waits, x), Entry(informs, x))
  }

  lemma TracksCreated(log: seq<Event>, waits: map<string, nat>, informs: map<string, nat>, x: string)
    requires Tracks(log, waits, informs)
    ensures Tracks(log + [Created(x)], waits[x := 0], informs[x := 0])
  {
    LegalMore(log, Created(x));
  }

  lemma TracksChecked(log: seq<Event>, waits: map<string, nat>, informs: map<string, nat>, x: string, ok: bool)
    requires Tracks(log, waits, informs) && x in waits
    ensures Tracks(log + [Checked(x, ok)], if ok then waits - {x} else waits[x := waits[x] + 1], informs)
  {
    assert InPhase(PhaseOf(log, x), Entry(waits, x), Entry(informs, x));
    LegalMore(log, Checked(x, ok));
  }

  lemma TracksTold(log: seq<Event>, waits: map<string, nat>, informs: map<string, nat>, x: string, ok: bool)
    requires Tracks(log, waits, informs) && x !in waits && x in informs
    ensures Tracks(log + [Told(x, ok)], waits, if ok then informs - {x} else informs[x := informs[x] + 1])
  {
    assert InPhase(PhaseOf(log, x), Entry(waits, x), Entry(informs, x));
    LegalMore(log, Told(x, ok));
  }

  lemma WaitingIsToBeTold(log: seq<Event>, waits: map<string, nat>, informs: map<string, nat>)
    requires Tracks(log, waits, informs)
    ensures waits.Keys <= informs.Keys
  {
    forall x | x in waits
      ensures x in informs
    {
      assert InPhase(PhaseOf(log, x), Entry(waits, x), Entry(informs, x));
    }
  }

  class GCloudHelper {
    var waitReady: map<string, nat>
    var informHSM: map<string, nat>
    var known: map<string, string>
    ghost var log: seq<Event>

    constructor ()
      ensures Valid() && waitReady == map[] && informHSM == map[] && known == map[] && log == []
    {
      waitReady, informHSM, known, log := map[], map[], map[], [];
    }

    ghost predicate Valid()
      reads this
    {
      Tracks(log, waitReady, informHSM)
    }

    method CheckReadiness(x: string, ready: bool)
      requires Valid() && x in waitReady
      modifies this`waitReady, this`log
      ensures Valid() && log == old(log) + [Checked(x, ready)] && (x in waitReady <==> !ready)
    {
      TracksChecked(log, waitReady, informHSM, x, ready);
      log := log + [Checked(x, ready)];
      if ready {
        waitReady := waitReady - {x};
      } else {
        waitReady := waitReady[x := waitReady[x] + 1];
      }
    }

    method InformHSM(x: string, heard: bool)
      requires Valid() && x !in waitReady && x in informHSM
      modifies this`informHSM, this`log
      ensures Valid() && log == old(log) + [Told(x, heard)]
    {
      TracksTold(log, waitReady, informHSM, x, heard);
      log := log + [Told(x, heard)];
      if heard {
        informHSM := informHSM - {x};
      } else {
        informHSM := informHSM[x := informHSM[x] + 1];
      }
    }

    method InitInstance(x: string, w: Listed)
      requires Valid()
      modifies this`waitReady, this`informHSM, this`log
      ensures Valid() && log == old(log) + Attempt(PhaseOf(old(log), x), x, w)
    {
      assert InPhase(PhaseOf(log, x), Entry(waitReady, x), Entry(informHSM, x));
      var found := x in waitReady;
      if (!found || waitReady[x] == 0) && !w.setUp {
        return;
      }
      if found {
        CheckReadiness(x, w.ready);
        if !w.ready {
          return;
        }
      }
      if x in informHSM {
        InformHSM(x, w.heard);
      }
    }

    method UpdateKnownInstance(x: string, w: Listed)
      requires Valid()
      modifies this
      ensures Valid() && log == old(log) + Attempt(PhaseOf(old(log), x), x, w)
      ensures known == old(known)[x := w.status]
    {
      assert InPhase(PhaseOf(log, x), Entry(waitReady, x), Entry(informHSM, x));
      if x !in known || x in waitReady || x in informHSM {
        InitInstance(x, w);
      }
      known := known[x := w.status];
    }

    method AddService(x: string)
      requires Valid()
      modifies this`waitReady, this`informHSM, this`log
      ensures Valid() && log == old(log) + [Created(x)]
    {
      TracksCreated(log, waitReady, informHSM, x);
      log := log + [Created(x)];
      waitReady := waitReady[x := 0];
      informHSM := informHSM[x := 0];
    }

    /** One pass over the listing.  When it is complete, exactly the listed instances are known, and
        HSM has been asked to remove those that were known and are not listed. */
    method RunPeriodic(listing: Listing) returns (ok: bool)
      requires Valid()
      modifies this
      ensures Valid() && log == HandlePass(old(log), old(known.Keys), listing)
      ensures ok == listing.complete && known.Keys == KnownAfter(old(known.Keys), listing)
    {
      var seen := {};
      for i := 0 to |listing.instances|
        invariant Valid() && log == HandleAll(old(log), listing.instances[..i])
        invariant seen == Seen(listing.instances[..i]) && known.Keys == old(known.Keys) + seen
      {
        var w := listing.instances[i];
        SeenMore(listing.instances, i);
        assert listing.instances[..i + 1][..i] == listing.instances[..i];
        if w.xname.Some? {
          var x := w.xname.value;
          if w.created {
            AddService(x);
          }
          seen := seen + {x};
          UpdateKnownInstance(x, w);
        }
      }
      assert listing.instances[..|listing.instances|] == listing.instances;
      if !listing.complete {
        assert log + [] == log;
        return false;
      }
      assert old(known.Keys) + seen - seen == old(known.Keys) - seen;
      Forget(seen, listing.refused);
      return true;
    }

    /** Instances that have not been seen are forgotten, and HSM is asked to remove them. */
    method Forget(seen: set<string>, refused: set<string>)
      requires Valid() && seen <= known.Keys
      modifies this`known, this`log
      ensures Valid() && known.Keys == seen
      ensures log == old(log) + [Swept(old(known.Keys) - seen, old(known.Keys) - seen - refused)]
    {
      var todo := known.Keys;
      while todo != {}
        invariant todo <= known.Keys && seen <= known.Keys && known.Keys <= old(known.Keys)
        invariant forall x :: x in known && x !in todo ==> x in seen
        invariant log == old(log)
        decreases |todo|
      {
        var x :| x in todo;
        todo := todo - {x};
        if x !in seen {
          known := known - {x};
        }
      }
      var gone := old(known.Keys) - seen;
      LegalMore(log, Swept(gone, gone - refused));
      log := log + [Swept(gone, gone - refused)];
    }

    /** Any number of passes, whatever the outside world does: what happens is legal. */
    method Run(listings: seq<Listing>)
      requires Valid()
      modifies this
      ensures Valid() && Legal(log) && log == HandleRun(old(log), old(known.Keys), listings)
      ensures known.Keys == KnownRun(old(known.Keys), listings)
      ensures waitReady.Keys <= informHSM.Keys
      ensures listings != [] && listings[|listings| - 1].complete ==>
                known.Keys == Seen(listings[|listings| - 1].instances)
    {
      for i := 0 to |listings|
        invariant Valid() && log == HandleRun(old(log), old(known.Keys), listings[..i])
        invariant known.Keys == KnownRun(old(known.Keys), listings[..i])
      {
        var ok := RunPeriodic(listings[i]);
        assert listings[..i + 1][..i] == listings[..i];
      }
      assert listings[..|listings|] == listings;
      WaitingIsToBeTold(log, waitReady, informHSM);
    }
  }

  lemma SeenMore(instances: seq<Listed>, i: nat)
    requires i < |instances|
    ensures Seen(instances[..i + 1]) ==
            Seen(instances[..i]) + if instances[i].xname.Some? then {instances[i].xname.value} else {}
  {
    var all, before := instances[..i + 1], instances[..i];
    forall x | x in Seen(all)
      ensures x in Seen(before) || instances[i].xname == Some(x)
    {
      var j :| 0 <= j < |all| && all[j].xname.Some? && all[j].xname.value == x;
      if j < i {
        assert before[j] == all[j];
      }
    }
    forall x | x in Seen(before)
      ensures x in Seen(all)
    {
      var j :| 0 <= j < |before| && before[j].xname.Some? && before[j].xname.value == x;
      assert all[j] == before[j];
    }
    assert all[i] == instances[i];
  }

  // ---------- What HSM holds ----------

  /** HSM was told of the instance with success and has not removed it since. */
  function InHSM(log: seq<Event>, x: string): bool {
    log != [] &&
    var last, before := log[|log| - 1], log[..|log| - 1];
    if last == Told(x, true) then true
    else if last.Swept? && x in last.removed then false
    else InHSM(before, x)
  }

  lemma InHSMMore(log: seq<Event>, e: Event, x: string)
    ensures InHSM(log + [e], x) <==> e == Told(x, true) || (InHSM(log, x) && !(e.Swept? && x in e.removed))
  {
    assert (log + [e])[..|log|] == log;
  }

  lemma PhaseMore(log: seq<Event>, e: Event, x: string)
    ensures PhaseOf(log + [e], x) == Advance(PhaseOf(log, x), x, e)
  {
    assert (log + [e])[..|log|] == log;
  }

  /** No listing finds the service of the instance newly created. */
  ghost predicate NotCreated(instances: seq<Listed>, x: string) {
    forall i :: 0 <= i < |instances| ==> !(instances[i].xname == Some(x) && instances[i].created)
  }

  /** Nothing happens to an idle instance whose service is not created again. */
  lemma {:induction false} IdleStays(log: seq<Event>, instances: seq<Listed>, x: string)
    requires PhaseOf(log, x).Idle? && NotCreated(instances, x)
    ensures PhaseOf(HandleAll(log, instances), x).Idle? && InHSM(HandleAll(log, instances), x) == InHSM(log, x)
    decreases |instances|
  {
    if instances != [] {
      var n := |instances| - 1;
      IdleStays(log, instances[..n], x);
      IdleStaysOne(HandleAll(log, instances[..n]), instances[n], x);
    }
  }

  lemma IdleStaysOne(log: seq<Event>, w: Listed, x: string)
    requires PhaseOf(log, x).Idle? && !(w.xname == Some(x) && w.created)
    ensures PhaseOf(HandleOne(log, w), x).Idle? && InHSM(HandleOne(log, w), x) == InHSM(log, x)
  {
    if w.xname.Some? {
      var y := w.xname.value;
      var log' := if w.created then log + [Created(y)] else log;
      if w.created {
        PhaseMore(log, Created(y), x);
        InHSMMore(log, Created(y), x);
      }
      var events := Attempt(PhaseOf(log', y), y, w);
      if y == x {
        assert events == [] && log' + events == log;
      } else {
        OthersStay(log', events, x);
      }
    }
  }

  lemma {:induction false} OthersStay(log: seq<Event>, events: seq<Event>, x: string)
    requires forall i :: 0 <= i < |events| ==> !events[i].Swept? && events[i].x != x
    ensures PhaseOf(log + events, x) == PhaseOf(log, x) && InHSM(log + events, x) == InHSM(log, x)
    decreases |events|
  {
    if events == [] {
      assert log + events == log;
    } else {
      var n := |events| - 1;
      OthersStay(log, events[..n], x);
      assert log + events == (log + events[..n]) + [events[n]];
      PhaseMore(log + events[..n], events[n], x);
      InHSMMore(log + events[..n], events[n], x);
    }
  }

  /** A complete pass does not list the instance although it is known, and HSM does not refuse to remove it. */
  ghost predicate Misses(known: set<string>, listing: Listing, x: string) {
    listing.complete && x in known && x !in listing.refused &&
    forall i :: 0 <= i < |listing.instances| ==> listing.instances[i].xname != Some(x)
  }

  lemma MissesExactly(known: set<string>, listing: Listing, x: string)
    ensures x in Removed(known, listing) <==> Misses(known, listing, x)
  {
  }

  ghost predicate Vanishes(known: set<string>, listings: seq<Listing>, x: string) {
    exists i :: 0 <= i < |listings| && Misses(KnownRun(known, listings[..i]), listings[i], x)
  }

  lemma VanishesMore(known: set<string>, listings: seq<Listing>, x: string)
    requires listings != []
    ensures var n := |listings| - 1;
            Vanishes(known, listings, x) <==>
              Vanishes(known, listings[..n], x) || Misses(KnownRun(known, listings[..n]), listings[n], x)
  {
    var n := |listings| - 1;
    forall i | 0 <= i < n
      ensures listings[..n][..i] == listings[..i] && listings[..n][i] == listings[i]
    {
    }
    if Vanishes(known, listings[..n], x) {
      var i :| 0 <= i < n && Misses(KnownRun(known, listings[..n][..i]), listings[..n][i], x);
      assert Misses(KnownRun(known, listings[..i]), listings[i], x);
    }
  }

  /** An instance that has been told of, and whose service is not created again: after any run it is in HSM
      if and only if it was before and has not vanished from a complete pass that removed it.  Coming
      back does not help: it is known again, and never told of. */
  lemma {:induction false} InHSMExactly(log: seq<Event>, known: set<string>, listings: seq<Listing>, x: string)
    requires PhaseOf(log, x).Idle? && forall i :: 0 <= i < |listings| ==> NotCreated(listings[i].instances, x)
    ensures PhaseOf(HandleRun(log, known, listings), x).Idle?
    ensures InHSM(HandleRun(log, known, listings), x) <==> InHSM(log, x) && !Vanishes(known, listings, x)
    decreases |listings|
  {
    if listings != [] {
      var n := |listings| - 1;
      var before, all := HandleRun(log, known, listings[..n]), KnownRun(known, listings[..n]);
      InHSMExactly(log, known, listings[..n], x);
      VanishesMore(known, listings, x);
      IdleStays(before, listings[n].instances, x);
      var handled := HandleAll(before, listings[n].instances);
      if listings[n].complete {
        var sweep := Swept(all - Seen(listings[n].instances), Removed(all, listings[n]));
        PhaseMore(handled, sweep, x);
        InHSMMore(handled, sweep, x);
        MissesExactly(all, listings[n], x);
      } else {
        assert handled + [] == handled;
      }
    }
  }

  /** An instance in HSM that one complete pass misses and the next lists again: it is known, and not in HSM. */
  lemma ReturnsUnheld(log: seq<Event>, known: set<string>, missing: Listing, back: Listing, x: string)
    requires PhaseOf(log, x).Idle? && InHSM(log, x) && x in known
    requires missing.complete && x !in Seen(missing.instances) && x !in missing.refused
    requires back.complete && x in Seen(back.instances) && NotCreated(back.instances, x)
    ensures x in KnownRun(known, [missing, back]) && !InHSM(HandleRun(log, known, [missing, back]), x)
  {
    var listings := [missing, back];
    forall i | 0 <= i < |missing.instances|
      ensures missing.instances[i].xname != Some(x)
    {
    }
    assert listings[..0] == [] && listings[..1] == [missing];
    assert Misses(KnownRun(known, listings[..0]), listings[0], x);
    InHSMExactly(log, known, listings, x);
  }

  // ---------- Every instance is told of ----------

  /** The events that one listed instance adds, by its phase: a new service first of all; then, while
      waiting, a check, unless set-up is due and fails, and at once a message if the check succeeds; and
      a message again, after set-up, if the one before it failed. */
  lemma ListedOnce(log: seq<Event>, w: Listed, x: string)
    requires w.xname == Some(x)
    ensures var phase, all := if w.created then Waiting(0) else PhaseOf(log, x), HandleOne(log, w);
            var start := if w.created then log + [Created(x)] else log;
            && (phase.Idle? ==> all == start)
            && (phase.Waiting? && phase.n == 0 && !w.setUp ==> all == start)
            && (phase.Waiting? && (phase.n > 0 || w.setUp) && !w.ready ==> all == start + [Checked(x, false)])
            && (phase.Waiting? && (phase.n > 0 || w.setUp) && w.ready ==>
                  all == start + [Checked(x, true), Told(x, w.heard)])
            && (phase.Ready? && w.setUp ==> all == start + [Told(x, w.heard)])
            && (phase.Ready? && !w.setUp ==> all == start)
  {
    if w.created {
      PhaseMore(log, Created(x), x);
    }
  }

  /** An instance that HSM is still to be told of, or whose service is new: where set-up, check and message
      succeed, one listing is enough. */
  lemma ListedIsHeld(log: seq<Event>, w: Listed, x: string)
    requires w.xname == Some(x) && w.setUp && w.ready && w.heard && (w.created || !PhaseOf(log, x).Idle?)
    ensures PhaseOf(HandleOne(log, w), x).Idle? && InHSM(HandleOne(log, w), x)
  {
    var start := if w.created then log + [Created(x)] else log;
    var phase := if w.created then Waiting(0) else PhaseOf(log, x);
    ListedOnce(log, w, x);
    if w.created {
      PhaseMore(log, Created(x), x);
    }
    if phase.Waiting? {
      PhaseMore(start, Checked(x, true), x);
      assert start + [Checked(x, true), Told(x, true)] == (start + [Checked(x, true)]) + [Told(x, true)];
      PhaseMore(start + [Checked(x, true)], Told(x, true), x);
      InHSMMore(start + [Checked(x, true)], Told(x, true), x);
    } else {
      PhaseMore(start, Told(x, true), x);
      InHSMMore(start, Told(x, true), x);
    }
  }

  /** The same for a whole pass that lists the instance at place `i`, and its service as new at no later place. */
  lemma PassTells(log: seq<Event>, known: set<string>, listing: Listing, i: nat, x: string)
    requires i < |listing.instances| && listing.instances[i].xname == Some(x)
    requires var w := listing.instances[i];
             && w.setUp && w.ready && w.heard
             && (w.created || !PhaseOf(HandleAll(log, listing.instances[..i]), x).Idle?)
    requires NotCreated(listing.instances[i + 1..], x)
    ensures var all := HandlePass(log, known, listing);
            PhaseOf(all, x).Idle? && InHSM(all, x)
  {
    var before, rest := listing.instances[..i], listing.instances[i + 1..];
    var told := HandleAll(log, listing.instances[..i + 1]);
    assert listing.instances[..i + 1][..i] == before;
    ListedIsHeld(HandleAll(log, before), listing.instances[i], x);
    IdleStays(told, rest, x);
    HandleRest(log, listing.instances[..i + 1], rest);
    assert listing.instances[..i + 1] + rest == listing.instances;
    var handled := HandleAll(log, listing.instances);
    if listing.complete {
      var sweep := Swept(known - Seen(listing.instances), Removed(known, listing));
      assert x in Seen(listing.instances);
      PhaseMore(handled, sweep, x);
      InHSMMore(handled, sweep, x);
    } else {
      assert handled + [] == handled;
    }
  }

  lemma {:induction false} HandleRest(log: seq<Event>, first: seq<Listed>, rest: seq<Listed>)
    ensures HandleAll(log, first + rest) == HandleAll(HandleAll(log, first), rest)
    decreases |rest|
  {
    if rest == [] {
      assert first + rest == first;
    } else {
      var n := |rest| - 1;
      assert (first + rest)[..|first| + n] == first + rest[..n];
      HandleRest(log, first, rest[..n]);
    }
  }

  /** Every successful check is followed at once by a message about the instance. */
  ghost predicate Prompt(log: seq<Event>) {
    forall k :: 0 <= k < |log| && log[k].Checked? && log[k].ok ==>
      k + 1 < |log| && log[k + 1].Told? && log[k + 1].x == log[k].x
  }

  lemma PromptMore(log: seq<Event>, events: seq<Event>)
    requires Prompt(log) && Prompt(events)
    ensures Prompt(log + events)
  {
    var all := log + events;
    forall k | 0 <= k < |all| && all[k].Checked? && all[k].ok
      ensures k + 1 < |all| && all[k + 1].Told? && all[k + 1].x == all[k].x
    {
      if k >= |log| {
        assert all[k] == events[k - |log|];
      } else {
        assert all[k] == log[k] && all[k + 1] == log[k + 1];
      }
    }
  }

  lemma {:induction false} AllPrompt(log: seq<Event>, instances: seq<Listed>)
    requires Prompt(log)
    ensures Prompt(HandleAll(log, instances))
    decreases |instances|
  {
    if instances != [] {
      var n := |instances| - 1;
      var before, w := HandleAll(log, instances[..n]), instances[n];
      AllPrompt(log, instances[..n]);
      if w.xname.Some? {
        var x := w.xname.value;
        ListedOnce(before, w, x);
        PromptMore(before, [Created(x)]);
        var start := if w.created then before + [Created(x)] else before;
        PromptMore(start, [Checked(x, true), Told(x, w.heard)]);
        PromptMore(start, [Checked(x, false)]);
        PromptMore(start, [Told(x, w.heard)]);
      }
    }
  }

  /** In every run of passes. */
  lemma {:induction false} RunIsPrompt(log: seq<Event>, known: set<string>, listings: seq<Listing>)
    requires Prompt(log)
    ensures Prompt(HandleRun(log, known, listings))
    decreases |listings|
  {
    if listings != [] {
      var n := |listings| - 1;
      RunIsPrompt(log, known, listings[..n]);
      AllPrompt(HandleRun(log, known, listings[..n]), listings[n].instances);
      var handled := HandleAll(HandleRun(log, known, listings[..n]), listings[n].instances);
      PromptMore(handled, [Swept(KnownRun(known, listings[..n]) - Seen(listings[n].instances),
                                 Removed(KnownRun(known, listings[..n]), listings[n]))]);
      assert handled + [] == handled;
    }
  }

  /** Known after a run are those that no complete pass has missed since they were listed, or known before. */
  lemma {:induction false} KnownExactly(known: set<string>, listings: seq<Listing>, x: string)
    ensures x in KnownRun(known, listings) <==>
              || (x in known && NeverMissed(listings, 0, x))
              || (exists i :: 0 <= i < |listings| && x in Seen(listings[i].instances) && NeverMissed(listings, i, x))
    decreases |listings|
  {
    if listings != [] {
      var n := |listings| - 1;
      KnownExactly(known, listings[..n], x);
      forall i | 0 <= i <= n
        ensures NeverMissed(listings, i, x) <==>
                  (i < n ==> NeverMissed(listings[..n], i, x)) &&
                  (listings[n].complete ==> x in Seen(listings[n].instances))
      {
        if NeverMissed(listings, i, x) {
          assert forall j :: i <= j < n ==> listings[..n][j] == listings[j];
        }
        assert n == 0 ==> i == 0 && NeverMissed(listings[..n], 0, x);
      }
      if i :| 0 <= i < n && x in Seen(listings[..n][i].instances) && NeverMissed(listings[..n], i, x) {
        assert listings[..n][i] == listings[i];
      }
      if i :| 0 <= i < |listings| && x in Seen(listings[i].instances) && NeverMissed(listings, i, x) {
        assert i < n ==> listings[..n][i] == listings[i];
      }
    }
  }

  ghost predicate NeverMissed(listings: seq<Listing>, i: nat, x: string) {
    forall j :: i <= j < |listings| && listings[j].complete ==> x in Seen(listings[j].instances)
  }
}
