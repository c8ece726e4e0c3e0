/** Account lockout: failed logins, the periodic update, and a clock that both read twice. */
module Lockout {
  import opened Basics
  import opened Text
  import opened Redis
  import opened Schema
  import opened Patch
  import opened Insert
  import opened Dispatcher

  /** Durations in the unit of the clock. */
  datatype Settings = Settings(threshold: nat, duration: nat, resetAfter: nat)

  predicate Enabled(c: Settings) {
    c.threshold != 0 && c.duration != 0
  }

  datatype State = State(locked: bool, attempts: nat, lastFailed: int, lockStart: int)

  /** `first` and `second` are the two readings of the clock. */
  datatype Event = Login(good: bool, first: int, second: int) | Tick(first: int, second: int)

  function Next(c: Settings, s: State, e: Event): State {
    match e
    case Login(good, first, second) =>
      if s.locked || good || !Enabled(c) then s
      else if c.threshold < s.attempts + 1 then State(true, s.attempts + 1, first, second)
      else State(false, s.attempts + 1, first, s.lockStart)
    case Tick(first, second) =>
      var attempts := if s.attempts != 0 && c.resetAfter < first - s.lastFailed then 0 else s.attempts;
      s.(attempts := attempts, locked := s.locked && second - s.lockStart <= c.duration)
  }

  // ---------- The account ----------

  const LOCKED := "Locked"

  class ManagerAccount {
    const key: Key
    const d: Dispatcher
    var locked: bool
    var attempts: nat
    var lastFailed: int
    var lockStart: int

    constructor (key: Key, d: Dispatcher, locked: bool)
      ensures this.key == key && this.d == d && this.locked == locked && attempts == 0
    {
      this.key, this.d, this.locked := key, d, locked;
      attempts, lastFailed, lockStart := 0, 0, 0;
    }

    function Abs(): State
      reads this
    {
      State(locked, attempts, lastFailed, lockStart)
    }

    /** The stored property says what the account says. */
    ghost predicate Stored()
      reads this, d
    {
      SMembers(d.db, key).Some? && Get(d.db, Child(key, LOCKED)) == Some(FormatBool(locked))
    }

    method SetLockOut(value: bool) returns (out: Outcome)
      requires Stored()
      modifies this`locked, d
      ensures locked == value && Stored() && !out.Panicked?
      ensures forall k :: k != key && k != Child(key, LOCKED) ==> Lookup(d.db, k) == Lookup(old(d.db), k)
    {
      locked := value;
      ghost var before := d.db;
      LockPatch(before, key, LOCKED, FormatBool(value));
      out := d.RedisPatch(IObj(map[LOCKED := IStr(FormatBool(value))]), key);
      LockPatched(before, d.db, key, LOCKED, FormatBool(value));
    }

    method FailedLogin(c: Settings, first: int, second: int) returns (out: Outcome)
      requires Stored() && !locked
      modifies this, d
      ensures Abs() == Next(c, old(Abs()), Login(false, first, second)) && Stored() && !out.Panicked?
    {
      out := Done;
      if !Enabled(c) {
        return;
      }
      attempts := attempts + 1;
      lastFailed := first;
      if c.threshold < attempts {
        lockStart := second;
        out := SetLockOut(true);
      }
    }

    /** Whether the login succeeds. */
    method Authenticate(c: Settings, good: bool, first: int, second: int) returns (ok: bool)
      requires Stored()
      modifies this, d
      ensures Abs() == Next(c, old(Abs()), Login(good, first, second)) && Stored()
      ensures ok <==> good && !old(locked)
    {
      if locked {
        return false;
      }
      if !good {
        var out := FailedLogin(c, first, second);
        return false;
      }
      return true;
    }

    method UpdatePeriodic(c: Settings, first: int, second: int)
      requires Stored()
      modifies this, d
      ensures Abs() == Next(c, old(Abs()), Tick(first, second)) && Stored()
    {
      if attempts != 0 {
        if c.resetAfter < first - lastFailed {
          attempts := 0;
        }
      }
      if locked {
        if c.duration < second - lockStart {
          var out := SetLockOut(false);
        }
      }
    }

    method Handle(c: Settings, e: Event)
      requires Stored()
      modifies this, d
      ensures Abs() == Next(c, old(Abs()), e) && Stored()
    {
      match e {
        case Login(good, first, second) => var ok := Authenticate(c, good, first, second);
        case Tick(first, second) => UpdatePeriodic(c, first, second);
      }
    }

    /** Every run of logins and ticks keeps the stored property equal to the account's. */
    method Run(c: Settings, events: seq<Event>)
      requires Stored()
      modifies this, d
      ensures Abs() == After(c, old(Abs()), events) && Stored()
    {
      for i := 0 to |events|
        invariant Abs() == After(c, old(Abs()), events[..i]) && Stored()
      {
        Handle(c, events[i]);
        assert events[..i + 1][..i] == events[..i];
      }
      assert events[..|events|] == events;
    }
  }

  lemma LockPatch(db: Store, key: Key, name: string, text: string)
    requires SMembers(db, key).Some?
    ensures PatchSafe(db, IObj(map[name := IStr(text)]), key)
  {
  }

  lemma LockPatched(db: Store, db': Store, key: Key, name: string, text: string)
    requires Patched(db, db', IObj(map[name := IStr(text)]), key) && SMembers(db, key).Some?
    ensures SMembers(db', key).Some? && Get(db', Child(key, name)) == Some(text)
    ensures forall k :: k != key && k != Child(key, name) ==> Lookup(db', k) == Lookup(db, k)
  {
    var v, child := IObj(map[name := IStr(text)]), Child(key, name);
    assert Under(key, key) && child[..|key|] == key && Under(key, child) && child[|key|] == name;
    assert Lookup(db', key) == PatchAt(db, v, key, |key|);
    assert Lookup(db', child) == PatchAt(db, v, child, |key|) == PatchAt(db, IStr(text), child, |key| + 1);
    forall k
      ensures k == key || k == child || Lookup(db', k) == Lookup(db, k)
    {
      if Under(key, k) && |k| > |key| && k[|key|] == name {
        assert PatchAt(db, v, k, |key|) == PatchAt(db, IStr(text), k, |key| + 1);
        assert |k| == |key| + 1 ==> k == k[..|key|] + [k[|key|]];
      }
    }
  }

  // ---------- Runs ----------

  ghost function After(c: Settings, s: State, events: seq<Event>): State {
    if events == [] then s else Next(c, After(c, s, events[..|events| - 1]), events[|events| - 1])
  }

  /** The state before event `n` of a run. */
  ghost function At(c: Settings, s: State, events: seq<Event>, n: nat): State
    requires n <= |events|
  {
    After(c, s, events[..n])
  }

  lemma Step(c: Settings, s: State, events: seq<Event>, n: nat)
    requires n < |events|
    ensures At(c, s, events, n + 1) == Next(c, At(c, s, events, n), events[n])
  {
    assert events[..n + 1][..n] == events[..n];
  }

  /** The account starts unlocked and with no failure. */
  ghost predicate Start(s: State) {
    !s.locked && s.attempts == 0
  }

  /** A wrong password for an account that is not locked. */
  ghost predicate Failure(c: Settings, s: State, events: seq<Event>, i: nat)
    requires i < |events|
  {
    events[i].Login? && !events[i].good && !At(c, s, events, i).locked
  }

  ghost function Failures(c: Settings, s: State, events: seq<Event>, z: nat, n: nat): nat
    requires z <= n <= |events|
    decreases n
  {
    if z == n then 0 else Failures(c, s, events, z, n - 1) + if Failure(c, s, events, n - 1) then 1 else 0
  }

  /** `z` is the last moment up to `n` at which the counter was zero. */
  ghost predicate LastZero(c: Settings, s: State, events: seq<Event>, z: nat, n: nat) {
    && z <= n <= |events| && At(c, s, events, z).attempts == 0
    && forall k :: z < k <= n ==> At(c, s, events, k).attempts != 0
  }

  /** The counter is the number of failures since it was last zero. */
  lemma {:induction false} CounterCounts(c: Settings, s: State, events: seq<Event>, n: nat) returns (z: nat)
    requires Start(s) && n <= |events| && Enabled(c)
    ensures LastZero(c, s, events, z, n) && At(c, s, events, n).attempts == Failures(c, s, events, z, n)
  {
    if At(c, s, events, n).attempts == 0 {
      z := n;
    } else {
      assert events[..0] == [];
      z := CounterCounts(c, s, events, n - 1);
      Step(c, s, events, n - 1);
    }
  }

  /** An account locks at event `n` exactly when that is a failure and the failures since the
      counter was last zero are then more than the threshold. */
  lemma LocksExactlyBeyond(c: Settings, s: State, events: seq<Event>, n: nat)
    requires Start(s) && n < |events| && c.threshold != 0 && c.duration != 0 && !At(c, s, events, n).locked
    ensures At(c, s, events, n + 1).locked <==>
              && Failure(c, s, events, n)
              && exists z: nat :: LastZero(c, s, events, z, n) && Failures(c, s, events, z, n + 1) > c.threshold
  {
    Step(c, s, events, n);
    var z := CounterCounts(c, s, events, n);
    assert Failures(c, s, events, z, n + 1) == Failures(c, s, events, z, n) + if Failure(c, s, events, n) then 1 else 0;
    forall z': nat | LastZero(c, s, events, z', n)
      ensures z' == z
    {
    }
  }

  /** `k` is the latest failure before event `n`. */
  ghost predicate LastFailure(c: Settings, s: State, events: seq<Event>, k: nat, n: nat) {
    && k < n <= |events| && Failure(c, s, events, k)
    && forall i :: k < i < n ==> !Failure(c, s, events, i)
  }

  lemma {:induction false} LastFailedIs(c: Settings, s: State, events: seq<Event>, n: nat) returns (k: nat)
    requires Start(s) && n <= |events| && Enabled(c) && At(c, s, events, n).attempts != 0
    ensures LastFailure(c, s, events, k, n) && At(c, s, events, n).lastFailed == events[k].first
  {
    assert events[..0] == [];
    Step(c, s, events, n - 1);
    if Failure(c, s, events, n - 1) {
      k := n - 1;
    } else {
      k := LastFailedIs(c, s, events, n - 1);
    }
  }

  /** A tick leaves the counter zero if and only if it was zero, or the tick reads more than the reset time since
      the latest failure; no other event that is no failure changes it. */
  lemma ResetsExactly(c: Settings, s: State, events: seq<Event>, n: nat)
    requires Start(s) && n < |events| && Enabled(c)
    ensures events[n].Tick? ==>
              (At(c, s, events, n + 1).attempts == 0 <==>
                 At(c, s, events, n).attempts == 0 ||
                 exists k: nat :: LastFailure(c, s, events, k, n) && events[n].first - events[k].first > c.resetAfter)
    ensures !events[n].Tick? && !Failure(c, s, events, n) ==>
              At(c, s, events, n + 1).attempts == At(c, s, events, n).attempts
  {
    Step(c, s, events, n);
    if At(c, s, events, n).attempts != 0 {
      var k := LastFailedIs(c, s, events, n);
      forall k': nat | LastFailure(c, s, events, k', n)
        ensures k' == k
      {
      }
    }
  }

  /** With lockouts disabled nothing ever changes. */
  lemma {:induction false} DisabledNeverLocks(c: Settings, s: State, events: seq<Event>)
    requires Start(s) && (c.threshold == 0 || c.duration == 0)
    ensures After(c, s, events) == s
  {
    if events != [] {
      DisabledNeverLocks(c, s, events[..|events| - 1]);
    }
  }

  /** The account locked at event `m` and has been locked ever since. */
  ghost predicate LockedSince(c: Settings, s: State, events: seq<Event>, m: nat, n: nat) {
    && m < n <= |events| && !At(c, s, events, m).locked
    && forall k :: m < k <= n ==> At(c, s, events, k).locked
  }

  lemma {:induction false} LockStartIsLockTime(c: Settings, s: State, events: seq<Event>, n: nat) returns (m: nat)
    requires Start(s) && n <= |events| && At(c, s, events, n).locked
    ensures LockedSince(c, s, events, m, n) && events[m].Login?
    ensures At(c, s, events, n).lockStart == events[m].second && At(c, s, events, n).lastFailed == events[m].first
  {
    assert events[..0] == [];
    Step(c, s, events, n - 1);
    if At(c, s, events, n - 1).locked {
      m := LockStartIsLockTime(c, s, events, n - 1);
    } else {
      m := n - 1;
    }
  }

  /** A locked account unlocks exactly at a tick more than the duration after the lock. */
  lemma UnlocksExactlyLate(c: Settings, s: State, events: seq<Event>, n: nat)
    requires Start(s) && n < |events| && At(c, s, events, n).locked
    ensures !At(c, s, events, n + 1).locked <==>
              events[n].Tick? &&
              exists m: nat :: LockedSince(c, s, events, m, n) && events[n].second - events[m].second > c.duration
  {
    Step(c, s, events, n);
    var m := LockStartIsLockTime(c, s, events, n);
    forall m': nat | LockedSince(c, s, events, m', n)
      ensures m' == m
    {
    }
  }

  // ---------- The counter when the lock ends ----------

  /** A clock that never goes back, with at most `gap` between the readings of one event. */
  ghost predicate Clock(events: seq<Event>, gap: nat) {
    && (forall i :: 0 <= i < |events| ==> 0 <= events[i].second - events[i].first <= gap)
    && (forall i, j :: 0 <= i < j < |events| ==> events[i].second <= events[j].first)
  }

  /** Event `n` ends a lock. */
  ghost predicate Unlocks(c: Settings, s: State, events: seq<Event>, n: nat) {
    n < |events| && At(c, s, events, n).locked && !At(c, s, events, n + 1).locked
  }

  /** The counter is zero whenever a tick has ended a lock. */
  ghost predicate AlwaysClears(c: Settings, gap: nat) {
    forall s, events, n: nat :: Start(s) && Clock(events, gap) && Unlocks(c, s, events, n) ==>
      At(c, s, events, n + 1).attempts == 0
  }

  lemma Clears(c: Settings, gap: nat, s: State, events: seq<Event>, n: nat)
    requires c.resetAfter + gap <= c.duration
    requires Start(s) && Clock(events, gap) && Unlocks(c, s, events, n)
    ensures At(c, s, events, n + 1).attempts == 0
  {
    Step(c, s, events, n);
    var m := LockStartIsLockTime(c, s, events, n);
  }

  /** `n` failures at time 0. */
  ghost function Wrong(n: nat): seq<Event> {
    seq(n, i => Login(false, 0, 0))
  }

  lemma {:induction false} WrongCounts(c: Settings, s: State, n: nat)
    requires Start(s) && Enabled(c) && n <= c.threshold + 1
    ensures var t := After(c, s, Wrong(n));
            t.attempts == n && t.locked == (n > c.threshold) && (n > 0 ==> t.lastFailed == 0) &&
            (t.locked ==> t.lockStart == 0)
  {
    if n > 0 {
      assert Wrong(n)[..n - 1] == Wrong(n - 1);
      WrongCounts(c, s, n - 1);
    }
  }

  /** A run that ends a lock and keeps the counter. */
  lemma KeepsCounter(c: Settings, gap: nat)
    requires Enabled(c) && c.resetAfter + gap > c.duration
    ensures !AlwaysClears(c, gap)
  {
    var s := State(false, 0, 0, 0);
    var n := c.threshold + 1;
    var first := if gap <= c.duration + 1 then c.duration + 1 - gap else 0;
    var events := Wrong(n) + [Tick(first, c.duration + 1)];
    assert events[..n] == Wrong(n);
    WrongCounts(c, s, n);
    Step(c, s, events, n);
    assert Start(s) && Clock(events, gap) && Unlocks(c, s, events, n);
    assert At(c, s, events, n + 1).attempts != 0;
  }

  /** The exact condition: the readings of one tick must not be further apart than the
      duration exceeds the time after which the counter is reset. */
  lemma ClearsExactly(c: Settings, gap: nat)
    requires Enabled(c)
    ensures AlwaysClears(c, gap) <==> c.resetAfter + gap <= c.duration
  {
    if c.resetAfter + gap <= c.duration {
      forall s, events, n: nat | Start(s) && Clock(events, gap) && Unlocks(c, s, events, n)
        ensures At(c, s, events, n + 1).attempts == 0
      {
        Clears(c, gap, s, events, n);
      }
    } else {
      KeepsCounter(c, gap);
    }
  }
}
