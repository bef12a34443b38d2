/** The failure trackers of `auth.rs` and `admin/session.rs`: one class at two
    policies. What they keep is pruned by age, capped and evicted; `full` is the
    list they would keep with no bound at all. */
module FailureTracker {
  import opened Text
  import opened Lockout
  import opened Timeline

  datatype AuthOutcome = Authorized(id: int) | Unauthorized | LockedOut

  /** `history.retain(|t| now - t <= window + duration)`. */
  function Recent(history: seq<int>, now: int, p: Policy): seq<int> {
    if history == [] then []
    else
      var last := history[|history| - 1];
      Recent(history[..|history| - 1], now, p)
      + if now - last <= p.window + p.duration then [last] else []
  }

  /** The last `cap` entries: `history.drain(0..excess)`. */
  function Capped(history: seq<int>, p: Policy): seq<int> {
    if |history| > p.cap then history[|history| - p.cap..] else history
  }

  /** Pruning an ordered history by age keeps its latest part. */
  lemma {:induction false} RecentIsSuffix(history: seq<int>, now: int, p: Policy)
    requires Sorted(history)
    ensures |Recent(history, now, p)| <= |history|
    ensures var k := |history| - |Recent(history, now, p)|;
              && Recent(history, now, p) == history[k..]
              && (k > 0 ==> now - history[k - 1] > p.window + p.duration)
  {
    if history != [] {
      var front, last := history[..|history| - 1], history[|history| - 1];
      if now - last <= p.window + p.duration {
        RecentIsSuffix(front, now, p);
        SuffixMore(history, |front| - |Recent(front, now, p)|);
      } else {
        AllOld(history, now, p);
      }
    }
  }

  /** And what is kept is all recent enough. */
  lemma {:induction false} RecentAreRecent(history: seq<int>, now: int, p: Policy)
    ensures forall t :: t in Recent(history, now, p) <==> t in history && now - t <= p.window + p.duration
  {
    if history != [] {
      var front, last := history[..|history| - 1], history[|history| - 1];
      RecentAreRecent(front, now, p);
      assert history == front + [last];
    }
  }

  lemma SuffixMore(history: seq<int>, k: nat)
    requires history != [] && k <= |history| - 1
    ensures history[..|history| - 1][k..] + [history[|history| - 1]] == history[k..]
  {
  }

  lemma {:induction false} AllOld(history: seq<int>, now: int, p: Policy)
    requires forall i :: 0 <= i < |history| ==> now - history[i] > p.window + p.duration
    ensures Recent(history, now, p) == []
  {
    if history != [] {
      AllOld(history[..|history| - 1], now, p);
    }
  }

  lemma KeepsPruned(kept: seq<int>, full: seq<int>, clock: int, now: int, p: Policy)
    requires Sorted(full) && Keeps(kept, full, clock, p) && clock <= now
    ensures Keeps(Recent(kept, now, p), full, now, p)
  {
    RecentIsSuffix(kept, now, p);
    var pruned := Recent(kept, now, p);
    var k, m := |full| - |kept|, |kept| - |pruned|;
    assert full[k..][m..] == full[k + m..];
    if m > 0 {
      assert kept[m - 1] == full[k + m - 1];
    }
  }

  lemma KeepsAppended(kept: seq<int>, full: seq<int>, clock: int, now: int, p: Policy)
    requires Keeps(kept, full, clock, p) && clock <= now
    ensures Keeps(kept + [now], full + [now], now, p)
  {
    var k := |full| - |kept|;
    assert full[k..] + [now] == (full + [now])[k..];
  }

  lemma KeepsCapped(kept: seq<int>, full: seq<int>, clock: int, p: Policy)
    requires Keeps(kept, full, clock, p)
    ensures Keeps(Capped(kept, p), full, clock, p)
  {
    if |kept| > p.cap {
      assert full[|full| - |kept|..][|kept| - p.cap..] == full[|full| - p.cap..];
    }
  }

  /** What `record_failure` leaves of a history. */
  function Pushed(kept: seq<int>, now: int, p: Policy): seq<int> {
    Capped(Recent(kept + [now], now, p), p)
  }

  /** What it leaves is never longer than the cap, ends with the new failure, and holds
      recent ones only. */
  lemma PushedIsRecent(kept: seq<int>, now: int, p: Policy)
    requires p.cap >= 1
    ensures var pushed := Pushed(kept, now, p);
              && 0 < |pushed| <= p.cap && pushed[|pushed| - 1] == now
              && forall i :: 0 <= i < |pushed| ==> now - pushed[i] <= p.window + p.duration
  {
    var recent, pushed := Recent(kept + [now], now, p), Pushed(kept, now, p);
    RecentAreRecent(kept + [now], now, p);
    assert recent == Recent(kept, now, p) + [now] by {
      assert (kept + [now])[..|kept|] == kept;
    }
    forall i | 0 <= i < |pushed|
      ensures now - pushed[i] <= p.window + p.duration
    {
      assert pushed[i] == recent[|recent| - |pushed| + i] && pushed[i] in recent;
    }
  }

  // All identifiers at once

  function At(histories: map<string, seq<int>>, identifier: string): seq<int> {
    if identifier in histories then histories[identifier] else []
  }

  ghost predicate Tracks(kept: seq<int>, full: seq<int>, clock: int, p: Policy) {
    && Sorted(full)
    && (forall i :: 0 <= i < |full| ==> full[i] <= clock)
    && Keeps(kept, full, clock, p)
  }

  ghost predicate AllTracked(failures: map<string, seq<int>>, full: map<string, seq<int>>, clock: int, p: Policy) {
    forall identifier :: Tracks(At(failures, identifier), At(full, identifier), clock, p)
  }

  function Evicted(failures: map<string, seq<int>>, now: int, p: Policy): map<string, seq<int>> {
    map identifier | identifier in failures && Recent(failures[identifier], now, p) != []
      :: Recent(failures[identifier], now, p)
  }

  /** Eviction lets go of exactly the identifiers whose latest failure is too old. */
  lemma EvictedKeys(failures: map<string, seq<int>>, identifier: string, now: int, p: Policy)
    requires identifier in failures && Sorted(failures[identifier]) && failures[identifier] != []
    ensures var latest := failures[identifier][|failures[identifier]| - 1];
              identifier in Evicted(failures, now, p) <==> now - latest <= p.window + p.duration
  {
    var history := failures[identifier];
    var recent := Recent(history, now, p);
    RecentIsSuffix(history, now, p);
    RecentAreRecent(history, now, p);
    assert recent != [] ==> recent[|recent| - 1] in recent;
  }

  lemma EvictedAt(failures: map<string, seq<int>>, identifier: string, now: int, p: Policy)
    ensures At(Evicted(failures, now, p), identifier) == Recent(At(failures, identifier), now, p)
  {
  }

  /** Eviction drops nothing that could still matter. */
  lemma EvictionTracks(failures: map<string, seq<int>>, full: map<string, seq<int>>, clock: int, now: int, p: Policy)
    requires AllTracked(failures, full, clock, p) && clock <= now
    ensures AllTracked(Evicted(failures, now, p), full, now, p)
  {
    forall identifier
      ensures Tracks(At(Evicted(failures, now, p), identifier), At(full, identifier), now, p)
    {
      var kept, all := At(failures, identifier), At(full, identifier);
      assert Tracks(kept, all, clock, p);
      EvictedAt(failures, identifier, now, p);
      KeepsPruned(kept, all, clock, now, p);
    }
  }

  lemma OrderedAppend(full: seq<int>, clock: int, now: int)
    requires Sorted(full) && (forall i :: 0 <= i < |full| ==> full[i] <= clock) && clock <= now
    ensures Sorted(full + [now])
    ensures forall i :: 0 <= i < |full + [now]| ==> (full + [now])[i] <= now
  {
  }

  lemma KeepsPushed(kept: seq<int>, full: seq<int>, clock: int, now: int, p: Policy)
    requires Sorted(full + [now]) && Keeps(kept, full, clock, p) && clock <= now
    ensures Keeps(Pushed(kept, now, p), full + [now], now, p)
  {
    KeepsAppended(kept, full, clock, now, p);
    KeepsPruned(kept + [now], full + [now], now, now, p);
    KeepsCapped(Recent(kept + [now], now, p), full + [now], now, p);
  }

  lemma PushTracks(kept: seq<int>, full: seq<int>, clock: int, now: int, p: Policy)
    requires Tracks(kept, full, clock, p) && clock <= now
    ensures Tracks(Pushed(kept, now, p), full + [now], now, p)
  {
    OrderedAppend(full, clock, now);
    KeepsPushed(kept, full, clock, now, p);
  }

  lemma TracksLater(kept: seq<int>, full: seq<int>, clock: int, now: int, p: Policy)
    requires Tracks(kept, full, clock, p) && clock <= now
    ensures Tracks(kept, full, now, p)
  {
  }

  lemma AtUpdated(histories: map<string, seq<int>>, identifier: string, history: seq<int>, other: string)
    ensures At(histories[identifier := history], other) == if other == identifier then history else At(histories, other)
  {
  }

  lemma RecordTracks(failures: map<string, seq<int>>, full: map<string, seq<int>>, identifier: string,
                     clock: int, now: int, p: Policy)
    requires AllTracked(failures, full, clock, p) && clock <= now
    ensures AllTracked(failures[identifier := Pushed(At(failures, identifier), now, p)],
                       full[identifier := At(full, identifier) + [now]], now, p)
  {
    var kept, all := Pushed(At(failures, identifier), now, p), At(full, identifier) + [now];
    assert Tracks(kept, all, now, p) by {
      assert Tracks(At(failures, identifier), At(full, identifier), clock, p);
      PushTracks(At(failures, identifier), At(full, identifier), clock, now, p);
    }
    var failures', full' := failures[identifier := kept], full[identifier := all];
    forall other
      ensures Tracks(At(failures', other), At(full', other), now, p)
    {
      AtUpdated(failures, identifier, kept, other);
      AtUpdated(full, identifier, all, other);
      if other != identifier {
        assert Tracks(At(failures, other), At(full, other), clock, p);
        TracksLater(At(failures, other), At(full, other), clock, now, p);
      }
    }
  }

  lemma RemovalTracks(failures: map<string, seq<int>>, full: map<string, seq<int>>, identifier: string,
                      clock: int, p: Policy)
    requires AllTracked(failures, full, clock, p)
    ensures AllTracked(failures - {identifier}, full - {identifier}, clock, p)
  {
    forall other
      ensures Tracks(At(failures - {identifier}, other), At(full - {identifier}, other), clock, p)
    {
      assert Tracks(At(failures, other), At(full, other), clock, p);
      if other == identifier {
        assert Tracks([], [], clock, p);
      }
    }
  }

  lemma FewerKeys<V>(small: map<string, V>, large: map<string, V>)
    requires small.Keys <= large.Keys
    ensures |small| <= |large|
  {
    FewerElements(small.Keys, large.Keys);
  }

  lemma {:induction false} FewerElements<K>(small: set<K>, large: set<K>)
    requires small <= large
    ensures |small| <= |large|
  {
    if small != {} {
      var x :| x in small;
      FewerElements(small - {x}, large - {x});
    }
  }

  /** Whether a failure of this identifier finds room at all. */
  predicate Accepts(failures: map<string, seq<int>>, identifier: string, now: int, p: Policy) {
    || identifier in failures
    || |failures| < p.maxEntries
    || |Evicted(failures, now, p)| < p.maxEntries
  }

  /** The unbounded record once a failure comes in. */
  function Recorded(full: map<string, seq<int>>, failures: map<string, seq<int>>, identifier: string, now: int,
                    p: Policy)
    : map<string, seq<int>>
  {
    if Accepts(failures, identifier, now, p) then full[identifier := At(full, identifier) + [now]] else full
  }

  ghost predicate AllDisciplined(full: map<string, seq<int>>, p: Policy) {
    forall identifier :: Disciplined(At(full, identifier), p)
  }

  lemma DisciplineKept(full: map<string, seq<int>>, identifier: string, now: int, p: Policy)
    requires AllDisciplined(full, p)
    ensures AllDisciplined(full - {identifier}, p)
    ensures !Locked(At(full, identifier), now, p) ==>
              AllDisciplined(full[identifier := At(full, identifier) + [now]], p)
  {
    forall other
      ensures Disciplined(At(full - {identifier}, other), p)
    {
      assert Disciplined(At(full, other), p);
    }
    if !Locked(At(full, identifier), now, p) {
      assert Disciplined(At(full, identifier), p);
      DisciplinedSnoc(At(full, identifier), now, p);
      var full' := full[identifier := At(full, identifier) + [now]];
      forall other
        ensures Disciplined(At(full', other), p)
      {
        assert Disciplined(At(full, other), p);
      }
    }
  }

  class Tracker {
    const policy: Policy
    var failures: map<string, seq<int>>
    /** Every failure accepted since the identifier's last success. */
    ghost var full: map<string, seq<int>>
    ghost var clock: int
    ghost const windows: nat

    ghost predicate Valid()
      reads this
    {
      && Roomy(policy, windows)
      && |failures| <= policy.maxEntries
      && AllTracked(failures, full, clock, policy)
    }

    constructor (policy: Policy, ghost windows: nat)
      requires Roomy(policy, windows)
      ensures Valid() && AllDisciplined(full, policy) && this.policy == policy && full == map[]
    {
      this.policy := policy;
      this.windows := windows;
      failures, full, clock := map[], map[], 0;
    }

    lemma Agrees(identifier: string, now: int)
      requires Valid() && now >= clock
      ensures Locked(At(failures, identifier), now, policy) <==> Locked(At(full, identifier), now, policy)
      ensures forall t :: Trip(At(failures, identifier), t, policy) ==> t <= clock
    {
      var kept, all := At(failures, identifier), At(full, identifier);
      assert Tracks(kept, all, clock, policy);
      BoundedAgrees(kept, all, clock, now, policy, windows);
    }

    /** `FailureTracker::is_locked`: the verdict on everything ever accepted. */
    method IsLocked(identifier: string, now: int) returns (locked: bool)
      requires Valid() && now >= clock
      ensures locked <==> Locked(At(full, identifier), now, policy)
    {
      Agrees(identifier, now);
      locked := false;
      if identifier in failures {
        locked := IsLockedOut(failures[identifier], now, policy);
      }
    }

    /** `AdminLoginTracker::is_locked`: the same verdict by the other test. */
    method IsAdminLocked(username: string, now: int) returns (locked: bool)
      requires Valid() && now >= clock
      ensures locked <==> Locked(At(full, username), now, policy)
    {
      Agrees(username, now);
      locked := false;
      if username in failures {
        locked := AdminLocked(failures[username], now, policy);
      }
    }

    /** `evict_stale`. */
    method EvictStale(now: int)
      requires Valid() && now >= clock
      modifies this`failures, this`clock
      ensures Valid() && clock == now && failures == Evicted(old(failures), now, policy)
    {
      EvictionTracks(failures, full, clock, now, policy);
      FewerKeys(Evicted(failures, now, policy), failures);
      failures := Evicted(failures, now, policy);
      clock := now;
    }

    /** The failure recorded, there being room for it. */
    method Admit(identifier: string, now: int)
      requires Valid() && now >= clock && (identifier in failures || |failures| < policy.maxEntries)
      modifies this
      ensures Valid() && clock == now && full == old(full)[identifier := At(old(full), identifier) + [now]]
    {
      RecordTracks(failures, full, identifier, clock, now, policy);
      full := full[identifier := At(full, identifier) + [now]];
      failures := failures[identifier := Pushed(At(failures, identifier), now, policy)];
      clock := now;
    }

    /** `record_failure`. */
    method RecordFailure(identifier: string, now: int)
      requires Valid() && now >= clock
      modifies this
      ensures Valid() && clock == now
      ensures full == Recorded(old(full), old(failures), identifier, now, policy)
    {
      if identifier !in failures && |failures| >= policy.maxEntries {
        EvictStale(now);
        if |failures| >= policy.maxEntries {
          return;
        }
      }
      Admit(identifier, now);
    }

    /** `record_success`. */
    method RecordSuccess(identifier: string)
      requires Valid()
      modifies this`failures, this`full
      ensures Valid() && full == old(full) - {identifier}
    {
      RemovalTracks(failures, full, identifier, clock, policy);
      FewerKeys(failures - {identifier}, failures);
      failures := failures - {identifier};
      full := full - {identifier};
    }

    /** `authenticate_identified`; `active` is what the key store answers. */
    method Authenticate(identifier: string, active: Option<int>, now: int) returns (outcome: AuthOutcome)
      requires Valid() && AllDisciplined(full, policy) && now >= clock
      modifies this
      ensures Valid() && AllDisciplined(full, policy) && |failures| <= policy.maxEntries
      ensures outcome == LockedOut <==> Locked(At(old(full), identifier), now, policy)
      ensures outcome != LockedOut ==>
                outcome == match active case Some(id) => Authorized(id) case None => Unauthorized
      ensures full == match outcome
                      case LockedOut => old(full)
                      case Authorized(_) => old(full) - {identifier}
                      case Unauthorized =>
                        Recorded(old(full), old(failures), identifier, now, policy)
    {
      var locked := IsLocked(identifier, now);
      if locked {
        return LockedOut;
      }
      DisciplineKept(full, identifier, now, policy);
      match active
      case Some(id) =>
        RecordSuccess(identifier);
        outcome := Authorized(id);
      case None =>
        RecordFailure(identifier, now);
        outcome := Unauthorized;
    }
  }
}
