/** When a list of failure times locks an identifier out, and why the bounded
    list the trackers keep gives the verdict of the unbounded one. Times are
    readings of a non-decreasing clock, in nanoseconds. */
module Lockout {
  import opened Text
  import opened Timeline

  /** `cap` failures kept an identifier, `maxEntries` identifiers kept in all. */
  datatype Policy = Policy(window: nat, duration: nat, threshold: nat, cap: nat, maxEntries: nat)

  const API_KEYS := Policy(60 * SECOND, 300 * SECOND, 5, 32, 50_000)
  const ADMIN_LOGIN := Policy(15 * 60 * SECOND, 15 * 60 * SECOND, 5, 32, 50_000)

  /** The lockout lasts `q` windows at most, and the cap leaves room for `q + 1`
      windows each one failure short of the threshold. */
  ghost predicate Roomy(p: Policy, q: nat) {
    && p.threshold >= 2 && p.maxEntries >= 1
    && p.duration <= q * p.window
    && p.cap >= (q + 1) * (p.threshold - 1)
  }

  lemma PoliciesAreRoomy()
    ensures Roomy(API_KEYS, 5)
    ensures Roomy(ADMIN_LOGIN, 1)
  {
  }

  // The verdict

  /** A failure at `t` that makes at least `threshold` in the window ending there. */
  ghost predicate Trip(failures: seq<int>, t: int, p: Policy) {
    t in failures && CountIn(failures, t - p.window, t) >= p.threshold
  }

  ghost predicate Locked(failures: seq<int>, now: int, p: Policy) {
    exists t :: Trip(failures, t, p) && now < t + p.duration
  }

  /** In an ordered list: the failure at `i` and its `threshold - 1` predecessors
      lie within one window. */
  ghost predicate TripsAt(s: seq<int>, i: int, p: Policy) {
    && p.threshold >= 1
    && p.threshold - 1 <= i < |s|
    && s[i] - s[i + 1 - p.threshold] <= p.window
  }

  /** The code's test: `threshold` of the first `i + 1` within a window of the last. */
  lemma TripCount(s: seq<int>, i: nat, p: Policy)
    requires Sorted(s) && i < |s| && p.threshold >= 1
    ensures CountIn(s[..i + 1], s[i] - p.window, s[i]) >= p.threshold <==> TripsAt(s, i, p)
  {
    CountSuffix(s[..i + 1], p.threshold, s[i] - p.window, s[i]);
  }

  lemma TripIndex(s: seq<int>, t: int, p: Policy) returns (i: nat)
    requires Sorted(s) && p.threshold >= 1 && Trip(s, t, p)
    ensures TripsAt(s, i, p) && s[i] == t
  {
    i := LastIndex(s, t);
    CountPrefix(s, i + 1, t - p.window, t);
    TripCount(s, i, p);
  }

  lemma TripValue(s: seq<int>, i: nat, p: Policy)
    requires Sorted(s) && TripsAt(s, i, p)
    ensures Trip(s, s[i], p)
  {
    TripCount(s, i, p);
    CountPrefix(s, i + 1, s[i] - p.window, s[i]);
  }

  lemma {:induction false} LastIndex(s: seq<int>, t: int) returns (i: nat)
    requires Sorted(s) && t in s
    ensures i < |s| && s[i] == t && forall j :: i < j < |s| ==> s[j] > t
  {
    if s[|s| - 1] == t {
      i := |s| - 1;
    } else {
      i := LastIndex(s[..|s| - 1], t);
    }
  }

  // Sorting, which leaves counts alone

  function Insert(x: int, s: seq<int>): seq<int> {
    if s == [] || s[|s| - 1] <= x then s + [x]
    else Insert(x, s[..|s| - 1]) + [s[|s| - 1]]
  }

  function Sort(s: seq<int>): seq<int> {
    if s == [] then [] else Insert(s[|s| - 1], Sort(s[..|s| - 1]))
  }

  lemma {:induction false} InsertSorted(x: int, s: seq<int>)
    requires Sorted(s)
    ensures Sorted(Insert(x, s))
    ensures forall y :: y in Insert(x, s) <==> y == x || y in s
  {
    if s != [] && s[|s| - 1] > x {
      var front := Insert(x, s[..|s| - 1]);
      InsertSorted(x, s[..|s| - 1]);
      assert s == s[..|s| - 1] + [s[|s| - 1]];
      forall i | 0 <= i < |front|
        ensures front[i] <= s[|s| - 1]
      {
        assert front[i] in front;
      }
    }
  }

  lemma {:induction false} InsertCount(x: int, s: seq<int>, lo: int, hi: int)
    ensures CountIn(Insert(x, s), lo, hi) == CountIn(s, lo, hi) + if lo <= x <= hi then 1 else 0
  {
    if s == [] || s[|s| - 1] <= x {
      assert (s + [x])[..|s|] == s;
    } else {
      InsertCount(x, s[..|s| - 1], lo, hi);
      var front := Insert(x, s[..|s| - 1]);
      assert (front + [s[|s| - 1]])[..|front|] == front;
    }
  }

  lemma {:induction false} SortSorted(s: seq<int>)
    ensures Sorted(Sort(s))
    ensures forall y :: y in Sort(s) <==> y in s
  {
    if s != [] {
      SortSorted(s[..|s| - 1]);
      InsertSorted(s[|s| - 1], Sort(s[..|s| - 1]));
      assert s == s[..|s| - 1] + [s[|s| - 1]];
    }
  }

  lemma {:induction false} SortCount(s: seq<int>, lo: int, hi: int)
    ensures CountIn(Sort(s), lo, hi) == CountIn(s, lo, hi)
  {
    if s != [] {
      SortCount(s[..|s| - 1], lo, hi);
      InsertCount(s[|s| - 1], Sort(s[..|s| - 1]), lo, hi);
    }
  }

  lemma SortTrip(s: seq<int>, t: int, p: Policy)
    ensures Trip(Sort(s), t, p) <==> Trip(s, t, p)
  {
    SortSorted(s);
    SortCount(s, t - p.window, t);
    SameTrip(Sort(s), s, t, p);
  }

  lemma SameTrip(a: seq<int>, b: seq<int>, t: int, p: Policy)
    requires t in a <==> t in b
    requires CountIn(a, t - p.window, t) == CountIn(b, t - p.window, t)
    ensures Trip(a, t, p) <==> Trip(b, t, p)
  {
  }

  /** `lockout_until`: the end of the lockout of the latest failure that trips. */
  method LockoutUntil(failures: seq<int>, p: Policy) returns (until: Option<int>)
    requires p.threshold >= 1
    ensures until.None? <==> forall t :: !Trip(failures, t, p)
    ensures until.Some? ==>
              && (exists t :: Trip(failures, t, p) && until.value == t + p.duration)
              && (forall t :: Trip(failures, t, p) ==> t + p.duration <= until.value)
  {
    var sorted := Sort(failures);
    SortSorted(failures);
    until := None;
    for i := 0 to |sorted|
      invariant until.None? ==> forall j :: 0 <= j < i ==> !TripsAt(sorted, j, p)
      invariant until.Some? ==>
                  && (exists j :: 0 <= j < i && TripsAt(sorted, j, p) && until.value == sorted[j] + p.duration)
                  && (forall j :: 0 <= j < i && TripsAt(sorted, j, p) ==> sorted[j] + p.duration <= until.value)
    {
      var anchor := sorted[i];
      TripCount(sorted, i, p);
      if CountIn(sorted[..i + 1], anchor - p.window, anchor) >= p.threshold {
        var end := anchor + p.duration;
        if until.None? || until.value < end {
          until := Some(end);
        }
      }
    }
    TripsAreIndexed(failures, sorted, p);
  }

  /** The failure that `t` is, in order, if it trips. */
  lemma TripHasIndex(failures: seq<int>, sorted: seq<int>, t: int, p: Policy) returns (i: nat)
    requires sorted == Sort(failures) && p.threshold >= 1 && Trip(failures, t, p)
    ensures TripsAt(sorted, i, p) && sorted[i] == t
  {
    SortSorted(failures);
    SortTrip(failures, t, p);
    i := TripIndex(sorted, t, p);
  }

  lemma IndexTrips(failures: seq<int>, sorted: seq<int>, i: nat, p: Policy)
    requires sorted == Sort(failures) && TripsAt(sorted, i, p)
    ensures Trip(failures, sorted[i], p)
  {
    SortSorted(failures);
    TripValue(sorted, i, p);
    SortTrip(failures, sorted[i], p);
  }

  lemma TripsAreIndexed(failures: seq<int>, sorted: seq<int>, p: Policy)
    requires sorted == Sort(failures) && p.threshold >= 1
    ensures forall t :: Trip(failures, t, p) ==> exists i :: TripsAt(sorted, i, p) && sorted[i] == t
    ensures forall i :: TripsAt(sorted, i, p) ==> Trip(failures, sorted[i], p)
  {
    forall t | Trip(failures, t, p)
      ensures exists i :: TripsAt(sorted, i, p) && sorted[i] == t
    {
      var i := TripHasIndex(failures, sorted, t, p);
    }
    forall i | TripsAt(sorted, i, p)
      ensures Trip(failures, sorted[i], p)
    {
      IndexTrips(failures, sorted, i, p);
    }
  }

  /** `is_locked_out`. */
  method IsLockedOut(failures: seq<int>, now: int, p: Policy) returns (locked: bool)
    requires p.threshold >= 1
    ensures locked <==> Locked(failures, now, p)
  {
    var until := LockoutUntil(failures, p);
    locked := until.Some? && now < until.value;
  }

  /** `admin_locked`: the same verdict looked for failure by failure, at a time no
      failure lies after. */
  method AdminLocked(failures: seq<int>, now: int, p: Policy) returns (locked: bool)
    requires p.threshold >= 1
    ensures locked <==> exists t :: Trip(failures, t, p) && t <= now < t + p.duration
  {
    var sorted := Sort(failures);
    SortSorted(failures);
    TripsAreIndexed(failures, sorted, p);
    for i := 0 to |sorted|
      invariant forall j :: 0 <= j < i ==> !(TripsAt(sorted, j, p) && sorted[j] <= now < sorted[j] + p.duration)
    {
      var trigger := sorted[i];
      TripCount(sorted, i, p);
      if CountIn(sorted[..i + 1], trigger - p.window, trigger) >= p.threshold
         && now >= trigger && now - trigger < p.duration {
        return true;
      }
    }
    return false;
  }

  // Bounded against unbounded

  /** Of `q` spans laid end to end in a stretch of at most `q` windows, one is no
      longer than a window. */
  lemma {:induction false} ShortSpan(s: seq<int>, base: nat, top: nat, span: nat, q: nat, window: nat) returns (a: nat)
    requires Sorted(s) && base + q * span == top < |s| && q >= 1
    requires s[top] - s[base] <= q * window
    ensures base + span <= a <= top && s[a] - s[a - span] <= window
    decreases q
  {
    assert q * span == (q - 1) * span + span && q * window == (q - 1) * window + window;
    assert (q - 1) * span >= 0;
    if s[top] - s[top - span] <= window {
      a := top;
    } else {
      if q == 1 {
        assert top - span == base;
      }
      a := ShortSpan(s, base, top - span, span, q - 1, window);
    }
  }

  /** A trip among failures that were dropped: some kept one trips no earlier. */
  lemma LaterTrip(s: seq<int>, k: nat, i: nat, now: int, p: Policy, q: nat) returns (a: nat)
    requires Roomy(p, q) && Sorted(s) && k <= |s| && |s| - k >= p.cap && TripsAt(s, i, p)
    requires forall j :: 0 <= j < |s| ==> s[j] <= now
    requires i - (p.threshold - 1) < k && now < s[i] + p.duration
    ensures i <= a && k <= a + 1 - p.threshold && TripsAt(s, a, p)
  {
    var base := SpansFit(|s|, k, i, p, q);
    WithinReach(s[i], s[base], s[|s| - 1], now, p, q);
    a := ShortSpan(s, base, |s| - 1, p.threshold - 1, q, p.window);
  }

  lemma WithinReach(trip: int, base: int, last: int, now: int, p: Policy, q: nat)
    requires Roomy(p, q) && trip <= base && last <= now < trip + p.duration
    ensures last - base <= q * p.window
  {
  }

  /** A locked history is already locked on its last `cap` failures. */
  lemma LastFailuresDecide(s: seq<int>, k: nat, now: int, p: Policy, q: nat)
    requires Roomy(p, q) && Sorted(s) && k <= |s| && |s| - k >= p.cap
    requires forall i :: 0 <= i < |s| ==> s[i] <= now
    requires Locked(s, now, p)
    ensures Locked(s[k..], now, p)
  {
    var t :| Trip(s, t, p) && now < t + p.duration;
    var i := TripIndex(s, t, p);
    var a := i;
    if i - (p.threshold - 1) < k {
      a := LaterTrip(s, k, i, now, p, q);
    }
    Shifted(s, k, a, p);
    assert s[a] >= t;
  }

  /** Room for `q` spans between a trip that starts before `k` and the end. */
  lemma SpansFit(n: nat, k: nat, i: nat, p: Policy, q: nat) returns (base: nat)
    requires Roomy(p, q) && k <= n && n - k >= p.cap && i < n
    requires i - (p.threshold - 1) < k && p.duration > 0
    ensures q >= 1 && base + q * (p.threshold - 1) == n - 1
    ensures i <= base && k <= base
  {
    var span := p.threshold - 1;
    assert 0 < q * p.window;
    assert q != 0;
    assert (q + 1) * span == q * span + span;
    assert q * span == (q - 1) * span + span && (q - 1) * span >= 0;
    base := n - 1 - q * span;
  }

  lemma Shifted(s: seq<int>, k: nat, i: nat, p: Policy)
    requires Sorted(s) && p.threshold >= 1 && TripsAt(s, i, p) && k <= i + 1 - p.threshold
    ensures Trip(s[k..], s[i], p)
  {
    assert TripsAt(s[k..], i - k, p);
    TripValue(s[k..], i - k, p);
  }

  lemma SuffixLocked(s: seq<int>, k: nat, now: int, p: Policy)
    requires Sorted(s) && p.threshold >= 1 && k <= |s| && Locked(s[k..], now, p)
    ensures Locked(s, now, p)
  {
    var t :| Trip(s[k..], t, p) && now < t + p.duration;
    var i := TripIndex(s[k..], t, p);
    assert TripsAt(s, i + k, p);
    TripValue(s, i + k, p);
  }

  /** `kept` is what remains of `full` at time `clock`: its latest part, with
      nothing dropped but what is too old or more than the cap. */
  ghost predicate Keeps(kept: seq<int>, full: seq<int>, clock: int, p: Policy) {
    && |kept| <= |full|
    && kept == full[|full| - |kept|..]
    && (|kept| < |full| ==>
          clock - full[|full| - |kept| - 1] > p.window + p.duration || |kept| >= p.cap)
  }

  /** The bounded list gives the unbounded list's verdict from `clock` on. */
  lemma BoundedAgrees(kept: seq<int>, full: seq<int>, clock: int, now: int, p: Policy, q: nat)
    requires Roomy(p, q) && Sorted(full) && Keeps(kept, full, clock, p)
    requires forall i :: 0 <= i < |full| ==> full[i] <= clock
    requires clock <= now
    ensures Locked(kept, now, p) <==> Locked(full, now, p)
  {
    var k := |full| - |kept|;
    if Locked(kept, now, p) {
      SuffixLocked(full, k, now, p);
    }
    if Locked(full, now, p) {
      if |kept| >= p.cap {
        LastFailuresDecide(full, k, now, p, q);
      } else {
        var t :| Trip(full, t, p) && now < t + p.duration;
        var i := TripIndex(full, t, p);
        Shifted(full, k, i, p);
      }
    }
  }

  // What the discipline of checking before recording buys

  /** Every failure was accepted while the ones before it did not lock. */
  ghost predicate Disciplined(full: seq<int>, p: Policy) {
    forall n :: 0 <= n < |full| ==> !Locked(full[..n], full[n], p)
  }

  lemma DisciplinedSnoc(full: seq<int>, now: int, p: Policy)
    requires Disciplined(full, p) && !Locked(full, now, p)
    ensures Disciplined(full + [now], p)
  {
    forall n | 0 <= n < |full + [now]|
      ensures !Locked((full + [now])[..n], (full + [now])[n], p)
    {
      assert (full + [now])[..n] == if n < |full| then full[..n] else full;
    }
  }

  /** After a failure that trips, the next accepted one is a whole lockout later. */
  lemma NextAfterTrip(full: seq<int>, i: nat, p: Policy)
    requires Sorted(full) && p.threshold >= 1 && Disciplined(full, p)
    requires TripsAt(full, i, p) && i + 1 < |full|
    ensures full[i + 1] >= full[i] + p.duration
  {
    var before := full[..i + 1];
    assert TripsAt(before, i, p);
    TripValue(before, i, p);
    assert !Locked(before, full[i + 1], p);
  }

  /** No closed window holds more than `threshold` accepted failures. */
  lemma AcceptedPerWindow(full: seq<int>, lo: int, p: Policy)
    requires Sorted(full) && p.threshold >= 1 && Disciplined(full, p) && p.duration > p.window
    ensures CountIn(full, lo, lo + p.window) <= p.threshold
  {
    if CountIn(full, lo, lo + p.window) > p.threshold {
      var i := CountRun(full, p.threshold + 1, lo, lo + p.window);
      var at := i + p.threshold - 1;
      assert TripsAt(full, at, p);
      NextAfterTrip(full, at, p);
      assert false;
    }
  }

  /** Nor does a window that includes its start and not its end, even if the lockout is
      no longer than the window, as for administrators. */
  lemma AcceptedPerHalfOpenWindow(full: seq<int>, lo: int, p: Policy)
    requires Sorted(full) && p.threshold >= 1 && Disciplined(full, p) && p.duration >= p.window
    ensures CountIn(full, lo, lo + p.window - 1) <= p.threshold
  {
    if CountIn(full, lo, lo + p.window - 1) > p.threshold {
      var i := CountRun(full, p.threshold + 1, lo, lo + p.window - 1);
      var at := i + p.threshold - 1;
      assert TripsAt(full, at, p);
      NextAfterTrip(full, at, p);
      assert false;
    }
  }

  /** A whole run of `threshold` failures within a window, and the lockout it starts
      not yet over. */
  ghost predicate LockedBy(s: seq<int>, i: nat, now: int, n: nat, window: nat, duration: nat) {
    i + n <= |s| && n >= 1 && s[i + n - 1] - s[i] <= window && now < s[i + n - 1] + duration
  }

  lemma LockedByRun(s: seq<int>, now: int, p: Policy)
    requires Sorted(s) && p.threshold >= 1
    ensures Locked(s, now, p) <==> exists i: nat :: LockedBy(s, i, now, p.threshold, p.window, p.duration)
  {
    if t :| Trip(s, t, p) && now < t + p.duration {
      var last := TripIndex(s, t, p);
      assert LockedBy(s, last + 1 - p.threshold, now, p.threshold, p.window, p.duration);
    }
    if i: nat :| LockedBy(s, i, now, p.threshold, p.window, p.duration) {
      TripValue(s, i + p.threshold - 1, p);
    }
  }

  /** A key is locked out exactly when five of its failures lie within a minute and
      the last of these is less than five minutes ago; an administrator exactly when
      five lie within a quarter of an hour and the last is less than that ago. */
  lemma LockedMeans(s: seq<int>, now: int)
    requires Sorted(s)
    ensures Locked(s, now, API_KEYS) <==> exists i: nat :: LockedBy(s, i, now, 5, 60_000_000_000, 300_000_000_000)
    ensures Locked(s, now, ADMIN_LOGIN) <==> exists i: nat :: LockedBy(s, i, now, 5, 900_000_000_000, 900_000_000_000)
  {
    LockedByRun(s, now, API_KEYS);
    LockedByRun(s, now, ADMIN_LOGIN);
  }
}
