/** The fixed-window limiter of `ratelimit.rs`. Times and durations are in
    nanoseconds; `now` never decreases. */
module RateLimit {
  import opened Text
  import opened Timeline

  /** Idle cache entries may be dropped after this long. */
  const ENTRY_TTL: nat := 3600 * SECOND

  datatype WindowState = WindowState(count: nat, windowStart: int)

  datatype RateDecision = Allow(remaining: nat) | Reject(retryAfterSecs: nat)

  function New(now: int): WindowState {
    WindowState(0, now)
  }

  function Since(now: int, earlier: int): nat {
    if now >= earlier then now - earlier else 0
  }

  function Minus(a: nat, b: nat): nat {
    if a >= b then a - b else 0
  }

  function RetryAfterSecs(window: nat, elapsed: nat): (secs: nat)
    ensures secs >= 1
  {
    var most := if window / SECOND >= 1 then window / SECOND else 1;
    var secs := (Minus(window, elapsed) + SECOND - 1) / SECOND;
    if secs < 1 then 1 else if secs > most then most else secs
  }

  function Decided(state: WindowState, limit: nat, window: nat, now: int): (WindowState, RateDecision) {
    var elapsed := Since(now, state.windowStart);
    if elapsed >= window then (WindowState(1, now), Allow(Minus(limit, 1)))
    else if state.count < limit then
      (WindowState(state.count + 1, state.windowStart), Allow(Minus(limit, state.count + 1)))
    else (state, Reject(RetryAfterSecs(window, elapsed)))
  }

  /** A counter updated in place, as `decide` takes it. */
  class Counter {
    var count: nat
    var windowStart: int

    constructor (now: int)
      ensures State() == New(now)
    {
      count, windowStart := 0, now;
    }

    function State(): WindowState
      reads this
    {
      WindowState(count, windowStart)
    }

    method Decide(limit: nat, window: nat, now: int) returns (decision: RateDecision)
      modifies this
      ensures (State(), decision) == Decided(old(State()), limit, window, now)
    {
      var elapsed := Since(now, windowStart);
      if elapsed >= window {
        windowStart := now;
        count := 1;
        return Allow(Minus(limit, 1));
      }
      if count < limit {
        count := count + 1;
        return Allow(Minus(limit, count));
      }
      return Reject(RetryAfterSecs(window, elapsed));
    }
  }

  // Retry-After

  /** A rejected caller told to wait `r` seconds is never told a second too many,
      and waiting is enough exactly when what remains of the window does not
      exceed the window's whole seconds (at least one). */
  lemma RetryAfterIsTight(window: nat, elapsed: nat)
    requires elapsed < window
    ensures var r := RetryAfterSecs(window, elapsed);
              && elapsed + (r - 1) * SECOND < window
              && (elapsed + r * SECOND >= window
                  <==> window - elapsed <= (if window / SECOND >= 1 then window / SECOND else 1) * SECOND)
  {
    var secs := (window - elapsed + SECOND - 1) / SECOND;
    assert (secs - 1) * SECOND < window - elapsed <= secs * SECOND;
  }

  /** Hence waiting is always enough when the window is a whole number of seconds. */
  lemma WholeSecondsSuffice(window: nat, elapsed: nat)
    requires elapsed < window && window % SECOND == 0
    ensures elapsed + RetryAfterSecs(window, elapsed) * SECOND >= window
  {
    RetryAfterIsTight(window, elapsed);
  }

  // How many requests get through

  datatype Run = Run(state: Option<WindowState>, allowed: seq<int>)

  /** One key under a constant limit: the state left and the times allowed. The
      first request creates the state at its own time, as `check` does. */
  function RunOf(times: seq<int>, limit: nat, window: nat): Run {
    if times == [] then Run(None, [])
    else
      var before := RunOf(times[..|times| - 1], limit, window);
      var now := times[|times| - 1];
      var state := match before.state case Some(s) => s case None => New(now);
      var (state', decision) := Decided(state, limit, window, now);
      Run(Some(state'), if decision.Allow? then before.allowed + [now] else before.allowed)
  }

  /** `count` requests were allowed since the window opened, the first of them on
      opening it; the window before opened a whole window earlier and held at most
      `limit`; and so any `2 * limit` allowed in a row span a window at least. */
  ghost predicate Paced(run: Run, limit: nat, window: nat, now: int)
    requires limit >= 1
  {
    match run.state
    case None => run.allowed == []
    case Some(state) =>
      && Sorted(run.allowed) && Spaced(run.allowed, limit, window)
      && Opened(state, run.allowed, limit, window, now)
  }

  predicate Opened(state: WindowState, allowed: seq<int>, limit: nat, window: nat, now: int)
    requires limit >= 1
  {
    var n := |allowed|;
    var opener := n - state.count;
    && 1 <= state.count <= limit && opener >= 0
    && allowed[opener] == state.windowStart
    && allowed[n - 1] <= now
    && (window > 0 ==> allowed[n - 1] < state.windowStart + window)
    && (window > 0 && opener > 0 ==> allowed[opener - 1] < state.windowStart)
    && (opener > 0 ==> allowed[if opener >= limit then opener - limit else 0] + window <= state.windowStart)
  }

  predicate Spaced(allowed: seq<int>, limit: nat, window: nat)
    requires limit >= 1
  {
    forall j :: 2 * limit - 1 <= j < |allowed| ==> allowed[j] - allowed[j - (2 * limit - 1)] >= window
  }

  lemma SortedAppend(s: seq<int>, t: int)
    requires Sorted(s) && (s != [] ==> s[|s| - 1] <= t)
    ensures Sorted(s + [t])
  {
  }

  lemma SpacedAppend(s: seq<int>, t: int, limit: nat, window: nat)
    requires limit >= 1 && Spaced(s, limit, window)
    requires |s| >= 2 * limit - 1 ==> t - s[|s| - (2 * limit - 1)] >= window
    ensures Spaced(s + [t], limit, window)
  {
  }

  /** The next request in the same window. */
  lemma WindowFills(state: WindowState, allowed: seq<int>, limit: nat, window: nat, now: int, next: int)
    requires limit >= 1 && Sorted(allowed) && Spaced(allowed, limit, window)
              && Opened(state, allowed, limit, window, now)
    requires now <= next && Since(next, state.windowStart) < window && state.count < limit
    ensures Paced(Run(Some(WindowState(state.count + 1, state.windowStart)), allowed + [next]), limit, window, next)
  {
    var n := |allowed|;
    SortedAppend(allowed, next);
    if n >= 2 * limit - 1 {
      var opener := n - state.count;
      assert allowed[n - (2 * limit - 1)] <= allowed[opener - limit];
    }
    SpacedAppend(allowed, next, limit, window);
  }

  /** A new window opens. */
  lemma WindowOpens(state: WindowState, allowed: seq<int>, limit: nat, window: nat, now: int, next: int)
    requires limit >= 1 && Sorted(allowed) && Spaced(allowed, limit, window)
              && Opened(state, allowed, limit, window, now)
    requires now <= next && Since(next, state.windowStart) >= window
    ensures Paced(Run(Some(WindowState(1, next)), allowed + [next]), limit, window, next)
  {
    var n := |allowed|;
    SortedAppend(allowed, next);
    var opener := n - state.count;
    assert allowed[if n >= limit then n - limit else 0] <= allowed[opener];
    if n >= 2 * limit - 1 {
      assert allowed[n - (2 * limit - 1)] <= allowed[opener];
    }
    SpacedAppend(allowed, next, limit, window);
  }

  lemma PacedStep(run: Run, limit: nat, window: nat, now: int, next: int)
    requires limit >= 1 && Paced(run, limit, window, now) && now <= next && run.state.Some?
    ensures var (state', decision) := Decided(run.state.value, limit, window, next);
              Paced(Run(Some(state'), if decision.Allow? then run.allowed + [next] else run.allowed), limit, window,
                  next)
  {
    var state := run.state.value;
    if Since(next, state.windowStart) >= window {
      WindowOpens(state, run.allowed, limit, window, now, next);
    } else if state.count < limit {
      WindowFills(state, run.allowed, limit, window, now, next);
    }
  }

  lemma {:induction false} RunIsPaced(times: seq<int>, limit: nat, window: nat)
    requires limit >= 1 && Sorted(times)
    ensures times != [] ==>
              && RunOf(times, limit, window).state.Some?
              && Paced(RunOf(times, limit, window), limit, window, times[|times| - 1])
  {
    if times != [] {
      var front := times[..|times| - 1];
      RunIsPaced(front, limit, window);
      if front != [] {
        PacedStep(RunOf(front, limit, window), limit, window, front[|front| - 1], times[|times| - 1]);
      }
    }
  }

  lemma AllowedGaps(times: seq<int>, limit: nat, window: nat, i: nat)
    requires limit >= 1 && Sorted(times) && i + 2 * limit <= |RunOf(times, limit, window).allowed|
    ensures var allowed := RunOf(times, limit, window).allowed;
              Sorted(allowed) && allowed[i + 2 * limit - 1] - allowed[i] >= window
  {
    RunIsPaced(times, limit, window);
    var j := i + (2 * limit - 1);
    assert j - (2 * limit - 1) == i;
  }

  lemma AllowedSorted(times: seq<int>, limit: nat, window: nat)
    requires limit >= 1 && Sorted(times)
    ensures Sorted(RunOf(times, limit, window).allowed)
  {
    RunIsPaced(times, limit, window);
  }

  /** Any half-open interval one window long lets at most `2 * limit - 1` through. */
  lemma AllowedPerInterval(times: seq<int>, limit: nat, window: nat, start: int)
    requires limit >= 1 && Sorted(times)
    ensures CountIn(RunOf(times, limit, window).allowed, start, start + window - 1) < 2 * limit
  {
    AllowedSorted(times, limit, window);
    var allowed := RunOf(times, limit, window).allowed;
    if CountIn(allowed, start, start + window - 1) >= 2 * limit {
      var i := CountRun(allowed, 2 * limit, start, start + window - 1);
      AllowedGaps(times, limit, window, i);
      assert false;
    }
  }

  /** The limiter's own window never lets more than `limit` through. */
  lemma AllowedPerWindow(times: seq<int>, limit: nat, window: nat)
    requires limit >= 1 && Sorted(times) && times != []
    ensures RunOf(times, limit, window).state.Some?
    ensures var run := RunOf(times, limit, window);
              CountIn(run.allowed, run.state.value.windowStart, times[|times| - 1]) <= limit || window == 0
  {
    RunIsPaced(times, limit, window);
    var run := RunOf(times, limit, window);
    var ws := run.state.value.windowStart;
    if window > 0 && CountIn(run.allowed, ws, times[|times| - 1]) >= limit + 1 {
      CountSuffix(run.allowed, limit + 1, ws, times[|times| - 1]);
    }
  }

  // No fewer than permitted

  /** The state a request finds. */
  function Found(run: Run, now: int): WindowState {
    match run.state case Some(s) => s case None => New(now)
  }

  /** The decision on one more request after some. */
  function DecisionAt(times: seq<int>, now: int, limit: nat, window: nat): RateDecision {
    Decided(Found(RunOf(times, limit, window), now), limit, window, now).1
  }

  lemma RunSnoc(times: seq<int>, now: int, limit: nat, window: nat)
    ensures var before := RunOf(times, limit, window);
            var (state', decision) := Decided(Found(before, now), limit, window, now);
              && decision == DecisionAt(times, now, limit, window)
              && RunOf(times + [now], limit, window)
                 == Run(Some(state'), if decision.Allow? then before.allowed + [now] else before.allowed)
  {
    assert (times + [now])[..|times|] == times;
  }

  /** A request is rejected only if as many requests as the limit were allowed within
      one window up to it. */
  lemma RejectedOnlyWhenFull(times: seq<int>, now: int, limit: nat, window: nat)
    requires Sorted(times + [now]) && DecisionAt(times, now, limit, window).Reject?
    ensures CountIn(RunOf(times, limit, window).allowed, now - window + 1, now) >= limit
  {
    if limit >= 1 {
      var run := RunOf(times, limit, window);
      if times != [] {
        SortedFront(times, now);
        RunIsPaced(times, limit, window);
        AllowedUpTo(run, limit, window, times[|times| - 1], now);
      }
    }
  }

  lemma SortedFront(times: seq<int>, now: int)
    requires Sorted(times + [now])
    ensures Sorted(times) && (times != [] ==> times[|times| - 1] <= now)
  {
    var all := times + [now];
    assert forall i :: 0 <= i < |times| ==> all[i] == times[i];
    assert all[|times|] == now;
  }

  lemma AllowedUpTo(run: Run, limit: nat, window: nat, last: int, now: int)
    requires limit >= 1 && run.state.Some? && Paced(run, limit, window, last) && last <= now
    requires Decided(run.state.value, limit, window, now).1.Reject?
    ensures CountIn(run.allowed, now - window + 1, now) >= limit
  {
    var state := run.state.value;
    CountSuffix(run.allowed, limit, now - window + 1, now);
  }

  /** The window a run is in began with a request that was allowed. */
  function WindowStart(times: seq<int>, limit: nat, window: nat): int
    requires times != []
  {
    RunOf(times, limit, window).state.value.windowStart
  }

  function AtMost(n: nat, k: nat): nat {
    if n <= k then n else k
  }

  /** After some more requests in the same window: the first `remaining` of them have
      been allowed. */
  predicate Filled(base: Run, run: Run, more: seq<int>, remaining: nat)
    requires base.state.Some?
  {
    var k := AtMost(|more|, remaining);
    && run.allowed == base.allowed + more[..k]
    && run.state == Some(WindowState(base.state.value.count + k, base.state.value.windowStart))
  }

  function NextRun(run: Run, now: int, limit: nat, window: nat): Run {
    var (state', decision) := Decided(Found(run, now), limit, window, now);
    Run(Some(state'), if decision.Allow? then run.allowed + [now] else run.allowed)
  }

  lemma FilledStep(base: Run, run: Run, front: seq<int>, now: int, remaining: nat, limit: nat, window: nat)
    requires base.state.Some? && Filled(base, run, front, remaining)
    requires remaining == Minus(limit, base.state.value.count)
    requires base.state.value.windowStart <= now < base.state.value.windowStart + window
    ensures Filled(base, NextRun(run, now, limit, window), front + [now], remaining)
  {
    Taking(front, now, remaining);
    Associate(base.allowed, front[..AtMost(|front|, remaining)], [now]);
  }

  lemma {:induction false} LimitIsKept(times: seq<int>, more: seq<int>, limit: nat, window: nat, remaining: nat)
    requires times != [] && Sorted(times + more)
    requires forall i :: 0 <= i < |more| ==> more[i] < WindowStart(times, limit, window) + window
    requires WindowStart(times, limit, window) <= times[|times| - 1]
    requires remaining == Minus(limit, RunOf(times, limit, window).state.value.count)
    ensures Filled(RunOf(times, limit, window), RunOf(times + more, limit, window), more, remaining)
  {
    if more == [] {
      assert times + more == times && RunOf(times, limit, window).allowed + [] == RunOf(times, limit, window).allowed;
    } else {
      var front, now := more[..|more| - 1], more[|more| - 1];
      assert times + more == times + front + [now] && front + [now] == more;
      SortedFront(times + front, now);
      LimitIsKept(times, front, limit, window, remaining);
      RunSnoc(times + front, now, limit, window);
      LaterIn(times, more);
      FilledStep(RunOf(times, limit, window), RunOf(times + front, limit, window), front, now, remaining, limit,
          window);
    }
  }

  lemma LaterIn(times: seq<int>, more: seq<int>)
    requires times != [] && more != [] && Sorted(times + more)
    ensures times[|times| - 1] <= more[|more| - 1]
  {
    var all := times + more;
    assert all[|times| - 1] == times[|times| - 1] && all[|all| - 1] == more[|more| - 1];
  }

  lemma Taking(front: seq<int>, now: int, k: nat)
    ensures |front| < k ==> (front + [now])[..|front| + 1] == front[..|front|] + [now]
    ensures |front| >= k ==> (front + [now])[..k] == front[..k]
  {
  }

  lemma {:induction false} StartIsPast(times: seq<int>, limit: nat, window: nat)
    requires times != [] && Sorted(times)
    ensures RunOf(times, limit, window).state.Some? && WindowStart(times, limit, window) <= times[|times| - 1]
  {
    var front, now := times[..|times| - 1], times[|times| - 1];
    assert times == front + [now];
    SortedFront(front, now);
    RunSnoc(front, now, limit, window);
    if front != [] {
      StartIsPast(front, limit, window);
    }
  }

  /** A caller told that `remaining` are left has just those: of the requests that
      follow within the window the first `remaining` are allowed, and no others. */
  lemma RemainingIsLeft(times: seq<int>, now: int, more: seq<int>, limit: nat, window: nat)
    requires Sorted(times + [now] + more) && DecisionAt(times, now, limit, window).Allow?
    requires forall i :: 0 <= i < |more| ==> more[i] < WindowStart(times + [now], limit, window) + window
    ensures var remaining := DecisionAt(times, now, limit, window).remaining;
            var k := AtMost(|more|, remaining);
              RunOf(times + [now] + more, limit, window).allowed == RunOf(times + [now], limit, window).allowed
                  + more[..k]
  {
    SortedPrefix(times + [now], more);
    StartIsPast(times + [now], limit, window);
    RunSnoc(times, now, limit, window);
    LimitIsKept(times + [now], more, limit, window, DecisionAt(times, now, limit, window).remaining);
  }

  lemma SortedPrefix(a: seq<int>, b: seq<int>)
    requires Sorted(a + b)
    ensures Sorted(a)
  {
    assert forall i :: 0 <= i < |a| ==> (a + b)[i] == a[i];
  }

  /** Once the window is over the next request is allowed, the first of a new one. */
  lemma WindowReopens(times: seq<int>, now: int, limit: nat, window: nat)
    requires times != [] && Sorted(times + [now]) && now >= WindowStart(times, limit, window) + window
    ensures DecisionAt(times, now, limit, window) == Allow(Minus(limit, 1))
    ensures WindowStart(times + [now], limit, window) == now
  {
    SortedFront(times, now);
    StartIsPast(times, limit, window);
    RunSnoc(times, now, limit, window);
  }

  /** A rejected caller who waits as told is allowed, if the window is a whole number
      of seconds; and waiting a second less is never enough. */
  lemma WaitIsHonoured(times: seq<int>, now: int, later: int, limit: nat, window: nat)
    requires times != [] && Sorted(times + [now]) && DecisionAt(times, now, limit, window).Reject? && now <= later
    ensures var secs := DecisionAt(times, now, limit, window).retryAfterSecs;
              && (window % SECOND == 0 && later >= now + secs * SECOND ==>
                    DecisionAt(times + [now], later, limit, window).Allow?)
              && (later <= now + (secs - 1) * SECOND ==> DecisionAt(times + [now], later, limit, window).Reject?)
  {
    SortedFront(times, now);
    StartIsPast(times, limit, window);
    RunSnoc(times, now, limit, window);
    RetryAfterIsTight(window, now - WindowStart(times, limit, window));
  }

  // Idle eviction

  datatype Op = Request(now: int) | Expire(now: int)

  datatype Entry = Entry(state: WindowState, lastAccess: int)

  datatype Trace = Trace(entry: Option<Entry>, decisions: seq<RateDecision>)

  /** `RateLimiter::check` on one key; an expiry drops an entry idle for the TTL
      when `evicting`, and does nothing otherwise. */
  function StepOf(trace: Trace, op: Op, limit: nat, window: nat, evicting: bool): Trace {
    match op
    case Request(now) =>
      var state := match trace.entry case Some(e) => e.state case None => New(now);
      var (state', decision) := Decided(state, limit, window, now);
      Trace(Some(Entry(state', now)), trace.decisions + [decision])
    case Expire(now) =>
      if evicting && trace.entry.Some? && now - trace.entry.value.lastAccess >= ENTRY_TTL
      then trace.(entry := None)
      else trace
  }

  function TraceOf(ops: seq<Op>, limit: nat, window: nat, evicting: bool): Trace {
    if ops == [] then Trace(None, [])
    else StepOf(TraceOf(ops[..|ops| - 1], limit, window, evicting), ops[|ops| - 1], limit, window, evicting)
  }

  function TimeOf(op: Op): int {
    op.now
  }

  /** The entries agree, or the evicted one is missing and the other's window is over. */
  ghost predicate Matches(evicted: Trace, kept: Trace, window: nat, now: int) {
    && evicted.decisions == kept.decisions
    && (kept.entry.Some? ==> kept.entry.value.state.windowStart <= kept.entry.value.lastAccess <= now)
    && (evicted.entry == kept.entry
        || (evicted.entry.None? && kept.entry.Some? && now - kept.entry.value.state.windowStart >= window))
  }

  /** A request on a window that is over and one on no entry at all. */
  lemma FreshOrOver(state: WindowState, limit: nat, window: nat, now: int)
    requires now - state.windowStart >= window
    ensures Decided(New(now), limit, window, now) == Decided(state, limit, window, now)
            <==> limit >= 1 || window == 0
  {
  }

  lemma {:induction false} EvictionMatches(ops: seq<Op>, limit: nat, window: nat, now: int)
    requires window == 0 || (limit >= 1 && window <= ENTRY_TTL)
    requires InOrder(ops, TimeOf) && (ops != [] ==> ops[|ops| - 1].now <= now)
    ensures Matches(TraceOf(ops, limit, window, true), TraceOf(ops, limit, window, false), window, now)
  {
    if ops != [] {
      var front, op := ops[..|ops| - 1], ops[|ops| - 1];
      EvictionMatches(front, limit, window, op.now);
      var kept := TraceOf(front, limit, window, false);
      if op.Request? && kept.entry.Some? && op.now - kept.entry.value.state.windowStart >= window {
        FreshOrOver(kept.entry.value.state, limit, window, op.now);
      }
    }
  }

  /** Eviction changes no decision of any run exactly when the limit lets anything
      through and the window is no longer than the TTL (or has no length). */
  lemma EvictionInvisible(limit: nat, window: nat)
    ensures (forall ops: seq<Op> :: InOrder(ops, TimeOf) ==>
               TraceOf(ops, limit, window, true).decisions == TraceOf(ops, limit, window, false).decisions)
            <==> window == 0 || (limit >= 1 && window <= 3600 * SECOND)
  {
    if window == 0 || (limit >= 1 && window <= ENTRY_TTL) {
      forall ops: seq<Op> | InOrder(ops, TimeOf)
        ensures TraceOf(ops, limit, window, true).decisions == TraceOf(ops, limit, window, false).decisions
      {
        EvictionMatches(ops, limit, window, if ops == [] then 0 else ops[|ops| - 1].now);
      }
    } else {
      EvictionVisible(limit, window);
    }
  }

  lemma EvictionVisible(limit: nat, window: nat)
    requires window > 0 && (limit == 0 || window > ENTRY_TTL)
    ensures var ops := [Request(0), Expire(ENTRY_TTL), Request(ENTRY_TTL)];
              && InOrder(ops, TimeOf)
              && TraceOf(ops, limit, window, true).decisions != TraceOf(ops, limit, window, false).decisions
  {
    var ops := [Request(0), Expire(ENTRY_TTL), Request(ENTRY_TTL)];
    assert ops[..2][..1][..0] == [];
    forall evicting
      ensures TraceOf(ops, limit, window, evicting)
           == StepOf(StepOf(StepOf(Trace(None, []), ops[0], limit, window, evicting), ops[1], limit, window, evicting),
               ops[2], limit, window, evicting)
    {
      assert ops[..2] == [ops[0], ops[1]] && ops[..2][..1] == [ops[0]];
      assert TraceOf([ops[0]], limit, window, evicting) == StepOf(Trace(None, []), ops[0], limit, window, evicting);
    }
    var first := StepOf(Trace(None, []), ops[0], limit, window, true);
    assert first == StepOf(Trace(None, []), ops[0], limit, window, false);
    var anew := Decided(New(ENTRY_TTL), limit, window, ENTRY_TTL).1;
    var idle := Decided(first.entry.value.state, limit, window, ENTRY_TTL).1;
    assert anew != idle by {
      if limit == 0 && window > ENTRY_TTL {
        assert (window + SECOND - 1) / SECOND >= window / SECOND >= 3600;
        assert (window - ENTRY_TTL + SECOND - 1) / SECOND < window / SECOND;
      }
    }
    assert TraceOf(ops, limit, window, true).decisions[1] == anew;
    assert TraceOf(ops, limit, window, false).decisions[1] == idle;
  }

  // Many keys

  /** A request checked, or an entry of the cache let go for being idle. */
  datatype Call = Asked(key: string, limit: nat, window: nat, now: int) | Idle(key: string, now: int)

  function CallTime(call: Call): int {
    call.now
  }

  /** What the calls so far make of one key. */
  function TraceFor(history: seq<Call>, key: string): Trace {
    if history == [] then Trace(None, [])
    else
      var before, call := TraceFor(history[..|history| - 1], key), history[|history| - 1];
      if call.key != key then before
      else match call
        case Asked(_, limit, window, now) => StepOf(before, Request(now), limit, window, true)
        case Idle(_, now) => StepOf(before, Expire(now), 0, 0, true)
  }

  function OpsFor(history: seq<Call>, key: string): seq<Op> {
    if history == [] then []
    else
      var call := history[|history| - 1];
      OpsFor(history[..|history| - 1], key)
      + if call.key != key then [] else [if call.Asked? then Request(call.now) else Expire(call.now)]
  }

  predicate OnTerms(history: seq<Call>, key: string, limit: nat, window: nat) {
    forall i :: 0 <= i < |history| && history[i].Asked? && history[i].key == key ==>
      history[i].limit == limit && history[i].window == window
  }

  lemma TraceOfSnoc(ops: seq<Op>, op: Op, limit: nat, window: nat)
    ensures TraceOf(ops + [op], limit, window, true)
              == StepOf(TraceOf(ops, limit, window, true), op, limit, window, true)
  {
    assert (ops + [op])[..|ops|] == ops;
  }

  /** A key on the same terms throughout has the trace of its own operations. */
  lemma {:induction false} TraceForIs(history: seq<Call>, key: string, limit: nat, window: nat)
    requires OnTerms(history, key, limit, window)
    ensures TraceFor(history, key) == TraceOf(OpsFor(history, key), limit, window, true)
  {
    if history != [] {
      var front, call := history[..|history| - 1], history[|history| - 1];
      TraceForIs(front, key, limit, window);
      if call.key == key {
        TraceOfSnoc(OpsFor(front, key), if call.Asked? then Request(call.now) else Expire(call.now), limit, window);
      } else {
        assert OpsFor(front, key) + [] == OpsFor(front, key);
      }
    }
  }

  lemma {:induction false} OpsInOrder(history: seq<Call>, key: string)
    requires InOrder(history, CallTime)
    ensures InOrder(OpsFor(history, key), TimeOf)
    ensures OpsFor(history, key) != [] ==> history != [] && forall i :: 0 <= i < |OpsFor(history, key)| ==>
              OpsFor(history, key)[i].now <= history[|history| - 1].now
  {
    if history != [] {
      var front, call := history[..|history| - 1], history[|history| - 1];
      OpsInOrder(front, key);
      if front != [] {
        assert CallTime(front[|front| - 1]) <= CallTime(call);
      }
    }
  }

  function RequestTimes(ops: seq<Op>): seq<int> {
    if ops == [] then []
    else RequestTimes(ops[..|ops| - 1]) + if ops[|ops| - 1].Request? then [ops[|ops| - 1].now] else []
  }

  /** When the requests that were allowed were made. */
  function AllowedTimes(ops: seq<Op>, decisions: seq<RateDecision>): seq<int> {
    if ops == [] then []
    else
      var front, op := ops[..|ops| - 1], ops[|ops| - 1];
      if op.Expire? then AllowedTimes(front, decisions)
      else if decisions == [] then []
      else AllowedTimes(front, decisions[..|decisions| - 1]) + if decisions[|decisions| - 1].Allow? then [op.now]
          else []
  }

  /** Without evictions a key's trace is the run of its requests. */
  lemma {:induction false} TraceIsRun(ops: seq<Op>, limit: nat, window: nat)
    ensures var trace, run := TraceOf(ops, limit, window, false), RunOf(RequestTimes(ops), limit, window);
              && AllowedTimes(ops, trace.decisions) == run.allowed
              && run.state == match trace.entry case Some(e) => Some(e.state) case None => None
  {
    if ops != [] {
      var front, op := ops[..|ops| - 1], ops[|ops| - 1];
      TraceIsRun(front, limit, window);
      var before := TraceOf(front, limit, window, false);
      if op.Request? {
        RunSnoc(RequestTimes(front), op.now, limit, window);
        var after := TraceOf(ops, limit, window, false).decisions;
        assert after[..|after| - 1] == before.decisions;
      } else {
        assert RequestTimes(front) + [] == RequestTimes(front);
      }
    }
  }

  lemma {:induction false} TimesSorted(ops: seq<Op>)
    requires InOrder(ops, TimeOf)
    ensures Sorted(RequestTimes(ops))
    ensures RequestTimes(ops) != [] ==> ops != [] && forall i :: 0 <= i < |RequestTimes(ops)| ==>
              RequestTimes(ops)[i] <= ops[|ops| - 1].now
  {
    if ops != [] {
      var front, op := ops[..|ops| - 1], ops[|ops| - 1];
      TimesSorted(front);
      if front != [] {
        assert TimeOf(front[|front| - 1]) <= TimeOf(op);
      }
    }
  }

  /** When a key's requests were allowed. */
  function AllowedFor(history: seq<Call>, key: string): seq<int> {
    AllowedTimes(OpsFor(history, key), TraceFor(history, key).decisions)
  }

  /** The limiter as it runs, evictions included: a key on the same terms throughout, a
      limit of at least one and a window no longer than the TTL, has at most
      `2 * limit - 1` requests allowed in any half-open interval one window long. */
  lemma LimiterPaces(history: seq<Call>, key: string, limit: nat, window: nat, start: int)
    requires InOrder(history, CallTime) && OnTerms(history, key, limit, window) && limit >= 1 && window <= ENTRY_TTL
    ensures CountIn(AllowedFor(history, key), start, start + window - 1) < 2 * limit
  {
    var ops := OpsFor(history, key);
    TraceForIs(history, key, limit, window);
    OpsInOrder(history, key);
    EvictionMatches(ops, limit, window, if ops == [] then 0 else ops[|ops| - 1].now);
    TraceIsRun(ops, limit, window);
    TimesSorted(ops);
    AllowedPerInterval(RequestTimes(ops), limit, window, start);
  }

  /** The decisions of a run. */
  function DecisionsOf(times: seq<int>, limit: nat, window: nat): seq<RateDecision> {
    if times == [] then []
    else
      DecisionsOf(times[..|times| - 1], limit, window)
      + [DecisionAt(times[..|times| - 1], times[|times| - 1], limit, window)]
  }

  lemma {:induction false} TraceDecides(ops: seq<Op>, limit: nat, window: nat)
    ensures TraceOf(ops, limit, window, false).decisions == DecisionsOf(RequestTimes(ops), limit, window)
  {
    if ops != [] {
      var front, op := ops[..|ops| - 1], ops[|ops| - 1];
      TraceDecides(front, limit, window);
      TraceIsRun(front, limit, window);
      if op.Request? {
        assert (RequestTimes(front) + [op.now])[..|RequestTimes(front)|] == RequestTimes(front);
      } else {
        assert RequestTimes(front) + [] == RequestTimes(front);
      }
    }
  }

  /** A key that is on the same terms throughout, with a limit and a window under which
      evictions do not show. */
  ghost predicate Steady(history: seq<Call>, key: string, limit: nat, window: nat) {
    InOrder(history, CallTime) && OnTerms(history, key, limit, window) && limit >= 1 && window <= ENTRY_TTL
  }

  function TimesFor(history: seq<Call>, key: string): seq<int> {
    RequestTimes(OpsFor(history, key))
  }

  /** What the limiter does for such a key, evictions included, is the run of the key's
      requests. */
  lemma LimiterIsRun(history: seq<Call>, key: string, limit: nat, window: nat)
    requires Steady(history, key, limit, window)
    ensures Sorted(TimesFor(history, key))
    ensures TraceFor(history, key).decisions == DecisionsOf(TimesFor(history, key), limit, window)
    ensures AllowedFor(history, key) == RunOf(TimesFor(history, key), limit, window).allowed
  {
    var ops := OpsFor(history, key);
    TraceForIs(history, key, limit, window);
    OpsInOrder(history, key);
    EvictionMatches(ops, limit, window, if ops == [] then 0 else ops[|ops| - 1].now);
    TraceIsRun(ops, limit, window);
    TraceDecides(ops, limit, window);
    TimesSorted(ops);
  }

  lemma AskedLast(history: seq<Call>, key: string, limit: nat, window: nat, now: int)
    ensures TimesFor(history + [Asked(key, limit, window, now)], key) == TimesFor(history, key) + [now]
  {
    var all := history + [Asked(key, limit, window, now)];
    assert all[..|history|] == history;
    var ops := OpsFor(history, key);
    assert (ops + [Request(now)])[..|ops|] == ops;
  }

  lemma SteadyFront(history: seq<Call>, call: Call, key: string, limit: nat, window: nat)
    requires Steady(history + [call], key, limit, window)
    ensures Steady(history, key, limit, window)
  {
    var all := history + [call];
    assert forall i :: 0 <= i < |history| ==> all[i] == history[i];
  }

  /** The limiter rejects a request only if as many as the limit were allowed within one
      window up to it. */
  lemma LimiterRejectsOnlyWhenFull(history: seq<Call>, key: string, limit: nat, window: nat, now: int)
    requires Steady(history + [Asked(key, limit, window, now)], key, limit, window)
    ensures var decisions := TraceFor(history + [Asked(key, limit, window, now)], key).decisions;
              && decisions != []
              && (decisions[|decisions| - 1].Reject? ==>
                    CountIn(AllowedFor(history, key), now - window + 1, now) >= limit)
  {
    var all, times := history + [Asked(key, limit, window, now)], TimesFor(history, key);
    SteadyFront(history, Asked(key, limit, window, now), key, limit, window);
    LimiterIsRun(all, key, limit, window);
    LimiterIsRun(history, key, limit, window);
    AskedLast(history, key, limit, window, now);
    assert (times + [now])[..|times|] == times;
    if DecisionAt(times, now, limit, window).Reject? {
      RejectedOnlyWhenFull(times, now, limit, window);
    }
  }

  /** And a caller told that `remaining` are left has just those: of the key's requests
      that follow within the window the first `remaining` are allowed, and no others,
      whatever other keys ask and the cache lets go meanwhile. */
  lemma LimiterKeepsItsWord(history: seq<Call>, key: string, limit: nat, window: nat, now: int, longer: seq<Call>,
                            more: seq<int>)
    requires Steady(longer, key, limit, window) && history + [Asked(key, limit, window, now)] <= longer
    requires TimesFor(longer, key) == TimesFor(history, key) + [now] + more
    requires DecisionAt(TimesFor(history, key), now, limit, window).Allow?
    requires var start := WindowStart(TimesFor(history, key) + [now], limit, window);
             forall i :: 0 <= i < |more| ==> more[i] < start + window
    ensures var all := history + [Asked(key, limit, window, now)];
            var decisions, remaining := TraceFor(all, key).decisions,
                DecisionAt(TimesFor(history, key), now, limit, window).remaining;
              && decisions != [] && decisions[|decisions| - 1] == Allow(remaining)
              && AllowedFor(longer, key) == AllowedFor(all, key) + more[..AtMost(|more|, remaining)]
  {
    var all, times := history + [Asked(key, limit, window, now)], TimesFor(history, key);
    SteadyPrefix(all, longer, key, limit, window);
    LimiterIsRun(all, key, limit, window);
    LimiterIsRun(longer, key, limit, window);
    AskedLast(history, key, limit, window, now);
    assert (times + [now])[..|times|] == times;
    RemainingIsLeft(times, now, more, limit, window);
  }

  lemma SteadyPrefix(history: seq<Call>, longer: seq<Call>, key: string, limit: nat, window: nat)
    requires Steady(longer, key, limit, window) && history <= longer
    ensures Steady(history, key, limit, window)
  {
  }

  /** The limiter over all keys: a cache of entries that may let idle ones go. */
  class RateLimiter {
    var states: map<string, Entry>
    ghost var history: seq<Call>

    /** Each key's entry is what the calls so far make of it. */
    ghost predicate Valid()
      reads this
    {
      forall key :: TraceFor(history, key).entry == if key in states then Some(states[key]) else None
    }

    constructor ()
      ensures Valid() && history == []
    {
      states, history := map[], [];
    }

    /** `check`: decides by the key's own entry, and changes no other key's. */
    method Check(key: string, limit: nat, window: nat, now: int) returns (decision: RateDecision)
      requires Valid()
      modifies this
      ensures Valid() && history == old(history) + [Asked(key, limit, window, now)]
      ensures TraceFor(history, key).decisions == TraceFor(old(history), key).decisions + [decision]
      ensures forall other :: other != key ==> TraceFor(history, other) == TraceFor(old(history), other)
    {
      CallSnoc(history, Asked(key, limit, window, now));
      var cell := new Counter(now);
      if key in states {
        cell.count, cell.windowStart := states[key].state.count, states[key].state.windowStart;
      }
      decision := cell.Decide(limit, window, now);
      states := states[key := Entry(cell.State(), now)];
      history := history + [Asked(key, limit, window, now)];
    }

    /** The cache's idle eviction of one key. */
    method LetGo(key: string, now: int)
      requires Valid()
      modifies this
      ensures Valid() && history == old(history) + [Idle(key, now)]
      ensures key in states <==> key in old(states) && now - old(states)[key].lastAccess < ENTRY_TTL
      ensures forall other :: other != key ==> TraceFor(history, other) == TraceFor(old(history), other)
    {
      CallSnoc(history, Idle(key, now));
      if key in states && now - states[key].lastAccess >= ENTRY_TTL {
        states := states - {key};
      }
      history := history + [Idle(key, now)];
    }
  }

  lemma CallSnoc(history: seq<Call>, call: Call)
    ensures forall key :: TraceFor(history + [call], key)
                       == if call.key != key then TraceFor(history, key)
                          else match call
                            case Asked(_, limit, window, now) => StepOf(TraceFor(history, key), Request(now), limit,
                                window, true)
                            case Idle(_, now) => StepOf(TraceFor(history, key), Expire(now), 0, 0, true)
  {
    assert (history + [call])[..|history|] == history;
  }
}
