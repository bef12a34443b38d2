/** Which announcements are taken up, position by position on the trace: those polled
    at rest and those in an exchange that is heeded and completed, and no others. */
module AnnouncementTheorems {
  import opened Text
  import opened Protocol
  import opened Frames
  import opened LineTrace
  import opened Announcements

  // Positions

  function AttentionAt(log: seq<Op>): Attention {
    HeedAll(NO_HEED, log).attention
  }

  /** The lines heeded, in order, and those received so far in a heeded exchange that
      is still open. */
  datatype Spots = Spots(heeded: seq<nat>, held: seq<nat>)

  function SpotsStep(s: Spots, attention: Attention, n: nat, op: Op): Spots {
    match op
    case Received(line) =>
      (match attention
       case AtRest => Spots(s.heeded + [n], [])
       case Heeding(_) => if IsTerminator(line) then Spots(s.heeded + (s.held + [n]), []) else s.(held := s.held + [n])
       case _ => s.(held := []))
    case Silence => Spots(if attention.Heeding? then s.heeded + s.held else s.heeded, [])
    case Stored(_) => s
    case _ => s.(held := [])
  }

  function SpotsOf(log: seq<Op>): Spots {
    if log == [] then Spots([], [])
    else SpotsStep(SpotsOf(log[..|log| - 1]), AttentionAt(log[..|log| - 1]), |log| - 1, log[|log| - 1])
  }

  function HeldAt(log: seq<Op>): seq<nat> {
    SpotsOf(log).held
  }

  function HeededAt(log: seq<Op>): seq<nat> {
    SpotsOf(log).heeded
  }

  lemma SpotsSnoc(log: seq<Op>, op: Op)
    ensures SpotsOf(log + [op]) == SpotsStep(SpotsOf(log), AttentionAt(log), |log|, op)
  {
    assert (log + [op])[..|log|] == log;
  }

  // What the trace itself says

  predicate Closes(op: Op) {
    op.Silence? || (op.Received? && IsTerminator(op.line))
  }

  /** What ends the wait for an answer: the answer's end, unless it is the prompt that
      is awaited, or the loss of the port. */
  predicate Releases(f: Frame, op: Op) {
    op.WriteFailed? || op.ReadFailed? || op.Opened? || (!f.Header? && Closes(op))
  }

  /** The write at `w` is the last before the `k`-th step, and still being answered. */
  predicate Unreleased(log: seq<Op>, w: int, k: int) {
    && 0 <= w < k <= |log| && log[w].Wrote?
    && forall i :: w < i < k ==> !log[i].Wrote? && !Releases(log[w].frame, log[i])
  }

  /** Before its `k`-th step the driver is polling: nothing it wrote is being answered. */
  predicate PollingAt(log: seq<Op>, k: int) {
    forall w :: 0 <= w < k ==> !Unreleased(log, w, k)
  }

  /** The step at `k` is in the heeded exchange opened at `w` and completed at `c`. */
  predicate InExchange(log: seq<Op>, w: int, k: int, c: int) {
    0 <= w < k <= c < |log| && Unreleased(log, w, c) && IsHeeded(log[w].frame) && Closes(log[c])
  }

  ghost predicate Heeds(log: seq<Op>, k: int) {
    && 0 <= k < |log| && log[k].Received?
    && (PollingAt(log, k) || exists w, c :: InExchange(log, w, k, c))
  }

  // One step longer

  lemma UnreleasedBefore(log: seq<Op>, op: Op, w: int, k: int)
    requires k <= |log|
    ensures Unreleased(log + [op], w, k) == Unreleased(log, w, k)
  {
    assert forall i :: 0 <= i < |log| ==> (log + [op])[i] == log[i];
  }

  lemma UnreleasedAfter(log: seq<Op>, op: Op, w: int)
    ensures Unreleased(log + [op], w, |log| + 1)
        <==> if op.Wrote? then w == |log| else Unreleased(log, w, |log|) && !Releases(log[w].frame, op)
  {
    var all := log + [op];
    assert forall i :: 0 <= i < |log| ==> all[i] == log[i];
    assert all[|log|] == op;
  }

  lemma OnlyOneUnreleased(log: seq<Op>, v: int, w: int, k: int)
    requires Unreleased(log, v, k) && Unreleased(log, w, k)
    ensures v == w
  {
  }

  /** The write whose answer the attention is on. */
  ghost predicate Attends(log: seq<Op>, w: int, attention: Attention) {
    && Unreleased(log, w, |log|)
    && match attention
       case AtRest => false
       case Heeding(_) => IsHeeded(log[w].frame)
       case Ignoring => !IsHeeded(log[w].frame) && !log[w].frame.Header?
       case Prompting => log[w].frame.Header?
  }

  lemma WriteAttends(log: seq<Op>, f: Frame)
    ensures Attends(log + [Wrote(f)], |log|, AttentionAt(log + [Wrote(f)]))
  {
    HeedSnoc(NO_HEED, log, Wrote(f));
    UnreleasedAfter(log, Wrote(f), |log|);
  }

  lemma AttentionKept(log: seq<Op>, op: Op, w: int)
    requires !op.Wrote? && Attends(log, w, AttentionAt(log))
    ensures AttentionAt(log + [op]) == AtRest <==> Releases(log[w].frame, op)
    ensures !Releases(log[w].frame, op) ==> Attends(log + [op], w, AttentionAt(log + [op]))
  {
    HeedSnoc(NO_HEED, log, op);
    UnreleasedAfter(log, op, w);
    assert (log + [op])[w] == log[w];
  }

  /** The driver's attention is on the write still being answered, if there is one. */
  lemma {:induction false} AttentionIs(log: seq<Op>)
    ensures if AttentionAt(log) == AtRest then PollingAt(log, |log|) else exists w :: Attends(log, w, AttentionAt(log))
  {
    if log != [] {
      var front, op := log[..|log| - 1], log[|log| - 1];
      assert log == front + [op];
      AttentionIs(front);
      if op.Wrote? {
        WriteAttends(front, op.frame);
      } else if AttentionAt(front) == AtRest {
        HeedSnoc(NO_HEED, front, op);
        StillPolling(front, op);
      } else {
        var w :| Attends(front, w, AttentionAt(front));
        AttentionKept(front, op, w);
        if Releases(front[w].frame, op) {
          NowPolling(front, op, w);
        }
      }
    }
  }

  lemma StillPolling(log: seq<Op>, op: Op)
    requires PollingAt(log, |log|) && !op.Wrote?
    ensures PollingAt(log + [op], |log| + 1)
  {
    var all, n := log + [op], |log| + 1;
    forall w | 0 <= w < n
      ensures !Unreleased(all, w, n)
    {
      UnreleasedAfter(log, op, w);
    }
  }

  lemma NowPolling(log: seq<Op>, op: Op, w: int)
    requires Unreleased(log, w, |log|) && !op.Wrote? && Releases(log[w].frame, op)
    ensures PollingAt(log + [op], |log| + 1)
  {
    var all, n := log + [op], |log| + 1;
    forall v | 0 <= v < n
      ensures !Unreleased(all, v, n)
    {
      UnreleasedAfter(log, op, v);
      if Unreleased(log, v, |log|) {
        OnlyOneUnreleased(log, v, w, |log|);
      }
    }
  }

  lemma PollingMeansAtRest(log: seq<Op>)
    ensures AttentionAt(log) == AtRest <==> PollingAt(log, |log|)
  {
    AttentionIs(log);
  }

  lemma HeedingMeansOpen(log: seq<Op>)
    ensures AttentionAt(log).Heeding? <==> exists w :: Unreleased(log, w, |log|) && IsHeeded(log[w].frame)
  {
    AttentionIs(log);
    if w :| Unreleased(log, w, |log|) && IsHeeded(log[w].frame) {
      if AttentionAt(log) != AtRest {
        var v :| Attends(log, v, AttentionAt(log));
        OnlyOneUnreleased(log, v, w, |log|);
      }
    }
  }

  // The lines held and heeded are what the trace says

  /** A line in a heeded exchange that is still open. */
  ghost predicate Holds(log: seq<Op>, k: int) {
    && 0 <= k < |log| && log[k].Received?
    && exists w :: w < k && Unreleased(log, w, |log|) && IsHeeded(log[w].frame)
  }

  lemma HoldsSnoc(log: seq<Op>, op: Op, k: int)
    requires !op.Wrote?
    ensures Holds(log + [op], k) <==>
              && AttentionAt(log + [op]).Heeding?
              && (Holds(log, k) || (k == |log| && op.Received? && AttentionAt(log).Heeding?))
  {
    var all := log + [op];
    assert forall i :: 0 <= i < |log| ==> all[i] == log[i];
    HeedSnoc(NO_HEED, log, op);
    HeedingMeansOpen(log);
    HeedingMeansOpen(all);
    if Holds(all, k) {
      var w :| w < k && Unreleased(all, w, |all|) && IsHeeded(all[w].frame);
      UnreleasedAfter(log, op, w);
      assert Unreleased(log, w, |log|) && IsHeeded(log[w].frame);
    }
    if AttentionAt(all).Heeding? && (Holds(log, k) || (k == |log| && op.Received? && AttentionAt(log).Heeding?)) {
      var v :| Unreleased(all, v, |all|) && IsHeeded(all[v].frame);
      UnreleasedAfter(log, op, v);
      if Holds(log, k) {
        var w :| w < k && Unreleased(log, w, |log|) && IsHeeded(log[w].frame);
        OnlyOneUnreleased(log, v, w, |log|);
      }
      assert v < k && Unreleased(all, v, |all|) && IsHeeded(all[v].frame);
    }
  }

  lemma NothingHeld(log: seq<Op>, f: Frame, k: int)
    ensures !Holds(log + [Wrote(f)], k)
  {
    if Holds(log + [Wrote(f)], k) {
      var w :| w < k && Unreleased(log + [Wrote(f)], w, |log| + 1);
      UnreleasedAfter(log, Wrote(f), w);
    }
  }

  lemma {:induction false} HeldIsHolds(log: seq<Op>, k: int)
    ensures k in HeldAt(log) <==> Holds(log, k)
  {
    if log != [] {
      var front, op := log[..|log| - 1], log[|log| - 1];
      assert log == front + [op];
      if op.Wrote? {
        NothingHeld(front, op.frame, k);
      } else {
        HeldIsHolds(front, k);
        HeedSnoc(NO_HEED, front, op);
        HoldsSnoc(front, op, k);
        if !AttentionAt(front).Heeding? {
          HeedingMeansOpen(front);
          assert !Holds(front, k);
        }
      }
    }
  }

  lemma PollingBefore(log: seq<Op>, op: Op, k: int)
    requires 0 <= k <= |log|
    ensures PollingAt(log + [op], k) == PollingAt(log, k)
  {
    forall w | 0 <= w < k
      ensures Unreleased(log + [op], w, k) == Unreleased(log, w, k)
    {
      UnreleasedBefore(log, op, w, k);
    }
  }

  lemma ExchangeBefore(log: seq<Op>, op: Op, w: int, k: int, c: int)
    requires c < |log|
    ensures InExchange(log + [op], w, k, c) == InExchange(log, w, k, c)
  {
    UnreleasedBefore(log, op, w, c);
    assert forall i :: 0 <= i < |log| ==> (log + [op])[i] == log[i];
  }

  /** The exchange that one more step completes. */
  lemma ExchangeCompleted(log: seq<Op>, op: Op, w: int, k: int)
    ensures InExchange(log + [op], w, k, |log|)
        <==> w < k <= |log| && Unreleased(log, w, |log|) && IsHeeded(log[w].frame) && Closes(op)
  {
    UnreleasedBefore(log, op, w, |log|);
    var all := log + [op];
    assert all[|log|] == op && forall i :: 0 <= i < |log| ==> all[i] == log[i];
  }

  /** The position that one more step adds to those heeded, and those it completes. */
  ghost predicate NewlyHeeded(log: seq<Op>, op: Op, k: int) {
    || (k == |log| && op.Received? && (PollingAt(log, k) || (AttentionAt(log).Heeding? && IsTerminator(op.line))))
    || (Holds(log, k) && Closes(op))
  }

  lemma HeedsOnward(log: seq<Op>, op: Op, k: int)
    requires Heeds(log, k)
    ensures Heeds(log + [op], k)
  {
    PollingBefore(log, op, k);
    if !PollingAt(log, k) {
      var w, c :| InExchange(log, w, k, c);
      ExchangeBefore(log, op, w, k, c);
    }
  }

  lemma NewlyHeeds(log: seq<Op>, op: Op, k: int)
    requires NewlyHeeded(log, op, k)
    ensures Heeds(log + [op], k)
  {
    var all := log + [op];
    if k == |log| && PollingAt(log, k) {
      PollingBefore(log, op, k);
    } else {
      HeedingMeansOpen(log);
      var w :| w < k && Unreleased(log, w, |log|) && IsHeeded(log[w].frame);
      ExchangeCompleted(log, op, w, k);
    }
  }

  lemma HeedsBackward(log: seq<Op>, op: Op, k: int)
    requires Heeds(log + [op], k)
    ensures Heeds(log, k) || NewlyHeeded(log, op, k)
  {
    var all := log + [op];
    PollingBefore(log, op, k);
    if !PollingAt(log, k) {
      var w, c :| InExchange(all, w, k, c);
      if c < |log| {
        ExchangeBefore(log, op, w, k, c);
      } else {
        ExchangeCompleted(log, op, w, k);
        HeedingMeansOpen(log);
      }
    }
  }

  lemma NewlyIsHeld(log: seq<Op>, op: Op, k: int)
    ensures k in HeededAt(log + [op]) <==> k in HeededAt(log) || NewlyHeeded(log, op, k)
  {
    SpotsSnoc(log, op);
    HeldIsHolds(log, k);
    PollingMeansAtRest(log);
    HeedingMeansOpen(log);
  }

  /** A line is taken up exactly when it was polled at rest or stands in a heeded
      exchange that was completed. */
  lemma {:induction false} HeededIsHeeds(log: seq<Op>, k: int)
    ensures k in HeededAt(log) <==> Heeds(log, k)
  {
    if log != [] {
      var front, op := log[..|log| - 1], log[|log| - 1];
      assert log == front + [op];
      HeededIsHeeds(front, k);
      NewlyIsHeld(front, op, k);
      if Heeds(front, k) {
        HeedsOnward(front, op, k);
      }
      if NewlyHeeded(front, op, k) {
        NewlyHeeds(front, op, k);
      }
      if Heeds(log, k) {
        HeedsBackward(front, op, k);
      }
    }
  }

  // What the lines heeded announce

  function LineAt(log: seq<Op>, k: nat): string {
    if k < |log| && log[k].Received? then log[k].line else ""
  }

  /** The indices announced at some positions, in order. */
  function IndicesAt(log: seq<Op>, positions: seq<nat>): seq<nat> {
    if positions == [] then []
    else IndicesAt(log, positions[..|positions| - 1]) + Announced(LineAt(log, positions[|positions| - 1]))
  }

  lemma {:induction false} IndicesConcat(log: seq<Op>, a: seq<nat>, b: seq<nat>)
    ensures IndicesAt(log, a + b) == IndicesAt(log, a) + IndicesAt(log, b)
  {
    if b == [] {
      assert a + b == a;
    } else {
      var front, last := b[..|b| - 1], b[|b| - 1];
      assert (a + b)[..|a + b| - 1] == a + front;
      IndicesConcat(log, a, front);
      Associate(IndicesAt(log, a), IndicesAt(log, front), Announced(LineAt(log, last)));
    }
  }

  lemma {:induction false} IndicesOnward(log: seq<Op>, op: Op, positions: seq<nat>)
    requires forall i :: 0 <= i < |positions| ==> positions[i] < |log|
    ensures IndicesAt(log + [op], positions) == IndicesAt(log, positions)
  {
    if positions != [] {
      IndicesOnward(log, op, positions[..|positions| - 1]);
      assert (log + [op])[positions[|positions| - 1]] == log[positions[|positions| - 1]];
    }
  }

  predicate Ascending(positions: seq<nat>, from: nat, to: nat) {
    && (forall i :: 0 <= i < |positions| ==> from <= positions[i] < to)
    && (forall i, j :: 0 <= i < j < |positions| ==> positions[i] < positions[j])
  }

  lemma AscendingConcat(a: seq<nat>, b: seq<nat>, from: nat, mid: nat, to: nat)
    requires Ascending(a, from, mid) && Ascending(b, mid, to) && from <= mid <= to
    ensures Ascending(a + b, from, to)
  {
  }

  /** No line is held while no heeded exchange is open. */
  lemma NothingHeldAtRest(log: seq<Op>)
    requires !AttentionAt(log).Heeding?
    ensures HeldAt(log) == []
  {
    if HeldAt(log) != [] {
      HeldIsHolds(log, HeldAt(log)[0]);
      HeedingMeansOpen(log);
    }
  }

  /** The lines held come after those heeded, each list in order. */
  predicate InPlace(s: Spots, split: nat, n: nat) {
    split <= n && Ascending(s.heeded, 0, split) && Ascending(s.held, split, n)
  }

  lemma {:induction false} HeededInOrder(log: seq<Op>) returns (split: nat)
    ensures InPlace(SpotsOf(log), split, |log|)
  {
    split := 0;
    if log != [] {
      var front, op := log[..|log| - 1], log[|log| - 1];
      split := HeededInOrder(front);
      if !AttentionAt(front).Heeding? {
        NothingHeldAtRest(front);
      }
      split := NextInOrder(SpotsOf(front), AttentionAt(front), |front|, op, split);
    }
  }

  lemma NextInOrder(s: Spots, attention: Attention, n: nat, op: Op, before: nat) returns (split: nat)
    requires InPlace(s, before, n) && (!attention.Heeding? ==> s.held == [])
    ensures InPlace(SpotsStep(s, attention, n, op), split, n + 1)
  {
    AscendingConcat(s.heeded, s.held, 0, before, n);
    AscendingConcat(s.heeded + s.held, [n], 0, n, n + 1);
    Associate(s.heeded, s.held, [n]);
    split := if SpotsStep(s, attention, n, op).held == [] then n + 1 else before;
  }

  // The announcements heeded are those at the positions heeded

  predicate Accounted(h: Heed, s: Spots, indices: seq<nat> -> seq<nat>) {
    && h.announced == indices(s.heeded)
    && (h.attention.Heeding? ==> h.attention.held == indices(s.held))
  }

  function Indices(log: seq<Op>): seq<nat> -> seq<nat> {
    (positions: seq<nat>) => IndicesAt(log, positions)
  }

  ghost predicate AccountedFor(log: seq<Op>, h: Heed, s: Spots) {
    Accounted(h, s, Indices(log))
  }

  /** What one more step makes of the indices at the positions so far. */
  predicate Grown(s: Spots, n: nat, op: Op, before: seq<nat> -> seq<nat>, after: seq<nat> -> seq<nat>) {
    && after(s.heeded) == before(s.heeded) && after(s.held) == before(s.held)
    && after(s.heeded + s.held) == before(s.heeded) + before(s.held)
    && (op.Received? ==>
          && after(s.heeded + [n]) == before(s.heeded) + Announced(op.line)
          && after(s.held + [n]) == before(s.held) + Announced(op.line)
          && after(s.heeded + (s.held + [n])) == before(s.heeded) + (before(s.held) + Announced(op.line)))
  }

  lemma StepAccounted(h: Heed, s: Spots, n: nat, op: Op, before: seq<nat> -> seq<nat>, after: seq<nat> -> seq<nat>)
    requires Accounted(h, s, before) && Grown(s, n, op, before, after) && after([]) == []
    ensures Accounted(HeedStep(h, op), SpotsStep(s, h.attention, n, op), after)
  {
  }

  lemma OneMoreIndex(log: seq<Op>, positions: seq<nat>, op: Op)
    requires op.Received? && forall i :: 0 <= i < |positions| ==> positions[i] < |log|
    ensures IndicesAt(log + [op], positions + [|log|]) == IndicesAt(log, positions) + Announced(op.line)
  {
    var all := log + [op];
    IndicesOnward(log, op, positions);
    assert (positions + [|log|])[..|positions|] == positions && all[|log|] == op;
  }

  /** All positions so far are steps of the trace. */
  predicate InRange(s: Spots, n: nat) {
    && (forall i :: 0 <= i < |s.held| ==> s.held[i] < n)
    && (forall i :: 0 <= i < |s.heeded| ==> s.heeded[i] < n)
  }

  lemma HeldInRange(log: seq<Op>)
    ensures InRange(SpotsOf(log), |log|)
  {
    var split := HeededInOrder(log);
  }

  lemma {:induction false} AnnouncedIsAt(log: seq<Op>)
    ensures AccountedFor(log, HeedAll(NO_HEED, log), SpotsOf(log))
  {
    if log != [] {
      var front, op := log[..|log| - 1], log[|log| - 1];
      assert log == front + [op];
      AnnouncedIsAt(front);
      HeldInRange(front);
      AccountedOnward(front, HeedAll(NO_HEED, front), SpotsOf(front), op);
    }
  }

  lemma AccountedOnward(log: seq<Op>, h: Heed, s: Spots, op: Op)
    requires AccountedFor(log, h, s) && InRange(s, |log|)
    ensures AccountedFor(log + [op], HeedStep(h, op), SpotsStep(s, h.attention, |log|, op))
  {
    IndicesGrow(log, s, op);
    StepAccounted(h, s, |log|, op, Indices(log), Indices(log + [op]));
  }

  lemma IndicesGrow(log: seq<Op>, s: Spots, op: Op)
    requires InRange(s, |log|)
    ensures Grown(s, |log|, op, Indices(log), Indices(log + [op]))
  {
    IndicesOnward(log, op, s.heeded);
    IndicesOnward(log, op, s.held);
    IndicesConcat(log + [op], s.heeded, s.held);
    if op.Received? {
      OneMoreIndex(log, s.heeded, op);
      OneMoreIndex(log, s.held, op);
      IndicesConcat(log + [op], s.heeded, s.held + [|log|]);
    }
  }

  // Between two moments

  /** What a longer trace heeds beyond a shorter one at rest is all in the new part. */
  lemma {:induction false} HeededSince(log: seq<Op>, longer: seq<Op>) returns (since: seq<nat>)
    requires log <= longer && AttentionAt(log) == AtRest
    ensures HeededAt(longer) == HeededAt(log) + since
    ensures forall i :: 0 <= i < |since| ==> since[i] >= |log|
    ensures forall i :: 0 <= i < |HeldAt(longer)| ==> HeldAt(longer)[i] >= |log|
    decreases |longer|
  {
    if longer == log {
      NothingHeldAtRest(log);
      since := [];
    } else {
      var front, op := longer[..|longer| - 1], longer[|longer| - 1];
      since := HeededSince(log, front);
      var more := Beyond(front, op);
      Associate(HeededAt(log), since, more);
      since := since + more;
      assert longer == front + [op];
    }
  }

  lemma Beyond(log: seq<Op>, op: Op) returns (more: seq<nat>)
    ensures HeededAt(log + [op]) == HeededAt(log) + more
    ensures forall i :: 0 <= i < |more| ==> more[i] in HeldAt(log) || more[i] == |log|
    ensures forall i :: 0 <= i < |HeldAt(log + [op])| ==>
              HeldAt(log + [op])[i] in HeldAt(log) || HeldAt(log + [op])[i] == |log|
  {
    SpotsSnoc(log, op);
    more := BeyondStep(SpotsOf(log), AttentionAt(log), |log|, op);
  }

  lemma BeyondStep(s: Spots, attention: Attention, n: nat, op: Op) returns (more: seq<nat>)
    ensures var s' := SpotsStep(s, attention, n, op);
              && s'.heeded == s.heeded + more
              && (forall i :: 0 <= i < |more| ==> more[i] in s.held || more[i] == n)
              && (forall i :: 0 <= i < |s'.held| ==> s'.held[i] in s.held || s'.held[i] == n)
  {
    more := if op.Received? && attention == AtRest then [n]
            else if op.Received? && attention.Heeding? && IsTerminator(op.line) then s.held + [n]
            else if op.Silence? && attention.Heeding? then s.held
            else [];
  }

  function Kept(positions: seq<nat>, keep: nat -> bool): seq<nat> {
    if positions == [] then []
    else
      var last := positions[|positions| - 1];
      Kept(positions[..|positions| - 1], keep) + if keep(last) then [last] else []
  }

  lemma {:induction false} KeptOrdered(positions: seq<nat>, keep: nat -> bool, from: nat, to: nat)
    requires Ascending(positions, from, to)
    ensures Ascending(Kept(positions, keep), from, to)
  {
    if positions != [] {
      var front, last := positions[..|positions| - 1], positions[|positions| - 1];
      KeptOrdered(front, keep, from, last);
      AscendingConcat(Kept(front, keep), if keep(last) then [last] else [], from, last, to);
    }
  }

  lemma {:induction false} KeptMembers(positions: seq<nat>, keep: nat -> bool, k: nat)
    ensures k in Kept(positions, keep) <==> k in positions && keep(k)
  {
    if positions != [] {
      var front, last := positions[..|positions| - 1], positions[|positions| - 1];
      KeptMembers(front, keep, k);
      assert positions == front + [last];
    }
  }

  function Telling(log: seq<Op>): nat -> bool {
    (k: nat) => Announced(LineAt(log, k)) != []
  }

  /** The positions among some that announce anything. */
  function Announcing(log: seq<Op>, positions: seq<nat>): seq<nat> {
    Kept(positions, Telling(log))
  }

  lemma AnnouncingOrdered(log: seq<Op>, positions: seq<nat>, from: nat, to: nat)
    requires Ascending(positions, from, to)
    ensures Ascending(Announcing(log, positions), from, to)
  {
    KeptOrdered(positions, Telling(log), from, to);
  }

  lemma AnnouncingMembers(log: seq<Op>, positions: seq<nat>, k: nat)
    ensures k in Announcing(log, positions) <==> k in positions && Announced(LineAt(log, k)) != []
  {
    KeptMembers(positions, Telling(log), k);
  }

  /** Each announces one index. */
  lemma {:induction false} AnnouncingMatches(log: seq<Op>, positions: seq<nat>)
    ensures |IndicesAt(log, positions)| == |Announcing(log, positions)|
    ensures forall j :: 0 <= j < |Announcing(log, positions)| ==>
              Announced(LineAt(log, Announcing(log, positions)[j])) == [IndicesAt(log, positions)[j]]
  {
    if positions != [] {
      var front, last := positions[..|positions| - 1], positions[|positions| - 1];
      AnnouncingMatches(log, front);
      MatchOneMore(log, Announcing(log, front), IndicesAt(log, front), last);
    }
  }

  lemma MatchOneMore(log: seq<Op>, positions: seq<nat>, indices: seq<nat>, last: nat)
    requires |positions| == |indices|
    requires forall j :: 0 <= j < |positions| ==> Announced(LineAt(log, positions[j])) == [indices[j]]
    ensures var positions', indices' := positions + (if Announced(LineAt(log, last)) == [] then [] else [last]),
                                        indices + Announced(LineAt(log, last));
              && |positions'| == |indices'|
              && forall j :: 0 <= j < |positions'| ==> Announced(LineAt(log, positions'[j])) == [indices'[j]]
  {
  }
}
