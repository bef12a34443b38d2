/** A session (`run_session_inner` of `modem/session.rs`): announced messages,
    status refreshes and requests served in turn on one connection. */
module Session {
  import opened Text
  import opened Cmgr
  import opened LineTrace
  import opened Announcements
  import opened SideTrace
  import opened Transport
  import opened Sending
  import opened Inbound
  import opened Setup
  import opened Requests

  // The record of a session

  /** An index handled, and the trace before and after. */
  datatype VisitAt = VisitAt(visit: Visit, before: seq<Op>, after: seq<Op>)

  function IndicesOf(visits: seq<VisitAt>): seq<nat> {
    if visits == [] then [] else IndicesOf(visits[..|visits| - 1]) + [visits[|visits| - 1].visit.index]
  }

  function TouchesOf(visits: seq<VisitAt>): seq<Touch> {
    if visits == [] then [] else TouchesOf(visits[..|visits| - 1]) + visits[|visits| - 1].visit.touches
  }

  function RowsIn(visits: seq<VisitAt>): seq<ParsedInbound> {
    if visits == [] then [] else RowsIn(visits[..|visits| - 1]) + RowsOf(visits[|visits| - 1].visit.handled)
  }

  function AuditsIn(visits: seq<VisitAt>): seq<Audit> {
    if visits == [] then []
    else
      var last := visits[|visits| - 1].visit;
      AuditsIn(visits[..|visits| - 1]) + AuditsOf(last.handled, last.index)
  }

  /** The port was not lost in the visit. */
  predicate Completed(visit: Visit) {
    visit.handled != Interrupted && !(visit.handled.Kept? && visit.handled.deleted.Lost?)
  }

  predicate AllCompleted(visits: seq<VisitAt>) {
    forall i :: 0 <= i < |visits| ==> Completed(visits[i].visit)
  }

  predicate AllButLastCompleted(visits: seq<VisitAt>) {
    forall i :: 0 <= i < |visits| - 1 ==> Completed(visits[i].visit)
  }

  function TriesOf(served: seq<Served>): seq<Attempt> {
    if served == [] then [] else TriesOf(served[..|served| - 1]) + served[|served| - 1].tries
  }

  function RequestsServed(served: seq<Served>): seq<Request> {
    if served == [] then [] else RequestsServed(served[..|served| - 1]) + [served[|served| - 1].request]
  }

  /** The visits happened one after another on the trace between two moments. */
  ghost predicate VisitsOn(from: seq<Op>, to: seq<Op>, visits: seq<VisitAt>)
    decreases |visits|
  {
    && from <= to
    && (visits != [] ==>
          var last := visits[|visits| - 1];
          VisitsOn(from, last.before, visits[..|visits| - 1]) && VisitedOn(last.before, last.after, last.visit)
              && last.after <= to)
  }

  /** So did the requests. */
  ghost predicate ServedOn(from: seq<Op>, to: seq<Op>, served: seq<Served>, max: nat)
    decreases |served|
  {
    && from <= to
    && (served != [] ==>
          var last := served[|served| - 1];
          ServedOn(from, last.before, served[..|served| - 1], max) && ServedRight(last, max) && last.after <= to)
  }

  datatype Start = Start(log: seq<Op>, seen: Monitor, rows: seq<ParsedInbound>, audits: seq<Audit>)

  /** The visits and the requests account for all that was done since: on the modem,
      on the line, in the rows and in the audit log. */
  ghost predicate Accounts(start: Start, log: seq<Op>, seen: Monitor, rows: seq<ParsedInbound>, audits: seq<Audit>,
                           visits: seq<VisitAt>, served: seq<Served>, max: nat)
  {
    && VisitsOn(start.log, log, visits) && ServedOn(start.log, log, served, max)
    && seen.inbound.touches == start.seen.inbound.touches + TouchesOf(visits)
    && seen.sends == start.seen.sends + TriesOf(served)
    && rows == start.rows + RowsIn(visits) && audits == start.audits + AuditsIn(visits)
  }

  lemma NothingYet(start: Start, max: nat)
    ensures Accounts(start, start.log, start.seen, start.rows, start.audits, [], [], max)
  {
    assert start.seen.inbound.touches + [] == start.seen.inbound.touches && start.seen.sends + [] == start.seen.sends;
    assert start.rows + [] == start.rows && start.audits + [] == start.audits;
  }

  lemma OnLonger(from: seq<Op>, to: seq<Op>, longer: seq<Op>, visits: seq<VisitAt>, served: seq<Served>, max: nat)
    requires VisitsOn(from, to, visits) && ServedOn(from, to, served, max) && to <= longer
    ensures VisitsOn(from, longer, visits) && ServedOn(from, longer, served, max)
  {
  }

  lemma VisitSnoc(visits: seq<VisitAt>, visit: VisitAt)
    ensures IndicesOf(visits + [visit]) == IndicesOf(visits) + [visit.visit.index]
    ensures TouchesOf(visits + [visit]) == TouchesOf(visits) + visit.visit.touches
    ensures RowsIn(visits + [visit]) == RowsIn(visits) + RowsOf(visit.visit.handled)
    ensures AuditsIn(visits + [visit]) == AuditsIn(visits) + AuditsOf(visit.visit.handled, visit.visit.index)
  {
    assert (visits + [visit])[..|visits|] == visits;
  }

  lemma VisitsMore(from: seq<Op>, visits: seq<VisitAt>, visit: VisitAt)
    requires VisitsOn(from, visit.before, visits) && VisitedOn(visit.before, visit.after, visit.visit)
    ensures VisitsOn(from, visit.after, visits + [visit])
  {
    assert (visits + [visit])[..|visits|] == visits;
  }

  /** One more index handled. */
  lemma VisitAccounted(start: Start, seen: Monitor, rows: seq<ParsedInbound>, audits: seq<Audit>, visits: seq<VisitAt>,
                       served: seq<Served>, max: nat, visit: VisitAt, seen': Monitor, rows': seq<ParsedInbound>,
                           audits': seq<Audit>)
    requires Accounts(start, visit.before, seen, rows, audits, visits, served, max)
    requires VisitedOn(visit.before, visit.after, visit.visit)
    requires seen'.inbound.touches == seen.inbound.touches + visit.visit.touches && seen'.sends == seen.sends
    requires rows' == rows + RowsOf(visit.visit.handled)
    requires audits' == audits + AuditsOf(visit.visit.handled, visit.visit.index)
    ensures Accounts(start, visit.after, seen', rows', audits', visits + [visit], served, max)
  {
    VisitSnoc(visits, visit);
    VisitsMore(start.log, visits, visit);
    OnLonger(start.log, visit.before, visit.after, visits, served, max);
    Associate(start.seen.inbound.touches, TouchesOf(visits), visit.visit.touches);
    Associate(start.rows, RowsIn(visits), RowsOf(visit.visit.handled));
    Associate(start.audits, AuditsIn(visits), AuditsOf(visit.visit.handled, visit.visit.index));
  }

  lemma ServedSnoc(served: seq<Served>, next: Served)
    ensures RequestsServed(served + [next]) == RequestsServed(served) + [next.request]
    ensures TriesOf(served + [next]) == TriesOf(served) + next.tries
  {
    assert (served + [next])[..|served|] == served;
  }

  lemma ServedMore(from: seq<Op>, served: seq<Served>, next: Served, max: nat)
    requires ServedOn(from, next.before, served, max) && ServedRight(next, max)
    ensures ServedOn(from, next.after, served + [next], max)
  {
    assert (served + [next])[..|served|] == served;
  }

  /** One more request served. */
  lemma RequestAccounted(start: Start, seen: Monitor, rows: seq<ParsedInbound>, audits: seq<Audit>,
                         visits: seq<VisitAt>,
                         served: seq<Served>, max: nat, next: Served, seen': Monitor)
    requires Accounts(start, next.before, seen, rows, audits, visits, served, max) && ServedRight(next, max)
    requires seen'.inbound == seen.inbound && seen'.sends == seen.sends + next.tries
    ensures Accounts(start, next.after, seen', rows, audits, visits, served + [next], max)
  {
    ServedSnoc(served, next);
    ServedMore(start.log, served, next, max);
    OnLonger(start.log, next.before, next.after, visits, served, max);
    Associate(start.seen.sends, TriesOf(served), next.tries);
  }

  // The state between two steps of the loop

  ghost predicate Recorded(wire: Wire, store: MessageStore, snapshot: Snapshot, pending: PendingIndices, start: Start,
                           visits: seq<VisitAt>, served: seq<Served>, max: nat)
    reads wire, store, snapshot, pending
  {
    && Sound(wire) && Tied(wire, store) && Current(wire, snapshot) && Abreast(wire, pending)
    && pending.taken == IndicesOf(visits)
    && Accounts(start, wire.log, wire.seen, store.rows, store.audits, visits, served, max)
  }

  /** One index taken from the queue and handled. */
  method HandleNext(wire: Wire, store: MessageStore, snapshot: Snapshot, pending: PendingIndices, ghost start: Start,
                    ghost visits: seq<VisitAt>, ghost served: seq<Served>, ghost max: nat)
    returns (ok: bool, ghost all: seq<VisitAt>)
    requires Recorded(wire, store, snapshot, pending, start, visits, served, max) && pending.queue != []
    requires AllCompleted(visits)
    modifies wire, store, pending
    ensures Recorded(wire, store, snapshot, pending, start, all, served, max)
    ensures ok == !wire.dead && (old(wire.dead) ==> wire.dead) && old(wire.log) <= wire.log
    ensures AllButLastCompleted(all) && (ok ==> AllCompleted(all))
    ensures |wire.script| <= |old(wire.script)| && (ok ==> |wire.script| < |old(wire.script)|)
  {
    ghost var log, seen, rows, audits := wire.log, wire.seen, store.rows, store.audits;
    var index := pending.Pop();
    ghost var visit;
    ok, visit := HandleInbound(wire, store, index, pending);
    ghost var at := VisitAt(visit, log, wire.log);
    VisitAccounted(start, seen, rows, audits, visits, served, max, at, wire.seen, store.rows, store.audits);
    VisitSnoc(visits, at);
    all := visits + [at];
  }

  /** The inner loop of a session: pending indices, first announced first, until none
      is left; reads and deletes may announce more. */
  method DrainPending(wire: Wire, store: MessageStore, snapshot: Snapshot, pending: PendingIndices, ghost start: Start,
                      ghost visits: seq<VisitAt>, ghost served: seq<Served>, ghost max: nat)
    returns (ok: bool, ghost all: seq<VisitAt>)
    requires Recorded(wire, store, snapshot, pending, start, visits, served, max) && AllCompleted(visits)
    modifies wire, store, pending
    ensures Recorded(wire, store, snapshot, pending, start, all, served, max)
    ensures AllButLastCompleted(all) && (ok ==> AllCompleted(all))
    ensures (old(wire.dead) ==> wire.dead) && |wire.script| <= |old(wire.script)| && old(wire.log) <= wire.log
    ensures if ok then pending.queue == [] else wire.dead
    ensures old(pending.queue) == [] ==> ok && unchanged(wire)
  {
    all := visits;
    while pending.queue != []
      invariant Recorded(wire, store, snapshot, pending, start, all, served, max) && AllCompleted(all)
      invariant (old(wire.dead) ==> wire.dead) && |wire.script| <= |old(wire.script)| && old(wire.log) <= wire.log
      invariant old(pending.queue) == [] ==> pending.queue == [] && unchanged(wire)
      decreases |wire.script|
    {
      ok, all := HandleNext(wire, store, snapshot, pending, start, all, served, max);
      if !ok {
        return;
      }
    }
    ok := true;
  }

  /** What the two awaited sources of a turn come to: the channel is closed, a
      request, or the line. */
  datatype Pick = Closed | Ask(request: Request) | Listen

  /** `now` and `refreshed` are the two clock readings around a status refresh. */
  datatype Turn = Turn(now: nat, refreshed: nat, pick: Pick)

  datatype SessionOutcome = ChannelClosed | PortLost

  const STATUS_REFRESH_SECS := 30

  predicate Due(lastRefresh: Option<nat>, now: nat) {
    lastRefresh.None? || now - lastRefresh.value >= STATUS_REFRESH_SECS
  }

  predicate AdmissibleTurns(agenda: seq<Turn>) {
    forall i :: 0 <= i < |agenda| && agenda[i].pick.Ask? ==> Admissible(agenda[i].pick.request)
  }

  predicate NoneClosed(turns: seq<Turn>) {
    forall i :: 0 <= i < |turns| ==> turns[i].pick != Closed
  }

  function PickRequests(pick: Pick): seq<Request> {
    match pick case Ask(request) => [request] case _ => []
  }

  function RequestsIn(turns: seq<Turn>): seq<Request> {
    if turns == [] then [] else RequestsIn(turns[..|turns| - 1]) + PickRequests(turns[|turns| - 1].pick)
  }

  lemma TurnSnoc(turns: seq<Turn>, turn: Turn)
    ensures RequestsIn(turns + [turn]) == RequestsIn(turns) + PickRequests(turn.pick)
  {
    assert (turns + [turn])[..|turns|] == turns;
  }

  /** Waiting for the line: an announcement joins the queue. */
  method Poll(wire: Wire, pending: PendingIndices) returns (ok: bool, ghost read: LineRead)
    requires Sound(wire) && Abreast(wire, pending)
    modifies wire, pending
    ensures Sound(wire) && wire.seen == old(wire.seen) && ok == !wire.dead && (old(wire.dead) ==> wire.dead)
    ensures |wire.script| <= |old(wire.script)| && wire.side.view == old(wire.side).view
    ensures Abreast(wire, pending) && pending.taken == old(pending.taken)
    ensures wire.log == old(wire.log) + [ReadOp(read)]
  {
    var r := wire.ReadLine();
    read := r;
    AtRestRead(old(wire.seen), r);
    IdleRead(old(wire.side), ReadOp(r));
    if r.Line? {
      pending.ScanLine(r.text);
    }
    ok := !r.PortError?;
  }

  lemma AtRestRead(m: Monitor, read: LineRead)
    requires Quiet(m) && (!read.PortError? ==> m.line.mode == CommandMode)
    ensures Step(m, ReadOp(read)) == m
  {
  }

  /** Where a turn stands on the trace: its refresh, if one was due, and then its pick. */
  datatype Span = Span(before: seq<Op>, refreshed: seq<Op>, after: seq<Op>)

  predicate RefreshIs(before: seq<Op>, after: seq<Op>, due: bool) {
    before <= after && Writes(after) == Writes(before) + if due then StatusFrames() else []
  }

  /** What a pick does on the line: a closed channel nothing, and listening one read. */
  ghost predicate PickIs(before: seq<Op>, after: seq<Op>, pick: Pick) {
    && before <= after
    && match pick
       case Closed => after == before
       case Ask(_) => true
       case Listen => exists read :: after == before + [ReadOp(read)]
  }

  ghost predicate SpanIs(span: Span, due: bool, pick: Pick) {
    RefreshIs(span.before, span.refreshed, due) && PickIs(span.refreshed, span.after, pick)
  }

  /** When the last refresh of some turns was, all of which got through. */
  function LastRefresh(turns: seq<Turn>): Option<nat> {
    if turns == [] then None
    else
      var before, turn := LastRefresh(turns[..|turns| - 1]), turns[|turns| - 1];
      if Due(before, turn.now) then Some(turn.refreshed) else before
  }

  /** The turns stand one after another on the trace between two moments. */
  ghost predicate TurnsOn(from: seq<Op>, to: seq<Op>, turns: seq<Turn>, spans: seq<Span>)
    decreases |turns|
  {
    && from <= to && |spans| == |turns|
    && (turns != [] ==>
          var n := |turns| - 1;
          && TurnsOn(from, spans[n].before, turns[..n], spans[..n])
          && SpanIs(spans[n], Due(LastRefresh(turns[..n]), turns[n].now), turns[n].pick) && spans[n].after <= to)
  }

  lemma TurnMore(from: seq<Op>, log: seq<Op>, to: seq<Op>, turns: seq<Turn>, spans: seq<Span>, turn: Turn, span: Span)
    requires TurnsOn(from, log, turns, spans) && log <= span.before && span.after <= to
    requires SpanIs(span, Due(LastRefresh(turns), turn.now), turn.pick)
    ensures TurnsOn(from, to, turns + [turn], spans + [span])
    ensures LastRefresh(turns + [turn])
              == if Due(LastRefresh(turns), turn.now) then Some(turn.refreshed) else LastRefresh(turns)
  {
    TurnsLater(from, log, span.before, turns, spans);
    LastTurn(turns, turn);
    LastTurn(spans, span);
    EarlierThan(from, log, span.before, span.after, to);
  }

  lemma LastTurn<T>(s: seq<T>, t: T)
    ensures |s + [t]| == |s| + 1 && (s + [t])[..|s|] == s && (s + [t])[|s|] == t
  {
  }

  lemma EarlierThan(from: seq<Op>, log: seq<Op>, before: seq<Op>, after: seq<Op>, to: seq<Op>)
    requires from <= log <= before && after <= to
    ensures from <= before && (before <= after ==> from <= to)
  {
  }

  lemma TurnsLater(from: seq<Op>, to: seq<Op>, longer: seq<Op>, turns: seq<Turn>, spans: seq<Span>)
    requires TurnsOn(from, to, turns, spans) && to <= longer
    ensures TurnsOn(from, longer, turns, spans)
  {
  }

  predicate ClockForward(turns: seq<Turn>) {
    && (forall i :: 0 <= i < |turns| ==> turns[i].now <= turns[i].refreshed)
    && (forall i, j :: 0 <= i < j < |turns| ==> turns[i].refreshed <= turns[j].now)
  }

  predicate RefreshesAt(turns: seq<Turn>, i: int) {
    0 <= i < |turns| && Due(LastRefresh(turns[..i]), turns[i].now)
  }

  lemma RefreshesFront(turns: seq<Turn>, n: nat)
    requires n <= |turns|
    ensures forall i :: 0 <= i < n ==> RefreshesAt(turns, i) == RefreshesAt(turns[..n], i)
  {
    forall i | 0 <= i < n
      ensures RefreshesAt(turns, i) == RefreshesAt(turns[..n], i)
    {
      assert turns[..i] == turns[..n][..i];
    }
  }

  ghost predicate IsLatest(turns: seq<Turn>, last: Option<nat>) {
    && (forall i :: RefreshesAt(turns, i) ==> last.Some? && turns[i].refreshed <= last.value)
    && (last.Some? ==> exists i :: RefreshesAt(turns, i) && turns[i].refreshed == last.value)
  }

  lemma {:induction false} LastRefreshIsLatest(turns: seq<Turn>)
    requires ClockForward(turns)
    ensures IsLatest(turns, LastRefresh(turns))
  {
    if turns != [] {
      var n := |turns| - 1;
      LastRefreshIsLatest(turns[..n]);
      LatestStep(turns, n, LastRefresh(turns[..n]), LastRefresh(turns));
    }
  }

  lemma LatestStep(turns: seq<Turn>, n: nat, before: Option<nat>, after: Option<nat>)
    requires ClockForward(turns) && |turns| == n + 1 && before == LastRefresh(turns[..n])
              && IsLatest(turns[..n], before)
    requires after == if Due(before, turns[n].now) then Some(turns[n].refreshed) else before
    ensures IsLatest(turns, after)
  {
    RefreshesFront(turns, n);
    if RefreshesAt(turns, n) {
      assert after == Some(turns[n].refreshed);
      forall i | RefreshesAt(turns, i)
        ensures turns[i].refreshed <= turns[n].refreshed
      {
        if i < n {
          assert turns[i].refreshed <= turns[n].now;
        }
      }
    } else {
      assert after == before;
      forall i | RefreshesAt(turns, i)
        ensures before.Some? && turns[i].refreshed <= before.value
      {
        assert i < n && RefreshesAt(turns[..n], i);
      }
      if before.Some? {
        var i :| RefreshesAt(turns[..n], i) && turns[..n][i].refreshed == before.value;
        assert RefreshesAt(turns, i);
      }
    }
  }

  /** A turn refreshes the status exactly when every refresh before it in the session,
      if any, is at least 30 s old. */
  lemma RefreshCadence(turns: seq<Turn>, j: nat)
    requires ClockForward(turns) && j < |turns|
    ensures RefreshesAt(turns, j)
            <==> forall i :: 0 <= i < j && RefreshesAt(turns, i) ==> turns[j].now - turns[i].refreshed >= 30
  {
    LastRefreshIsLatest(turns[..j]);
    RefreshesFront(turns, j);
  }

  method RefreshIfDue(wire: Wire, snapshot: Snapshot, lastRefresh: Option<nat>, turn: Turn)
    returns (ok: bool, refreshed: Option<nat>)
    requires Sound(wire) && Current(wire, snapshot)
    modifies wire, snapshot
    ensures Sound(wire) && wire.seen == old(wire.seen) && wire.side.heed == old(wire.side).heed
              && Current(wire, snapshot)
    ensures (old(wire.dead) ==> wire.dead) && |wire.script| <= |old(wire.script)| && old(wire.log) <= wire.log
    ensures !ok ==> wire.dead
    ensures refreshed == if ok && Due(lastRefresh, turn.now) then Some(turn.refreshed) else lastRefresh
    ensures ok && Due(lastRefresh, turn.now) ==>
              snapshot.serialConnected && !wire.dead && wire.side.written == old(wire.side).written + StatusFrames()
    ensures !Due(lastRefresh, turn.now) ==> ok && wire.log == old(wire.log)
    ensures !(ok && Due(lastRefresh, turn.now)) ==> unchanged(snapshot)
    ensures ok ==> RefreshIs(old(wire.log), wire.log, Due(lastRefresh, turn.now))
    ensures Due(lastRefresh, turn.now) && !old(wire.dead) ==>
              StatusRan(old(wire.log), old(wire.script), wire.log, wire.script, ok)
  {
    SideOf(wire);
    SideIs(wire.log);
    if !Due(lastRefresh, turn.now) {
      assert Writes(wire.log) + [] == Writes(wire.log);
      return true, lastRefresh;
    }
    ghost var sim, network;
    ok, sim, network := RefreshStatus(wire, snapshot);
    refreshed := if ok then Some(turn.refreshed) else lastRefresh;
    SideOf(wire);
    SideIs(wire.log);
  }

  /** One turn's pick served: nothing, a request, or a line. */
  method TakePick(wire: Wire, store: MessageStore, config: Config, snapshot: Snapshot, pending: PendingIndices,
                  pick: Pick,
                  ghost start: Start, ghost visits: seq<VisitAt>, ghost served: seq<Served>)
    returns (ended: Option<SessionOutcome>, ghost all: seq<Served>)
    requires Recorded(wire, store, snapshot, pending, start, visits, served, Max1(config.maxAttempts))
    requires pick.Ask? ==> Admissible(pick.request)
    modifies wire, snapshot, pending
    ensures Recorded(wire, store, snapshot, pending, start, visits, all, Max1(config.maxAttempts))
    ensures RequestsServed(all) == RequestsServed(served) + PickRequests(pick)
    ensures ended == Some(PortLost) ==> wire.dead
    ensures ended == Some(ChannelClosed) <==> pick == Closed
    ensures (pick == Closed ==> unchanged(pending, wire)) && PickIs(old(wire.log), wire.log, pick)
  {
    match pick
    case Closed =>
      ended, all := Some(ChannelClosed), served;
    case Ask(request) =>
      ended, all := Serve(wire, store, config, snapshot, pending, request, start, visits, served);
    case Listen =>
      ghost var log := wire.log;
      var ok, read := Poll(wire, pending);
      OnLonger(start.log, log, wire.log, visits, served, Max1(config.maxAttempts));
      ended, all := if ok then None else Some(PortLost), served;
  }

  method Serve(wire: Wire, store: MessageStore, config: Config, snapshot: Snapshot, pending: PendingIndices,
               request: Request,
               ghost start: Start, ghost visits: seq<VisitAt>, ghost served: seq<Served>)
    returns (ended: Option<SessionOutcome>, ghost all: seq<Served>)
    requires Recorded(wire, store, snapshot, pending, start, visits, served, Max1(config.maxAttempts))
              && Admissible(request)
    modifies wire, snapshot, pending
    ensures Recorded(wire, store, snapshot, pending, start, visits, all, Max1(config.maxAttempts))
    ensures RequestsServed(all) == RequestsServed(served) + [request]
    ensures (ended == None || (ended == Some(PortLost) && wire.dead)) && old(wire.log) <= wire.log
  {
    ghost var seen := wire.seen;
    var response, next := HandleRequest(wire, request, config, snapshot, pending);
    RequestAccounted(start, seen, store.rows, store.audits, visits, served, Max1(config.maxAttempts), next, wire.seen);
    ServedSnoc(served, next);
    all := served + [next];
    ended := if response.NoReply? then Some(PortLost) else None;
  }

  /** A turn's refresh, if one is due. */
  method RefreshTurn(wire: Wire, store: MessageStore, snapshot: Snapshot, pending: PendingIndices,
                     lastRefresh: Option<nat>, turn: Turn,
                     ghost start: Start, ghost visits: seq<VisitAt>, ghost served: seq<Served>, ghost max: nat)
    returns (ok: bool, refreshed: Option<nat>)
    requires Recorded(wire, store, snapshot, pending, start, visits, served, max)
    modifies wire, snapshot
    ensures Recorded(wire, store, snapshot, pending, start, visits, served, max)
    ensures (!ok ==> wire.dead) && old(wire.log) <= wire.log
    ensures ok ==>
              && RefreshIs(old(wire.log), wire.log, Due(lastRefresh, turn.now))
              && refreshed == if Due(lastRefresh, turn.now) then Some(turn.refreshed) else lastRefresh
    ensures Due(lastRefresh, turn.now) && !old(wire.dead) ==>
              StatusRan(old(wire.log), old(wire.script), wire.log, wire.script, ok)
  {
    ghost var log := wire.log;
    ok, refreshed := RefreshIfDue(wire, snapshot, lastRefresh, turn);
    OnLonger(start.log, log, wire.log, visits, served, max);
  }

  /** The span of a turn that was taken, and its refresh. */
  ghost predicate TurnIs(before: seq<Op>, after: seq<Op>, turn: Turn, lastRefresh: Option<nat>, refreshed: Option<nat>,
                         span: Span) {
    && before <= span.before && span.after <= after && SpanIs(span, Due(lastRefresh, turn.now), turn.pick)
    && refreshed == if Due(lastRefresh, turn.now) then Some(turn.refreshed) else lastRefresh
  }

  /** The rest of a turn once the queue is drained: the refresh, and the pick. */
  method RefreshAndTake(wire: Wire, store: MessageStore, config: Config, snapshot: Snapshot, pending: PendingIndices,
                        lastRefresh: Option<nat>, turn: Turn, ghost start: Start, ghost visits: seq<VisitAt>,
                            ghost served: seq<Served>)
    returns (ended: Option<SessionOutcome>, taken: bool, refreshed: Option<nat>, ghost served': seq<Served>,
            ghost span: Span)
    requires Recorded(wire, store, snapshot, pending, start, visits, served, Max1(config.maxAttempts))
    requires (turn.pick.Ask? ==> Admissible(turn.pick.request)) && pending.queue == []
    modifies wire, snapshot, pending
    ensures Recorded(wire, store, snapshot, pending, start, visits, served', Max1(config.maxAttempts))
    ensures RequestsServed(served') == RequestsServed(served) + if taken then PickRequests(turn.pick) else []
    ensures ended == Some(PortLost) ==> wire.dead
    ensures ended == Some(ChannelClosed) <==> taken && turn.pick == Closed
    ensures ended == Some(ChannelClosed) ==> pending.queue == []
    ensures (ended.None? ==> taken) && old(wire.log) <= wire.log
    ensures taken ==> TurnIs(old(wire.log), wire.log, turn, lastRefresh, refreshed, span)
    ensures turn.pick == Closed && Due(lastRefresh, turn.now) && !old(wire.dead) ==>
              StatusRan(old(wire.log), old(wire.script), wire.log, wire.script, ended == Some(ChannelClosed))
  {
    var ok;
    span, served' := Span(wire.log, wire.log, wire.log), served;
    ok, refreshed :=
        RefreshTurn(wire, store, snapshot, pending, lastRefresh, turn, start, visits, served, Max1(config.maxAttempts));
    if !ok {
      return Some(PortLost), false, refreshed, served', span;
    }
    taken, span := true, span.(refreshed := wire.log);
    ended, served' := TakePick(wire, store, config, snapshot, pending, turn.pick, start, visits, served);
    span := span.(after := wire.log);
  }

  /** Once round the session's loop; `taken` when it got as far as the turn's pick. */
  method TakeTurn(wire: Wire, store: MessageStore, config: Config, snapshot: Snapshot, pending: PendingIndices,
                  lastRefresh: Option<nat>, turn: Turn, ghost start: Start, ghost visits: seq<VisitAt>,
                      ghost served: seq<Served>)
    returns (ended: Option<SessionOutcome>, taken: bool, refreshed: Option<nat>,
             ghost visits': seq<VisitAt>, ghost served': seq<Served>, ghost span: Span)
    requires Recorded(wire, store, snapshot, pending, start, visits, served, Max1(config.maxAttempts))
    requires (turn.pick.Ask? ==> Admissible(turn.pick.request)) && AllCompleted(visits)
    modifies wire, store, snapshot, pending
    ensures Recorded(wire, store, snapshot, pending, start, visits', served', Max1(config.maxAttempts))
    ensures RequestsServed(served') == RequestsServed(served) + if taken then PickRequests(turn.pick) else []
    ensures AllButLastCompleted(visits') && (ended != Some(PortLost) ==> AllCompleted(visits'))
    ensures ended == Some(PortLost) ==> wire.dead
    ensures ended == Some(ChannelClosed) <==> taken && turn.pick == Closed
    ensures ended == Some(ChannelClosed) ==> pending.queue == []
    ensures (ended.None? ==> taken) && old(wire.log) <= wire.log
    ensures taken ==> TurnIs(old(wire.log), wire.log, turn, lastRefresh, refreshed, span)
    ensures old(pending.queue) == [] && turn.pick == Closed && Due(lastRefresh, turn.now) && !old(wire.dead) ==>
              StatusRan(old(wire.log), old(wire.script), wire.log, wire.script, ended == Some(ChannelClosed))
  {
    var ok;
    ok, visits' := DrainPending(wire, store, snapshot, pending, start, visits, served, Max1(config.maxAttempts));
    if !ok {
      assert RequestsServed(served) + [] == RequestsServed(served);
      return Some(PortLost), false, lastRefresh, visits', served, Span(wire.log, wire.log, wire.log);
    }
    ended, taken, refreshed, served', span :=
      RefreshAndTake(wire, store, config, snapshot, pending, lastRefresh, turn, start, visits', served);
  }

  // Whole sessions

  function AnnouncedIn(log: seq<Op>): seq<nat> {
    HeedAll(NO_HEED, log).announced
  }

  datatype Moment = Moment(log: seq<Op>, rows: seq<ParsedInbound>, audits: seq<Audit>)

  ghost function Now(wire: Wire, store: MessageStore): Moment
    reads wire, store
  {
    Moment(wire.log, store.rows, store.audits)
  }

  datatype SessionRecord = SessionRecord(start: Moment, end: Moment, visits: seq<VisitAt>, served: seq<Served>,
                                         turns: seq<Turn>, spans: seq<Span>, outcome: SessionOutcome)

  /** What a session is known by: all it did follows from its visits and the requests
      it served. The indices visited are, in order and each once, those the trace
      shows heeded, all of them if the channel closed; the requests served are those
      of the turns taken, and each turn refreshed the status if that was due
      and read one line if that was its pick. Only in the last visit may the port have
      been lost. */
  ghost predicate Faithful(r: SessionRecord, max: nat) {
    && Accounts(Start(r.start.log, Observe(START, r.start.log), r.start.rows, r.start.audits),
                r.end.log, Observe(START, r.end.log), r.end.rows, r.end.audits, r.visits, r.served, max)
    && HeedAll(NO_HEED, r.start.log).attention == AtRest && HeedAll(NO_HEED, r.end.log).attention == AtRest
    && AllButLastCompleted(r.visits)
    && AnnouncedIn(r.start.log) + IndicesOf(r.visits) <= AnnouncedIn(r.end.log)
    && RequestsServed(r.served) == RequestsIn(r.turns)
    && TurnsOn(r.start.log, r.end.log, r.turns, r.spans)
    && match r.outcome
       case ChannelClosed =>
         && AllCompleted(r.visits)
         && AnnouncedIn(r.end.log) == AnnouncedIn(r.start.log) + IndicesOf(r.visits)
         && (r.turns != [] ==> NoneClosed(r.turns[..|r.turns| - 1]))
       case PortLost => NoneClosed(r.turns)
  }

  lemma QueueIsTheRest(before: seq<nat>, taken: seq<nat>, queue: seq<nat>, announced: seq<nat>)
    requires before + taken + queue == announced
    ensures before + taken <= announced && (queue == [] ==> before + taken == announced)
  {
  }

  method NewQueue(wire: Wire, store: MessageStore, snapshot: Snapshot, ghost max: nat)
    returns (pending: PendingIndices, ghost start: Start)
    requires Sound(wire) && Tied(wire, store) && Current(wire, snapshot)
    ensures fresh(pending) && pending.before == AnnouncedIn(wire.log) && pending.queue == []
    ensures HeedAll(NO_HEED, wire.log).attention == AtRest
    ensures start == Start(wire.log, Observe(START, wire.log), store.rows, store.audits)
    ensures Recorded(wire, store, snapshot, pending, start, [], [], max)
  {
    SideOf(wire);
    pending := new PendingIndices(wire.side.heed.announced);
    start := Start(wire.log, wire.seen, store.rows, store.audits);
    NothingYet(start, max);
  }

  /** Where the loop stands in its agenda: the requests of the turns taken are served,
      and the channel was not closed before the last of them. */
  ghost predicate TakenSoFar(agenda: seq<Turn>, i: nat, served: seq<Served>, ended: Option<SessionOutcome>) {
    && i <= |agenda| && RequestsServed(served) == RequestsIn(agenda[..i])
    && if ended == Some(ChannelClosed) then
         (i > 0 ==> NoneClosed(agenda[..i - 1])) && (NoneClosed(agenda[..i]) ==> i == |agenda|)
       else NoneClosed(agenda[..i])
  }

  lemma OneTaken(agenda: seq<Turn>, i: nat, served: seq<Served>, served': seq<Served>, ended: Option<SessionOutcome>)
    requires i < |agenda| && TakenSoFar(agenda, i, served, None)
    requires RequestsServed(served') == RequestsServed(served) + PickRequests(agenda[i].pick)
    requires ended == Some(ChannelClosed) <==> agenda[i].pick == Closed
    ensures TakenSoFar(agenda, i + 1, served', ended)
  {
    assert agenda[..i + 1] == agenda[..i] + [agenda[i]];
    TurnSnoc(agenda[..i], agenda[i]);
  }

  lemma NoneTaken(agenda: seq<Turn>, i: nat, served: seq<Served>, served': seq<Served>, ended: Option<SessionOutcome>)
    requires TakenSoFar(agenda, i, served, None) && RequestsServed(served') == RequestsServed(served) + []
    requires ended == Some(ChannelClosed) ==> i == |agenda|
    ensures TakenSoFar(agenda, i, served', ended)
  {
    assert RequestsServed(served) + [] == RequestsServed(served);
    if i > 0 {
      assert agenda[..i - 1] == agenda[..i][..i - 1];
      FewerClosed(agenda[..i], i - 1);
    }
  }

  lemma FewerClosed(turns: seq<Turn>, k: nat)
    requires NoneClosed(turns) && k <= |turns|
    ensures NoneClosed(turns[..k])
  {
  }

  /** The refreshes of the turns taken so far, and when the last of them was. */
  ghost predicate TurnsSoFar(from: seq<Op>, to: seq<Op>, agenda: seq<Turn>, i: nat, spans: seq<Span>,
                             last: Option<nat>) {
    i <= |agenda| && TurnsOn(from, to, agenda[..i], spans) && last == LastRefresh(agenda[..i])
  }

  lemma OneMoreTurn(from: seq<Op>, log: seq<Op>, to: seq<Op>, agenda: seq<Turn>, i: nat, spans: seq<Span>,
                    last: Option<nat>,
                     span: Span, last': Option<nat>)
    requires i < |agenda| && TurnsSoFar(from, log, agenda, i, spans, last) && log <= span.before && span.after <= to
    requires SpanIs(span, Due(last, agenda[i].now), agenda[i].pick)
    requires last' == if Due(last, agenda[i].now) then Some(agenda[i].refreshed) else last
    ensures TurnsSoFar(from, to, agenda, i + 1, spans + [span], last')
  {
    assert agenda[..i + 1] == agenda[..i] + [agenda[i]];
    TurnMore(from, log, to, agenda[..i], spans, agenda[i], span);
  }

  /** The next turn of the agenda, or a closed channel. */
  method NextTurn(wire: Wire, store: MessageStore, config: Config, snapshot: Snapshot, pending: PendingIndices,
                  lastRefresh: Option<nat>, agenda: seq<Turn>, i: nat,
                  ghost start: Start, ghost visits: seq<VisitAt>, ghost served: seq<Served>, ghost spans: seq<Span>)
    returns (ended: Option<SessionOutcome>, next: nat, refreshed: Option<nat>,
             ghost visits': seq<VisitAt>, ghost served': seq<Served>, ghost spans': seq<Span>)
    requires Recorded(wire, store, snapshot, pending, start, visits, served, Max1(config.maxAttempts))
    requires AdmissibleTurns(agenda) && TakenSoFar(agenda, i, served, None) && AllCompleted(visits)
    requires TurnsSoFar(start.log, wire.log, agenda, i, spans, lastRefresh)
    modifies wire, store, snapshot, pending
    ensures Recorded(wire, store, snapshot, pending, start, visits', served', Max1(config.maxAttempts))
    ensures TakenSoFar(agenda, next, served', ended)
    ensures TurnsOn(start.log, wire.log, agenda[..next], spans')
    ensures ended.None? ==> TurnsSoFar(start.log, wire.log, agenda, next, spans', refreshed)
    ensures AllButLastCompleted(visits') && (ended != Some(PortLost) ==> AllCompleted(visits'))
    ensures ended == Some(PortLost) ==> wire.dead
    ensures ended == Some(ChannelClosed) ==> pending.queue == []
    ensures ended.None? ==> next == i + 1
    ensures i == |agenda| && lastRefresh.None? && old(pending.queue) == [] && !old(wire.dead) ==>
              StatusRan(old(wire.log), old(wire.script), wire.log, wire.script, ended == Some(ChannelClosed))
  {
    ghost var log := wire.log;
    var turn := if i < |agenda| then agenda[i] else Turn(0, 0, Closed);
    var taken;
    ghost var span;
    ended, taken, refreshed, visits', served', span :=
      TakeTurn(wire, store, config, snapshot, pending, lastRefresh, turn, start, visits, served);
    next, spans' := i, spans;
    if taken && i < |agenda| {
      OneTaken(agenda, i, served, served', ended);
      OneMoreTurn(start.log, log, wire.log, agenda, i, spans, lastRefresh, span, refreshed);
      next, spans' := i + 1, spans + [span];
    } else {
      NoneTaken(agenda, i, served, served', ended);
      TurnsLater(start.log, log, wire.log, agenda[..i], spans);
    }
  }

  /** The record of a session that has ended. */
  lemma SessionEnds(wire: Wire, store: MessageStore, snapshot: Snapshot, pending: PendingIndices, start: Start,
                    visits: seq<VisitAt>, served: seq<Served>, spans: seq<Span>, max: nat, agenda: seq<Turn>, i: nat,
                        outcome: SessionOutcome)
    returns (record: SessionRecord)
    requires Recorded(wire, store, snapshot, pending, start, visits, served, max)
    requires start.seen == Observe(START, start.log) && pending.before == AnnouncedIn(start.log)
    requires HeedAll(NO_HEED, start.log).attention == AtRest
    requires TakenSoFar(agenda, i, served, Some(outcome)) && (outcome == ChannelClosed ==> pending.queue == [])
    requires TurnsOn(start.log, wire.log, agenda[..i], spans)
    requires AllButLastCompleted(visits) && (outcome == ChannelClosed ==> AllCompleted(visits))
    ensures Faithful(record, max) && record.outcome == outcome
    ensures record.start == Moment(start.log, start.rows, start.audits) && record.end == Now(wire, store)
    ensures record.turns + agenda[i..] == agenda
    ensures outcome == ChannelClosed && NoneClosed(record.turns) ==> agenda[i..] == []
  {
    SideOf(wire);
    QueueIsTheRest(pending.before, pending.taken, pending.queue, pending.announced);
    TurnsEnd(agenda, i, served, outcome);
    record := SessionRecord(Moment(start.log, start.rows, start.audits), Now(wire, store), visits, served, agenda[..i],
        spans, outcome);
  }

  lemma TurnsEnd(agenda: seq<Turn>, i: nat, served: seq<Served>, outcome: SessionOutcome)
    requires TakenSoFar(agenda, i, served, Some(outcome))
    ensures agenda[..i] + agenda[i..] == agenda
    ensures if outcome == PortLost then NoneClosed(agenda[..i])
            else
              && (agenda[..i] != [] ==> NoneClosed(agenda[..i][..|agenda[..i]| - 1]))
              && (NoneClosed(agenda[..i]) ==> agenda[i..] == [])
  {
    if i > 0 {
      assert agenda[..i][..i - 1] == agenda[..i - 1];
    }
  }

  /** `run_session_inner`; once the agenda is over the channel is closed. Announced
      indices are handled first come first served, each once, all of them unless
      the port goes; requests are served in order. */
  method RunSession(wire: Wire, store: MessageStore, config: Config, snapshot: Snapshot, agenda: seq<Turn>)
    returns (outcome: SessionOutcome, rest: seq<Turn>, ghost record: SessionRecord)
    requires Sound(wire) && Tied(wire, store) && Current(wire, snapshot) && AdmissibleTurns(agenda)
    modifies wire, store, snapshot
    ensures Sound(wire) && Tied(wire, store) && Current(wire, snapshot) && (outcome == PortLost ==> wire.dead)
    ensures Faithful(record, Max1(config.maxAttempts)) && record.outcome == outcome
    ensures record.start == old(Now(wire, store)) && record.end == Now(wire, store)
    ensures record.turns + rest == agenda
    ensures outcome == ChannelClosed && NoneClosed(record.turns) ==> rest == []
    ensures agenda == [] && !old(wire.dead) ==>
              StatusRan(old(wire.log), old(wire.script), wire.log, wire.script, outcome == ChannelClosed)
  {
    var pending, start := NewQueue(wire, store, snapshot, Max1(config.maxAttempts));
    var lastRefresh: Option<nat> := None;
    ghost var visits, served, spans := [], [], [];
    assert agenda[..0] == [];
    var i := 0;
    while true
      invariant HeedAll(NO_HEED, start.log).attention == AtRest
      invariant fresh(pending) && pending.before == AnnouncedIn(start.log) && TakenSoFar(agenda, i, served, None)
      invariant Recorded(wire, store, snapshot, pending, start, visits, served, Max1(config.maxAttempts))
      invariant TurnsSoFar(start.log, wire.log, agenda, i, spans, lastRefresh) && AllCompleted(visits)
      invariant agenda == [] ==> unchanged(wire) && pending.queue == [] && lastRefresh.None?
      decreases |agenda| - i
    {
      var ended;
      ended, i, lastRefresh, visits, served, spans :=
        NextTurn(wire, store, config, snapshot, pending, lastRefresh, agenda, i, start, visits, served, spans);
      if ended.Some? {
        record := SessionEnds(wire, store, snapshot, pending, start, visits, served, spans, Max1(config.maxAttempts),
            agenda, i, ended.value);
        return ended.value, agenda[i..], record;
      }
    }
  }
}
