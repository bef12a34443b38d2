/** The reconnecting manager loop (`modem/mod.rs`): one session for each connection,
    with a delay that doubles, until the channel closes or the port stays away. */
module Manager {
  import opened Text
  import opened Cmgr
  import opened Frames
  import opened LineTrace
  import opened Transport
  import opened Sending
  import opened Inbound
  import opened SideTrace
  import opened Setup
  import opened Requests
  import opened Session
  import opened InboundSafety

  const RECONNECT_BACKOFF_CAP_SECS := 60

  function PowerOfTwo(n: nat): nat {
    if n == 0 then 1 else 2 * PowerOfTwo(n - 1)
  }

  function Min(a: nat, b: nat): nat {
    if a <= b then a else b
  }

  /** `reconnect_backoff_secs`. */
  function ReconnectBackoffSecs(attempt: nat): nat {
    var exponent := if attempt == 0 then 0 else attempt - 1;
    if exponent >= 6 then RECONNECT_BACKOFF_CAP_SECS
    else Min(PowerOfTwo(exponent), RECONNECT_BACKOFF_CAP_SECS)
  }

  /** The delays start at a second and double up to the cap, where they stay. */
  lemma BackoffDoubles(attempt: nat)
    requires attempt >= 1
    ensures ReconnectBackoffSecs(1) == 1 && ReconnectBackoffSecs(attempt) <= 60
    ensures ReconnectBackoffSecs(attempt) == 60 <==> attempt >= 7
    ensures ReconnectBackoffSecs(attempt + 1) == Min(2 * ReconnectBackoffSecs(attempt), RECONNECT_BACKOFF_CAP_SECS)
  {
    if attempt == 6 {
      assert PowerOfTwo(5) == 32 by {
        assert PowerOfTwo(3) == 8;
      }
    } else if attempt < 6 {
      PowerBound(attempt);
    }
  }

  lemma PowerBound(n: nat)
    requires n < 6
    ensures PowerOfTwo(n) <= 32
  {
    if n > 0 {
      assert PowerOfTwo(2) == 4;
      assert PowerOfTwo(4) == 16;
    }
  }

  // Giving up

  /** What opening the port comes to. */
  datatype Opening = Refused | Port(script: seq<Event>)

  /** The attempt counter, a `u32` that saturates, after these openings came to nothing. */
  function AttemptAfter(openings: seq<Opening>): (n: nat)
    ensures n <= U32_MAX && (openings != [] ==> n >= 1)
  {
    if openings == [] then 0
    else match openings[|openings| - 1]
      case Port(_) => 1
      case Refused => Min(AttemptAfter(openings[..|openings| - 1]) + 1, U32_MAX)
  }

  predicate EndsRefused(openings: seq<Opening>, n: nat) {
    |openings| >= n && forall i :: |openings| - n <= i < |openings| ==> openings[i] == Refused
  }

  lemma {:induction false} AttemptsCountRefusals(openings: seq<Opening>, n: nat)
    requires n < U32_MAX
    ensures AttemptAfter(openings) > n <==> |openings| > n && EndsRefused(openings, n)
  {
    if openings != [] && n > 0 {
      var front := openings[..|openings| - 1];
      AttemptsCountRefusals(front, n - 1);
      if openings[|openings| - 1] == Refused {
        assert forall i :: 0 <= i < |front| ==> front[i] == openings[i];
        assert EndsRefused(openings, n) <==> EndsRefused(front, n - 1);
      }
    }
  }

  method MarkDisconnected(snapshot: Snapshot)
    modifies snapshot
    ensures !snapshot.serialConnected && !snapshot.responsive
    ensures snapshot.sim == old(snapshot.sim) && snapshot.registered == old(snapshot.registered)
  {
    snapshot.serialConnected, snapshot.responsive := false, false;
  }

  /** `backoff_or_giveup`: the next attempt's delay, or the end. */
  method BackoffOrGiveUp(store: MessageStore, config: Config, snapshot: Snapshot, attempt: nat)
    returns (next: nat, delay: Option<nat>)
    requires attempt <= U32_MAX
    modifies store`audits, snapshot
    ensures next == Min(attempt + 1, U32_MAX)
    ensures delay == if next > config.reopenMaxAttempts then None else Some(ReconnectBackoffSecs(next))
    ensures store.audits == old(store.audits) + if delay.None? then [ReopenExhausted(config.reopenMaxAttempts)] else []
    ensures snapshot.sim == old(snapshot.sim) && snapshot.registered == old(snapshot.registered)
    ensures old(!snapshot.serialConnected && !snapshot.responsive) ==> !snapshot.serialConnected && !snapshot.responsive
  {
    next := Min(attempt + 1, U32_MAX);
    if next > config.reopenMaxAttempts {
      store.Record(ReopenExhausted(config.reopenMaxAttempts));
      MarkDisconnected(snapshot);
      return next, None;
    }
    delay := Some(ReconnectBackoffSecs(next));
  }

  // What a run is known by

  /** Nothing that counts happened between two moments: no submission, nothing done
      about inbound messages, no announcement heeded. */
  ghost predicate Uneventful(a: Moment, b: Moment) {
    && a.log <= b.log && a.rows == b.rows && a.audits <= b.audits
    && Observe(START, b.log).sends == Observe(START, a.log).sends
    && Observe(START, b.log).inbound.touches == Observe(START, a.log).inbound.touches
    && AnnouncedIn(b.log) == AnnouncedIn(a.log)
  }

  /** Sessions one after another, and nothing between them that counts. */
  ghost predicate Chained(from: Moment, to: Moment, records: seq<SessionRecord>, max: nat)
    decreases |records|
  {
    if records == [] then Uneventful(from, to)
    else
      var last := records[|records| - 1];
      Chained(from, last.start, records[..|records| - 1], max) && Faithful(last, max) && Uneventful(last.end, to)
  }

  function TurnsOf(records: seq<SessionRecord>): seq<Turn> {
    if records == [] then [] else TurnsOf(records[..|records| - 1]) + records[|records| - 1].turns
  }

  predicate AllLost(records: seq<SessionRecord>) {
    forall i :: 0 <= i < |records| ==> records[i].outcome == PortLost
  }

  /** One connection: a session at most, and nothing before or after it that counts. */
  ghost predicate Linked(from: Moment, to: Moment, record: Option<SessionRecord>, max: nat) {
    match record
    case None => Uneventful(from, to)
    case Some(r) => Uneventful(from, r.start) && Faithful(r, max) && Uneventful(r.end, to)
  }

  lemma UneventfulThen(a: Moment, b: Moment, c: Moment)
    requires Uneventful(a, b) && Uneventful(b, c)
    ensures Uneventful(a, c)
  {
  }

  lemma LinkedThen(from: Moment, to: Moment, later: Moment, record: Option<SessionRecord>, max: nat)
    requires Linked(from, to, record, max) && Uneventful(to, later)
    ensures Linked(from, later, record, max)
  {
    UneventfulThen(if record.Some? then record.value.end else from, to, later);
  }

  function With(records: seq<SessionRecord>, record: Option<SessionRecord>): seq<SessionRecord> {
    match record case Some(r) => records + [r] case None => records
  }

  function TurnsIn(record: Option<SessionRecord>): seq<Turn> {
    match record case Some(r) => r.turns case None => []
  }

  lemma ChainedOn(from: Moment, to: Moment, later: Moment, records: seq<SessionRecord>, max: nat)
    requires Chained(from, to, records, max) && Uneventful(to, later)
    ensures Chained(from, later, records, max)
  {
    UneventfulThen(if records == [] then from else records[|records| - 1].end, to, later);
  }

  lemma ChainedMore(from: Moment, at: Moment, to: Moment, record: Option<SessionRecord>, records: seq<SessionRecord>,
                    max: nat)
    requires Chained(from, at, records, max) && Linked(at, to, record, max)
    ensures Chained(from, to, With(records, record), max)
  {
    match record
    case None => ChainedOn(from, at, to, records, max);
    case Some(r) =>
      ChainedOn(from, at, r.start, records, max);
      assert (records + [r])[..|records|] == records;
  }

  lemma TurnsMore(records: seq<SessionRecord>, record: Option<SessionRecord>, rest: seq<Turn>, rest': seq<Turn>)
    requires TurnsIn(record) + rest' == rest
    ensures TurnsOf(With(records, record)) + rest' == TurnsOf(records) + rest
  {
    match record
    case None => assert [] + rest' == rest';
    case Some(r) =>
      assert (records + [r])[..|records|] == records;
      Associate(TurnsOf(records), r.turns, rest');
  }

  lemma {:induction false} LostSessionsNeverClosed(from: Moment, to: Moment, records: seq<SessionRecord>, max: nat)
    requires Chained(from, to, records, max) && AllLost(records)
    ensures NoneClosed(TurnsOf(records))
    decreases |records|
  {
    if records != [] {
      var front, last := records[..|records| - 1], records[|records| - 1];
      LostSessionsNeverClosed(from, last.start, front, max);
      NoneClosedConcat(TurnsOf(front), last.turns);
    }
  }

  lemma NoneClosedConcat(a: seq<Turn>, b: seq<Turn>)
    requires NoneClosed(a) && NoneClosed(b)
    ensures NoneClosed(a + b)
  {
  }

  /** What neither submits nor touches nor heeds anything is uneventful. */
  lemma SameIsUneventful(log: seq<Op>, log': seq<Op>, rows: seq<ParsedInbound>, audits: seq<Audit>, audits': seq<Audit>)
    requires log <= log' && audits <= audits'
    requires Observe(START, log').sends == Observe(START, log).sends
    requires Observe(START, log').inbound.touches == Observe(START, log).inbound.touches
    requires SideAll(NO_SIDE, log').heed == SideAll(NO_SIDE, log).heed
    ensures Uneventful(Moment(log, rows, audits), Moment(log', rows, audits'))
  {
    SideIs(log);
    SideIs(log');
  }

  // One connection

  /** Between connections: nothing open, no fault so far, whatever the modem is in;
      the rows and the snapshot are what the trace makes them. */
  ghost predicate Faultless(wire: Wire, store: MessageStore, snapshot: Snapshot)
    reads wire, store, snapshot
  {
    wire.Calm() && Clean(wire.seen) && Tied(wire, store) && Current(wire, snapshot)
  }

  /** What reconnecting leaves: only writes, and no fetched message in hand. */
  ghost predicate Reconnected(seen: Monitor, side: Side, seen': Monitor, side': Side) {
    && seen'.sends == seen.sends && seen'.inbound.touches == seen.inbound.touches
    && seen'.inbound.stored == seen.inbound.stored
    && side'.heed == side.heed && side'.view == side.view && side.written <= side'.written
  }

  lemma OpenedBeside(side: Side)
    requires Idle(side)
    ensures SideStep(side, Opened) == side
  {
    assert side.written + [] == side.written;
  }

  /** ESC on a fresh port, for the monitors. */
  lemma EscapedAfresh(m: Monitor, after: Monitor, ok: bool)
    requires Quiet(m) && Clean(m) && after in {Step(m, Wrote(Escape)), Step(m, WriteFailed(Escape))}
    requires ok ==> after == Step(m, Wrote(Escape))
    ensures Clean(after) && Quiet(after) && (ok ==> after.line.mode == CommandMode)
    ensures after.sends == m.sends && after.inbound.touches == m.inbound.touches
    ensures after.inbound.stored == m.inbound.stored
  {
  }

  lemma OpenedAfresh(m: Monitor)
    requires Quiet(m) && Clean(m)
    ensures Quiet(Step(m, Opened)) && Clean(Step(m, Opened)) && !Step(m, Opened).inbound.phase.Reading?
    ensures Step(m, Opened).sends == m.sends && Step(m, Opened).inbound.touches == m.inbound.touches
    ensures Step(m, Opened).inbound.stored == m.inbound.stored
  {
  }

  /** A fresh port, brought to command mode by ESC before anything else is written. */
  method Recover(wire: Wire, script: seq<Event>) returns (ok: bool)
    requires wire.Calm() && Clean(wire.seen)
    modifies wire
    ensures wire.Calm() && Clean(wire.seen) && ok == !wire.dead && old(wire.log) <= wire.log
    ensures ok ==> wire.seen.line.mode == CommandMode
    ensures Reconnected(old(wire.seen), old(wire.side), wire.seen, wire.side)
    ensures ok ==> wire.side.written == old(wire.side).written + [Escape]
  {
    OpenedAfresh(wire.seen);
    OpenedBeside(wire.side);
    wire.Reopen(script);
    ghost var opening := wire.seen;
    ok := wire.Abort();
    EscapedAfresh(opening, wire.seen, ok);
  }

  /** The port recovered and the modem set up; `ready` if both went through. */
  method Prepare(wire: Wire, store: MessageStore, config: Config, script: seq<Event>) returns (ready: bool)
    requires wire.Calm() && Clean(wire.seen) && Tied(wire, store)
    modifies wire, store`audits
    ensures wire.Calm() && Clean(wire.seen) && Tied(wire, store) && ready == !wire.dead && (ready ==> Sound(wire))
    ensures wire.side.view == old(wire.side).view
    ensures Uneventful(old(Now(wire, store)), Now(wire, store))
  {
    SideOf(wire);
    var ok := Recover(wire, script);
    if ok {
      var accepted;
      ghost var answers;
      ok, accepted, answers := Initialize(wire, config);
      if ok && !accepted {
        store.Record(SetupRefused);
      }
    }
    SideOf(wire);
    SameIsUneventful(old(wire.log), wire.log, store.rows, old(store.audits), store.audits);
    ready := ok;
  }

  lemma StillUneventful(m: Moment)
    ensures Uneventful(m, m)
  {
  }

  /** How a connection ended: with the channel closed, by a turn that says so or
      because the agenda was over, or with the port lost, in a session or before. */
  predicate ConnectionEnd(record: Option<SessionRecord>, shutDown: bool, rest: seq<Turn>) {
    if shutDown then
      record.Some? && record.value.outcome == ChannelClosed && (NoneClosed(record.value.turns) ==> rest == [])
    else record.Some? ==> record.value.outcome == PortLost
  }

  /** A connection from its opening to its end; `shutDown` when the channel closed.
      There is a session, and a record of it, if the port was still there by then. */
  method Connect(wire: Wire, store: MessageStore, config: Config, snapshot: Snapshot, script: seq<Event>,
                 agenda: seq<Turn>)
    returns (shutDown: bool, rest: seq<Turn>, ghost record: Option<SessionRecord>)
    requires Faultless(wire, store, snapshot) && AdmissibleTurns(agenda)
    modifies wire, store, snapshot
    ensures Faultless(wire, store, snapshot) && AdmissibleTurns(rest)
    ensures !snapshot.serialConnected && !snapshot.responsive && (!shutDown ==> wire.dead)
    ensures Linked(old(Now(wire, store)), Now(wire, store), record, Max1(config.maxAttempts))
    ensures ConnectionEnd(record, shutDown, rest) && TurnsIn(record) + rest == agenda
  {
    snapshot.serialConnected, snapshot.responsive := true, true;
    var ready := Prepare(wire, store, config, script);
    if !ready {
      MarkDisconnected(snapshot);
      return false, agenda, None;
    }
    var outcome;
    ghost var r;
    outcome, rest, r := RunSession(wire, store, config, snapshot, agenda);
    MarkDisconnected(snapshot);
    StillUneventful(r.end);
    SuffixAdmissible(agenda, r.turns, rest);
    record := Some(r);
    shutDown := outcome == ChannelClosed;
  }

  /** Only the last session ended with the channel closed. */
  predicate EndsClosed(records: seq<SessionRecord>, rest: seq<Turn>) {
    && records != [] && AllLost(records[..|records| - 1])
    && ConnectionEnd(Some(records[|records| - 1]), true, rest)
  }

  lemma EndsMore(records: seq<SessionRecord>, record: Option<SessionRecord>, shutDown: bool, rest: seq<Turn>)
    requires AllLost(records) && ConnectionEnd(record, shutDown, rest)
    ensures if shutDown then EndsClosed(With(records, record), rest) else AllLost(With(records, record))
  {
    if shutDown {
      assert (records + [record.value])[..|records|] == records;
    }
  }

  lemma SuffixAdmissible(agenda: seq<Turn>, turns: seq<Turn>, rest: seq<Turn>)
    requires AdmissibleTurns(agenda) && turns + rest == agenda
    ensures AdmissibleTurns(rest)
  {
    assert forall i :: 0 <= i < |rest| ==> rest[i] == agenda[i + |turns|];
  }

  // The loop

  /** The delays slept between openings: each after an attempt within the limit. */
  predicate Delayed(openings: seq<Opening>, delays: seq<nat>, max: nat) {
    && |delays| <= |openings|
    && forall k :: 0 <= k < |delays| ==>
         var attempt := AttemptAfter(openings[..k + 1]);
         attempt <= max && delays[k] == ReconnectBackoffSecs(attempt)
  }

  lemma DelayMore(openings: seq<Opening>, delays: seq<nat>, max: nat, delay: nat)
    requires |delays| < |openings| && Delayed(openings, delays, max)
    requires var attempt := AttemptAfter(openings[..|delays| + 1]);
               attempt <= max && delay == ReconnectBackoffSecs(attempt)
    ensures Delayed(openings, delays + [delay], max)
  {
  }

  datatype End = ShutDown | GaveUp | StillTrying

  /** One opening of the port, refused or a whole connection. */
  method Open(wire: Wire, store: MessageStore, config: Config, snapshot: Snapshot, opening: Opening, agenda: seq<Turn>)
    returns (shutDown: bool, rest: seq<Turn>, ghost record: Option<SessionRecord>)
    requires Faultless(wire, store, snapshot) && AdmissibleTurns(agenda)
    modifies wire, store, snapshot
    ensures Faultless(wire, store, snapshot) && AdmissibleTurns(rest)
    ensures !snapshot.serialConnected && !snapshot.responsive
    ensures Linked(old(Now(wire, store)), Now(wire, store), record, Max1(config.maxAttempts))
    ensures ConnectionEnd(record, shutDown, rest) && TurnsIn(record) + rest == agenda
    ensures opening == Refused ==> record == None && !shutDown
  {
    match opening
    case Refused =>
      MarkDisconnected(snapshot);
      StillUneventful(Now(wire, store));
      shutDown, rest, record := false, agenda, None;
    case Port(script) =>
      shutDown, rest, record := Connect(wire, store, config, snapshot, script, agenda);
  }

  /** The back-off between two openings, which does nothing to the line. */
  method BackOff(wire: Wire, store: MessageStore, config: Config, snapshot: Snapshot, attempt: nat, ghost from: Moment,
                 ghost record: Option<SessionRecord>)
    returns (next: nat, delay: Option<nat>)
    requires Faultless(wire, store, snapshot) && attempt <= U32_MAX && !snapshot.serialConnected && !snapshot.responsive
    requires Linked(from, Now(wire, store), record, Max1(config.maxAttempts))
    modifies store`audits, snapshot
    ensures Faultless(wire, store, snapshot) && !snapshot.serialConnected && !snapshot.responsive
    ensures Linked(from, Now(wire, store), record, Max1(config.maxAttempts))
    ensures next == Min(attempt + 1, U32_MAX)
    ensures delay == if next > config.reopenMaxAttempts then None else Some(ReconnectBackoffSecs(next))
    ensures delay.None? ==> LastAudit(store.audits, ReopenExhausted(config.reopenMaxAttempts))
  {
    ghost var lost := Now(wire, store);
    next, delay := BackoffOrGiveUp(store, config, snapshot, attempt);
    SameIsUneventful(wire.log, wire.log, store.rows, lost.audits, store.audits);
    LinkedThen(from, lost, Now(wire, store), record, Max1(config.maxAttempts));
  }

  /** The counter before the back-off: opening the port resets it. */
  function CounterFor(opening: Opening, attempt: nat): nat {
    if opening.Port? then 0 else attempt
  }

  /** How an opening and what followed it ended, and where the counter stands. */
  predicate AttemptEnds(opening: Opening, attempt: nat, max: nat, end: Option<End>, next: nat,
                        record: Option<SessionRecord>, rest: seq<Turn>) {
    && end != Some(StillTrying) && ConnectionEnd(record, end == Some(ShutDown), rest)
    && if end == Some(ShutDown) then opening.Port?
       else next == Min(CounterFor(opening, attempt) + 1, U32_MAX) && (end == Some(GaveUp) <==> next > max)
  }

  function EndOf(shutDown: bool, delay: Option<nat>): Option<End> {
    if shutDown then Some(ShutDown) else if delay.None? then Some(GaveUp) else None
  }

  lemma EndsAttempt(opening: Opening, attempt: nat, max: nat, shutDown: bool, delay: Option<nat>, next: nat,
                    record: Option<SessionRecord>, rest: seq<Turn>)
    requires ConnectionEnd(record, shutDown, rest) && (opening == Refused ==> !shutDown)
    requires !shutDown ==> next == Min(CounterFor(opening, attempt) + 1, U32_MAX) && (delay == None <==> next > max)
    ensures AttemptEnds(opening, attempt, max, EndOf(shutDown, delay), next, record, rest)
  {
  }

  predicate LastAudit(audits: seq<Audit>, audit: Audit) {
    audits != [] && audits[|audits| - 1] == audit
  }

  /** One opening and, unless the channel closed, the back-off after it. */
  method Attempt(wire: Wire, store: MessageStore, config: Config, snapshot: Snapshot, opening: Opening,
                 agenda: seq<Turn>, attempt: nat)
    returns (end: Option<End>, rest: seq<Turn>, next: nat, ghost record: Option<SessionRecord>)
    requires Faultless(wire, store, snapshot) && AdmissibleTurns(agenda) && attempt <= U32_MAX
    modifies wire, store, snapshot
    ensures Faultless(wire, store, snapshot) && AdmissibleTurns(rest)
    ensures !snapshot.serialConnected && !snapshot.responsive
    ensures Linked(old(Now(wire, store)), Now(wire, store), record, Max1(config.maxAttempts))
    ensures TurnsIn(record) + rest == agenda
    ensures AttemptEnds(opening, attempt, config.reopenMaxAttempts, end, next, record, rest)
    ensures end == Some(GaveUp) ==> LastAudit(store.audits, ReopenExhausted(config.reopenMaxAttempts))
  {
    var shutDown, delay;
    ghost var from := Now(wire, store);
    shutDown, rest, record := Open(wire, store, config, snapshot, opening, agenda);
    next, delay := attempt, None;
    if !shutDown {
      next, delay := BackOff(wire, store, config, snapshot, CounterFor(opening, attempt), from, record);
    }
    end := EndOf(shutDown, delay);
    EndsAttempt(opening, attempt, config.reopenMaxAttempts, shutDown, delay, next, record, rest);
  }

  predicate Counted(openings: seq<Opening>, used: nat, attempt: nat, delays: seq<nat>, max: nat) {
    && |delays| == used <= |openings| && Delayed(openings, delays, max)
    && attempt == AttemptAfter(openings[..used]) <= max
  }

  lemma CountOne(openings: seq<Opening>, used: nat, attempt: nat, delays: seq<nat>, max: nat)
    requires used < |openings| && Counted(openings, used, attempt, delays, max)
    ensures var next := Min(CounterFor(openings[used], attempt) + 1, U32_MAX);
              && next == AttemptAfter(openings[..used + 1])
              && (next <= max ==> Counted(openings, used + 1, next, delays + [ReconnectBackoffSecs(next)], max))
  {
    assert openings[..used + 1][..used] == openings[..used];
    var next := AttemptAfter(openings[..used + 1]);
    if next <= max {
      DelayMore(openings, delays, max, ReconnectBackoffSecs(next));
    }
  }

  /** The sessions of a run so far, and the agenda they leave. */
  ghost predicate Underway(from: Moment, to: Moment, records: seq<SessionRecord>, max: nat, agenda: seq<Turn>,
                           rest: seq<Turn>) {
    Chained(from, to, records, max) && TurnsOf(records) + rest == agenda
  }

  lemma UnderwayMore(from: Moment, at: Moment, to: Moment, record: Option<SessionRecord>, records: seq<SessionRecord>,
                     max: nat,
                     agenda: seq<Turn>, rest: seq<Turn>, rest': seq<Turn>)
    requires Underway(from, at, records, max, agenda, rest) && Linked(at, to, record, max)
              && TurnsIn(record) + rest' == rest
    ensures Underway(from, to, With(records, record), max, agenda, rest')
  {
    ChainedMore(from, at, to, record, records, max);
    TurnsMore(records, record, rest, rest');
  }

  lemma NotYetUnderway(m: Moment, max: nat, agenda: seq<Turn>)
    ensures Underway(m, m, [], max, agenda, agenda)
  {
    assert [] + agenda == agenda;
  }

  /** Where the counter stands when a run ends: the limit is passed exactly when the
      manager gives up, and the delays slept are those of the attempts before. */
  predicate RunEnds(openings: seq<Opening>, used: nat, delays: seq<nat>, max: nat, end: End) {
    && used <= |openings| && Delayed(openings, delays, max)
    && |delays| == (if end == StillTrying then used else used - 1)
    && (end == StillTrying ==> used == |openings|)
    && (end == ShutDown ==> openings[used - 1].Port?)
    && (end == GaveUp <==> used > 0 && end != ShutDown && AttemptAfter(openings[..used]) > max)
  }

  lemma RoundCounted(openings: seq<Opening>, used: nat, attempt: nat, delays: seq<nat>, max: nat, over: Option<End>,
                     next: nat)
    requires used < |openings| && Counted(openings, used, attempt, delays, max) && over != Some(StillTrying)
    requires over == Some(ShutDown) ==> openings[used].Port?
    requires over != Some(ShutDown) ==>
               next == Min(CounterFor(openings[used], attempt) + 1, U32_MAX) && (over == Some(GaveUp) <==> next > max)
    ensures match over
            case Some(end) => RunEnds(openings, used + 1, delays, max, end)
            case None => Counted(openings, used + 1, next, delays + [ReconnectBackoffSecs(next)], max)
  {
    CountOne(openings, used, attempt, delays, max);
  }

  /** A run of the manager before another opening. */
  ghost predicate Going(from: Moment, to: Moment, records: seq<SessionRecord>, config: Config, agenda: seq<Turn>,
                        rest: seq<Turn>, openings: seq<Opening>, used: nat, attempt: nat, delays: seq<nat>)
  {
    && Underway(from, to, records, Max1(config.maxAttempts), agenda, rest) && AllLost(records)
    && Counted(openings, used, attempt, delays, config.reopenMaxAttempts)
  }

  /** A run of the manager that is over. */
  ghost predicate Over(from: Moment, to: Moment, records: seq<SessionRecord>, config: Config, agenda: seq<Turn>,
                       rest: seq<Turn>, openings: seq<Opening>, used: nat, delays: seq<nat>, end: End)
  {
    && Underway(from, to, records, Max1(config.maxAttempts), agenda, rest)
    && (if end == ShutDown then EndsClosed(records, rest) else AllLost(records))
    && RunEnds(openings, used, delays, config.reopenMaxAttempts, end)
  }

  function DelaysAfter(delays: seq<nat>, over: Option<End>, next: nat): seq<nat> {
    if over.Some? then delays else delays + [ReconnectBackoffSecs(next)]
  }

  lemma RoundIsOver(from: Moment, at: Moment, to: Moment, records: seq<SessionRecord>, record: Option<SessionRecord>,
                    config: Config, agenda: seq<Turn>, before: seq<Turn>, rest: seq<Turn>, openings: seq<Opening>,
                    used: nat, attempt: nat, delays: seq<nat>, over: Option<End>, next: nat)
    requires used < |openings| && Going(from, at, records, config, agenda, before, openings, used, attempt, delays)
    requires Linked(at, to, record, Max1(config.maxAttempts)) && TurnsIn(record) + rest == before
    requires AttemptEnds(openings[used], attempt, config.reopenMaxAttempts, over, next, record, rest)
    ensures var all, waits := With(records, record), DelaysAfter(delays, over, next);
            match over
            case Some(end) => Over(from, to, all, config, agenda, rest, openings, used + 1, waits, end)
            case None => Going(from, to, all, config, agenda, rest, openings, used + 1, next, waits)
  {
    UnderwayMore(from, at, to, record, records, Max1(config.maxAttempts), agenda, before, rest);
    RoundCounted(openings, used, attempt, delays, config.reopenMaxAttempts, over, next);
    EndsMore(records, record, over == Some(ShutDown), rest);
  }

  /** Once round the manager's loop. */
  method Round(wire: Wire, store: MessageStore, config: Config, snapshot: Snapshot, openings: seq<Opening>, used: nat,
               attempt: nat, delays: seq<nat>, before: seq<Turn>, ghost from: Moment,
               ghost records: seq<SessionRecord>, ghost agenda: seq<Turn>)
    returns (over: Option<End>, next: nat, waits: seq<nat>, rest: seq<Turn>, ghost all: seq<SessionRecord>)
    requires Faultless(wire, store, snapshot) && AdmissibleTurns(before) && attempt <= U32_MAX && used < |openings|
    requires Going(from, Now(wire, store), records, config, agenda, before, openings, used, attempt, delays)
    modifies wire, store, snapshot
    ensures Faultless(wire, store, snapshot) && AdmissibleTurns(rest)
    ensures match over
            case Some(end) => Over(from, Now(wire, store), all, config, agenda, rest, openings, used + 1, waits, end)
            case None => Going(from, Now(wire, store), all, config, agenda, rest, openings, used + 1, next, waits)
    ensures over == Some(GaveUp) ==> LastAudit(store.audits, ReopenExhausted(config.reopenMaxAttempts))
    ensures over != Some(StillTrying) && !snapshot.serialConnected && !snapshot.responsive
  {
    ghost var at, record := Now(wire, store), None;
    over, rest, next, record := Attempt(wire, store, config, snapshot, openings[used], before, attempt);
    waits, all := DelaysAfter(delays, over, next), With(records, record);
    RoundIsOver(from, at, Now(wire, store), records, record, config, agenda, before, rest, openings, used, attempt,
                delays, over, next);
  }

  lemma NotYetGoing(m: Moment, config: Config, agenda: seq<Turn>, openings: seq<Opening>)
    ensures Going(m, m, [], config, agenda, agenda, openings, 0, 0, [])
  {
    NotYetUnderway(m, Max1(config.maxAttempts), agenda);
  }

  lemma GoingIsOver(from: Moment, to: Moment, records: seq<SessionRecord>, config: Config, agenda: seq<Turn>,
                    rest: seq<Turn>, openings: seq<Opening>, used: nat, attempt: nat, delays: seq<nat>)
    requires Going(from, to, records, config, agenda, rest, openings, used, attempt, delays) && used == |openings|
    ensures Over(from, to, records, config, agenda, rest, openings, used, delays, StillTrying)
  {
    assert openings[..used] == openings;
  }

  /** `run_modem_manager`, as long as there are openings to watch. The line is never
      faulted: over all connections nothing is written into text entry, no
      submission or status query goes out under the wrong character set, and
      nothing is deleted unstored. All that was done is the sessions' doing, and
      each session is as its record says. */
  method RunManager(wire: Wire, store: MessageStore, config: Config, snapshot: Snapshot, openings: seq<Opening>,
                    agenda: seq<Turn>)
    returns (end: End, used: nat, delays: seq<nat>, rest: seq<Turn>, ghost records: seq<SessionRecord>)
    requires Faultless(wire, store, snapshot) && AdmissibleTurns(agenda) && config.reopenMaxAttempts <= U32_MAX
    modifies wire, store, snapshot
    ensures Faultless(wire, store, snapshot) && Clean(Observe(START, wire.log))
    ensures Over(old(Now(wire, store)), Now(wire, store), records, config, agenda, rest, openings, used, delays, end)
    ensures end == GaveUp ==> LastAudit(store.audits, ReopenExhausted(config.reopenMaxAttempts))
    ensures used > 0 ==> !snapshot.serialConnected && !snapshot.responsive
  {
    var attempt: nat := 0;
    ghost var from := Now(wire, store);
    used, delays, rest, records := 0, [], agenda, [];
    NotYetGoing(from, config, agenda, openings);
    while used < |openings|
      invariant Faultless(wire, store, snapshot) && AdmissibleTurns(rest) && used <= |openings|
      invariant Going(from, Now(wire, store), records, config, agenda, rest, openings, used, attempt, delays)
      invariant attempt <= U32_MAX && (used > 0 ==> !snapshot.serialConnected && !snapshot.responsive)
    {
      var over;
      over, attempt, delays, rest, records :=
        Round(wire, store, config, snapshot, openings, used, attempt, delays, rest, from, records, agenda);
      used := used + 1;
      if over.Some? {
        return over.value, used, delays, rest, records;
      }
    }
    GoingIsOver(from, Now(wire, store), records, config, agenda, rest, openings, used, attempt, delays);
    end := StillTrying;
  }

  /** So over all connections a message that was ever on the modem is still there or
      is a row of the database. */
  lemma NothingIsLost(wire: Wire, store: MessageStore, sims: seq<Sim>, k: nat, index: nat)
    requires wire.Valid() && Clean(wire.seen) && Tied(wire, store) && Honest(wire.log, sims)
    requires k <= |wire.log| && index in sims[k]
    ensures var now := sims[|wire.log|];
              (index in now && now[index] == sims[k][index]) || sims[k][index] in store.rows
  {
    NoInboundLoss(wire.log, sims, k, |wire.log|, index);
    assert wire.log[..|wire.log|] == wire.log;
  }
}
