/** Announcements that go by unseen: those among the lines of any exchange but a
    read, a delete or a raw command. */
module MissedAnnouncements {
  import opened Text
  import opened Protocol
  import opened Frames
  import opened LineTrace
  import opened Announcements
  import opened AnnouncementTheorems
  import opened Transport
  import opened Sending
  import opened Inbound
  import opened Setup
  import opened Requests
  import opened Session
  import opened VisitTheorems
  import opened Scenarios

  /** A line that arrives while the answer to any other frame is awaited is never
      taken up, whatever follows. */
  lemma MissedIsNotHeeded(log: seq<Op>, w: nat, k: nat)
    requires k < |log| && Unreleased(log, w, k) && !IsHeeded(log[w].frame)
    ensures !Heeds(log, k)
  {
    if Heeds(log, k) {
      HeededWhileAnswering(log, w, k);
    }
  }

  lemma HeededWhileAnswering(log: seq<Op>, w: nat, k: nat)
    requires Heeds(log, k) && Unreleased(log, w, k)
    ensures IsHeeded(log[w].frame)
  {
    var v, c :| InExchange(log, v, k, c);
    ExchangeIsHeeded(log, v, k, c, w);
  }

  lemma ExchangeIsHeeded(log: seq<Op>, v: int, k: int, c: int, w: nat)
    requires InExchange(log, v, k, c) && Unreleased(log, w, k)
    ensures IsHeeded(log[w].frame)
  {
    assert Unreleased(log, v, k);
    OnlyOneUnreleased(log, v, w, k);
  }

  // Sessions that miss some

  /** Whatever arrives in the answers to a status refresh: if the channel is closed
      after it, the session is over with nothing visited. */
  method ClosedAfterRefresh(wire: Wire, store: MessageStore, config: Config, snapshot: Snapshot,
                            answers: seq<seq<string>>)
    returns (outcome: SessionOutcome, ghost record: SessionRecord)
    requires Sound(wire) && Tied(wire, store) && Current(wire, snapshot) && !wire.dead
    requires |answers| == 4 && AllAnswers(answers) && wire.script == PlayingAll(answers)
    modifies wire, store, snapshot
    ensures outcome == ChannelClosed && Faithful(record, Max1(config.maxAttempts)) && record.visits == []
    ensures record.start.log == old(wire.log) && record.end.log == wire.log == old(wire.log) + StatusOps(answers, 0)
    ensures Sound(wire)
  {
    ghost var log := wire.log;
    RestIsFree(wire);
    var rest;
    outcome, rest, record := RunSession(wire, store, config, snapshot, []);
    RanAsPlayed(log, answers, wire.log, wire.script, outcome == ChannelClosed);
    NothingDue(log, record, answers, Max1(config.maxAttempts));
  }

  lemma RanAsPlayed(log: seq<Op>, answers: seq<seq<string>>, after: seq<Op>, rest: seq<Event>, ok: bool)
    requires |answers| == 4 && AllAnswers(answers) && StatusRan(log, PlayingAll(answers), after, rest, ok)
    ensures ok && after == log + StatusOps(answers, 0)
  {
    StatusPlays(answers, 0);
  }

  lemma NothingDue(log: seq<Op>, r: SessionRecord, answers: seq<seq<string>>, max: nat)
    requires |answers| == 4 && AllAnswers(answers) && Startable(log)
    requires Faithful(r, max) && r.start.log == log && r.end.log == log + StatusOps(answers, 0)
    ensures r.visits == []
  {
    StatusUnheeded(log, answers, 0);
    VisitsAreAnnounced(r, max);
    NoneVisited(AnnouncedIn(log), r.visits);
  }

  lemma VisitsAreAnnounced(r: SessionRecord, max: nat)
    requires Faithful(r, max)
    ensures AnnouncedIn(r.start.log) + IndicesOf(r.visits) <= AnnouncedIn(r.end.log)
  {
  }

  lemma RestIsFree(wire: Wire)
    requires Sound(wire) && !wire.dead
    ensures Startable(wire.log)
  {
    SideOf(wire);
  }

  lemma NoneVisited(announced: seq<nat>, visits: seq<VisitAt>)
    requires announced + IndicesOf(visits) <= announced
    ensures visits == []
  {
    IndicesVisited(visits);
  }

  /** A status refresh with the announcement in the answer to `AT+CREG?`. */
  function MissedAnswers(index: nat): seq<seq<string>> {
    [["+CPIN: READY"], [Announcement(index), "+CREG: 0,1"], ["+CSQ: 20,99"], ["+COPS: 0"]]
  }

  lemma AnswersAreData(index: nat)
    requires index <= U32_MAX
    ensures AllAnswers(MissedAnswers(index))
  {
    AnnouncementIs(index);
    LinesAreData();
    FourAnswers("+CPIN: READY", Announcement(index), "+CREG: 0,1", "+CSQ: 20,99", "+COPS: 0");
  }

  lemma LinesAreData()
    ensures !IsTerminator("+CPIN: READY") && !IsTerminator("+CREG: 0,1")
    ensures !IsTerminator("+CSQ: 20,99") && !IsTerminator("+COPS: 0")
  {
    NotAnError("+CPIN: READY");
    NotAnError("+CREG: 0,1");
    NotAnError("+CSQ: 20,99");
    NotAnError("+COPS: 0");
  }

  lemma FourAnswers(sim: string, extra: string, network: string, signal: string, operator: string)
    requires !IsTerminator(sim) && !IsTerminator(extra) && !IsTerminator(network)
    requires !IsTerminator(signal) && !IsTerminator(operator)
    ensures AllAnswers([[sim], [extra, network], [signal], [operator]])
  {
  }

  function Refreshed(log: seq<Op>, index: nat): seq<Op> {
    log + StatusOps(MissedAnswers(index), 0)
  }

  /** The announcement's place in the trace. */
  function MissedPosition(log: seq<Op>): nat {
    |log| + 4
  }

  lemma MissedIsThere(log: seq<Op>, index: nat)
    ensures var all, k := Refreshed(log, index), MissedPosition(log);
              k < |all| && all[k] == Received(Announcement(index)) && all[k - 1] == Wrote(Command("AT+CREG?"))
  {
    var answers := MissedAnswers(index);
    var first, second := Answering(Command("AT+CPIN?"), answers[0]), Answering(Command("AT+CREG?"), answers[1]);
    assert |first| == 3 && second[0] == Wrote(Command("AT+CREG?")) && second[1] == Received(Announcement(index));
    assert answers[1..][0] == answers[1];
    assert StatusOps(answers, 0) == first + (second + StatusOps(answers[1..][1..], 2));
  }

  lemma MissedOnRefresh(log: seq<Op>, index: nat)
    requires index <= U32_MAX
    ensures var all, k := Refreshed(log, index), MissedPosition(log);
              && log <= all && |log| <= k < |all| && Announced(LineAt(all, k)) == [index] && !Heeds(all, k)
  {
    MissedIsThere(log, index);
    MissedIsNotHeeded(Refreshed(log, index), MissedPosition(log) - 1, MissedPosition(log));
    AnnouncementIs(index);
  }

  /** So on this script `run_session_inner` receives `+CMTI: "SM",<index>` and is over
      without a fault, its channel closed, the index never visited. */
  method AnnouncementMissed(wire: Wire, store: MessageStore, config: Config, snapshot: Snapshot, index: nat)
    returns (outcome: SessionOutcome, ghost record: SessionRecord, ghost k: nat)
    requires Sound(wire) && Tied(wire, store) && Current(wire, snapshot) && !wire.dead
    requires index <= U32_MAX && wire.script == PlayingAll(MissedAnswers(index))
    modifies wire, store, snapshot
    ensures outcome == ChannelClosed && Faithful(record, Max1(config.maxAttempts)) && Sound(wire)
    ensures |record.start.log| <= k < |record.end.log| && Announced(LineAt(record.end.log, k)) == [index]
    ensures !Heeds(record.end.log, k) && record.visits == [] && record.end.log == wire.log
  {
    AnswersAreData(index);
    k := MissedPosition(wire.log);
    MissedOnRefresh(wire.log, index);
    outcome, record := ClosedAfterRefresh(wire, store, config, snapshot, MissedAnswers(index));
  }

  /** The trace of such a session from power-up on, for its first connection. */
  lemma MissedTrace(index: nat)
    requires index <= U32_MAX
    ensures var start, end, k := SetUp(), Refreshed(SetUp(), index), MissedPosition(SetUp());
              && Unoccupied(start) && Clean(Observe(START, end)) && |start| <= k < |end|
              && Announced(LineAt(end, k)) == [index]
              && !Heeds(end, k) && AnnouncedIn(end) == AnnouncedIn(start)
  {
    SetUpIsFree();
    AnswersAreData(index);
    StatusUnheeded(SetUp(), MissedAnswers(index), 0);
    MissedOnRefresh(SetUp(), index);
  }
}
