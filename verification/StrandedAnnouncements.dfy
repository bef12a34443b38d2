/** Announcements taken up but never visited: those still queued when the port is lost.
    The queue goes with the session, and no later session visits them. */
module StrandedAnnouncements {
  import opened Text
  import opened Protocol
  import opened Frames
  import opened LineTrace
  import opened Announcements
  import opened AnnouncementTheorems
  import opened Transport
  import opened Inbound
  import opened Requests
  import opened Session
  import opened VisitTheorems
  import opened Manager
  import opened Scenarios

  /** What a session took up and did not visit, in order. */
  function Stranded(r: SessionRecord): seq<nat> {
    var announced, n := AnnouncedIn(r.end.log), |AnnouncedIn(r.start.log)| + |r.visits|;
    if n <= |announced| then announced[n..] else []
  }

  /** What a session does with its queue, and where it stands on the trace: from one
      moment at rest to another. */
  ghost predicate QueueKept(r: SessionRecord) {
    && r.start.log <= r.end.log && AttentionAt(r.start.log) == AtRest && AttentionAt(r.end.log) == AtRest
    && AnnouncedIn(r.start.log) + IndicesOf(r.visits) <= AnnouncedIn(r.end.log)
    && AllButLastCompleted(r.visits)
    && (r.outcome == ChannelClosed ==>
          AllCompleted(r.visits) && AnnouncedIn(r.end.log) == AnnouncedIn(r.start.log) + IndicesOf(r.visits))
  }

  lemma FaithfulKeeps(r: SessionRecord, max: nat)
    requires Faithful(r, max)
    ensures QueueKept(r)
  {
  }

  /** The announcements a session takes up are those it visits and those it strands,
      and it strands none when the channel closes. */
  lemma SessionAnnounces(r: SessionRecord)
    requires QueueKept(r)
    ensures AnnouncedIn(r.end.log) == AnnouncedIn(r.start.log) + (IndicesOf(r.visits) + Stranded(r))
    ensures r.outcome == ChannelClosed ==> Stranded(r) == []
  {
    IndicesVisited(r.visits);
    SplitOff(AnnouncedIn(r.start.log), IndicesOf(r.visits), AnnouncedIn(r.end.log));
  }

  lemma SplitOff(a: seq<nat>, b: seq<nat>, all: seq<nat>)
    requires a + b <= all
    ensures all == a + (b + all[|a| + |b|..])
    ensures all == a + b ==> all[|a| + |b|..] == []
  {
    Associate(a, b, all[|a| + |b|..]);
  }

  function AnnouncedOver(records: seq<SessionRecord>): seq<nat> {
    if records == [] then []
    else
      var last := records[|records| - 1];
      AnnouncedOver(records[..|records| - 1]) + (IndicesOf(last.visits) + Stranded(last))
  }

  /** Over a run the announcements taken up are, session by session, those visited and
      then those stranded. */
  lemma {:induction false} RunAnnounces(from: Moment, to: Moment, records: seq<SessionRecord>, max: nat)
    requires Chained(from, to, records, max)
    ensures AnnouncedIn(to.log) == AnnouncedIn(from.log) + AnnouncedOver(records)
    decreases |records|
  {
    if records == [] {
      assert AnnouncedIn(from.log) + [] == AnnouncedIn(from.log);
    } else {
      var front, last := records[..|records| - 1], records[|records| - 1];
      RunAnnounces(from, last.start, front, max);
      FaithfulKeeps(last, max);
      SessionAnnounces(last);
      Associate(AnnouncedIn(from.log), AnnouncedOver(front), IndicesOf(last.visits) + Stranded(last));
    }
  }

  // Announcement by announcement

  ghost predicate DueAt(log: seq<Op>, k: nat) {
    Heeds(log, k) && Announced(LineAt(log, k)) != []
  }

  /** The announcement at `k` of the trace was taken up in this session. */
  ghost predicate DueIn(r: SessionRecord, k: nat) {
    |r.start.log| <= k < |r.end.log| && DueAt(r.end.log, k)
  }

  /** What follows a moment at rest does not change what was taken up before it. */
  lemma DueLater(log: seq<Op>, longer: seq<Op>, k: nat)
    requires log <= longer && AttentionAt(log) == AtRest && k < |log|
    ensures DueAt(longer, k) == DueAt(log, k)
  {
    var since := HeededSince(log, longer);
    HeededIsHeeds(log, k);
    HeededIsHeeds(longer, k);
    InEither(HeededAt(log), since, k);
  }

  lemma InEither(a: seq<nat>, b: seq<nat>, k: nat)
    requires k !in b
    ensures k in a + b <==> k in a
  {
  }

  lemma NothingDue(a: Moment, b: Moment, k: nat)
    requires Uneventful(a, b) && AttentionAt(a.log) == AtRest && |a.log| <= k < |b.log|
    ensures !DueAt(b.log, k)
  {
    var positions := AnnouncedSince(a.log, b.log);
    SameLength(AnnouncedIn(a.log), IndicesAt(b.log, positions));
    AnnouncingMatches(b.log, positions);
    AnnouncingMembers(b.log, positions, k);
  }

  lemma SameLength(a: seq<nat>, b: seq<nat>)
    requires a + b == a
    ensures b == []
  {
    assert |a + b| == |a| + |b|;
  }

  /** The sessions stand one after another on the trace between two moments. */
  ghost predicate InLine(from: seq<Op>, to: seq<Op>, records: seq<SessionRecord>) {
    && from <= to
    && (forall i :: 0 <= i < |records| ==>
        QueueKept(records[i]) && from <= records[i].start.log && records[i].end.log <= to)
    && (forall i, j :: 0 <= i < j < |records| ==> records[i].end.log <= records[j].start.log)
  }

  /** The last session of a run, and the run before it. */
  lemma LastSession(from: Moment, to: Moment, records: seq<SessionRecord>, max: nat)
    requires Chained(from, to, records, max) && records != []
    ensures var n := |records| - 1;
              Chained(from, records[n].start, records[..n], max) && Faithful(records[n], max)
                  && Uneventful(records[n].end, to)
  {
  }

  lemma OneMoreInLine(from: seq<Op>, to: seq<Op>, records: seq<SessionRecord>, last: SessionRecord)
    requires InLine(from, last.start.log, records) && QueueKept(last) && last.end.log <= to
    ensures InLine(from, to, records + [last])
  {
  }

  lemma {:induction false} RunInOrder(from: Moment, to: Moment, records: seq<SessionRecord>, max: nat)
    requires Chained(from, to, records, max)
    ensures InLine(from.log, to.log, records)
    decreases |records|
  {
    if records != [] {
      var n := |records| - 1;
      LastSession(from, to, records, max);
      RunInOrder(from, records[n].start, records[..n], max);
      FaithfulKeeps(records[n], max);
      OneMoreInLine(from.log, to.log, records[..n], records[n]);
      FrontAndLast(records);
    }
  }

  /** Whatever is taken up in a run is taken up in one of its sessions. */
  lemma {:induction false} DueInSession(from: Moment, to: Moment, records: seq<SessionRecord>, max: nat, k: nat)
    returns (i: nat)
    requires Chained(from, to, records, max) && AttentionAt(from.log) == AtRest
    requires |from.log| <= k < |to.log| && DueAt(to.log, k)
    ensures i < |records| && DueIn(records[i], k)
    decreases |records|
  {
    if records == [] {
      NothingDue(from, to, k);
      assert false;
    } else {
      var front, last := records[..|records| - 1], records[|records| - 1];
      LastSession(from, to, records, max);
      FaithfulKeeps(last, max);
      RunInOrder(from, to, records, max);
      if k >= |last.end.log| {
        NothingDue(last.end, to, k);
        assert false;
      } else {
        DueLater(last.end.log, to.log, k);
        if k >= |last.start.log| {
          i := |records| - 1;
        } else {
          DueLater(last.start.log, last.end.log, k);
          i := DueInSession(from, last.start, front, max, k);
        }
      }
    }
  }

  lemma DueInOneSession(from: Moment, to: Moment, records: seq<SessionRecord>, max: nat, k: nat, i: nat, j: nat)
    requires Chained(from, to, records, max) && i < |records| && j < |records| && DueIn(records[i], k)
              && DueIn(records[j], k)
    ensures i == j
  {
    RunInOrder(from, to, records, max);
  }

  /** The announcements taken up between two moments, and where they stand. */
  lemma DueBetween(log: seq<Op>, longer: seq<Op>, indices: seq<nat>) returns (positions: seq<nat>)
    requires log <= longer && AttentionAt(log) == AtRest && AnnouncedIn(longer) == AnnouncedIn(log) + indices
    ensures Ascending(positions, |log|, |longer|) && |positions| == |indices|
    ensures forall k: nat :: k in positions <==> |log| <= k < |longer| && DueAt(longer, k)
    ensures forall j :: 0 <= j < |positions| ==> Announced(LineAt(longer, positions[j])) == [indices[j]]
  {
    var heeded := AnnouncedSince(log, longer);
    positions := Announcing(longer, heeded);
    AnnouncingOrdered(longer, heeded, |log|, |longer|);
    AnnouncingMatches(longer, heeded);
    SameTail(AnnouncedIn(log), IndicesAt(longer, heeded), indices);
    forall k: nat
      ensures k in positions <==> |log| <= k < |longer| && DueAt(longer, k)
    {
      AnnouncingMembers(longer, heeded, k);
    }
  }

  /** The announcements a session takes up, in order, and where they stand: those
      visited first, then those stranded. */
  lemma SessionDue(r: SessionRecord) returns (positions: seq<nat>)
    requires QueueKept(r)
    ensures Ascending(positions, |r.start.log|, |r.end.log|) && forall k: nat :: k in positions <==> DueIn(r, k)
    ensures |positions| == |r.visits| + |Stranded(r)| && |IndicesOf(r.visits)| == |r.visits|
    ensures forall j :: 0 <= j < |positions| ==>
              Announced(LineAt(r.end.log, positions[j])) == [(IndicesOf(r.visits) + Stranded(r))[j]]
  {
    SessionAnnounces(r);
    IndicesVisited(r.visits);
    positions := DueBetween(r.start.log, r.end.log, IndicesOf(r.visits) + Stranded(r));
  }

  /** What may be said of a session's `j`-th announcement. */
  ghost predicate Fate(r: SessionRecord, j: nat, announced: seq<nat>) {
    if j < |r.visits| then
      && announced == [r.visits[j].visit.index]
      && (!Completed(r.visits[j].visit) ==> j == |r.visits| - 1 && r.outcome == PortLost)
    else j - |r.visits| < |Stranded(r)| && r.outcome == PortLost && announced == [Stranded(r)[j - |r.visits|]]
  }

  lemma FateIs(r: SessionRecord, j: nat)
    requires QueueKept(r) && j < |r.visits| + |Stranded(r)|
    ensures |IndicesOf(r.visits)| == |r.visits| && Fate(r, j, [(IndicesOf(r.visits) + Stranded(r))[j]])
  {
    IndicesVisited(r.visits);
    SessionAnnounces(r);
  }

  lemma SameTail(a: seq<nat>, b: seq<nat>, c: seq<nat>)
    requires a + b == a + c
    ensures b == c
  {
    assert (a + b)[|a|..] == b && (a + c)[|a|..] == c;
  }

  /** In a run of the manager an announcement taken up at position `k` of the trace is
      due in exactly one session, the `j`-th of those due in it. It is visited if and
      only if the session came that far, and otherwise stranded: that session lost the
      port, and no session visits it. Of the visits only the last one of a session
      that lost the port may have been cut short. */
  lemma VisitedOrStranded(from: Moment, to: Moment, records: seq<SessionRecord>, max: nat, k: nat)
    returns (i: nat, positions: seq<nat>, j: nat)
    requires Chained(from, to, records, max) && AttentionAt(from.log) == AtRest
    requires |from.log| <= k < |to.log| && DueAt(to.log, k)
    ensures i < |records| && DueIn(records[i], k)
    ensures forall h: nat :: h < |records| && DueIn(records[h], k) ==> h == i
    ensures (forall p: nat :: p in positions <==> DueIn(records[i], p)) && Ascending(positions, 0, |to.log|)
    ensures j < |positions| == |records[i].visits| + |Stranded(records[i])| && positions[j] == k
    ensures Fate(records[i], j, Announced(LineAt(to.log, k)))
  {
    i := DueInSession(from, to, records, max, k);
    forall h: nat | h < |records| && DueIn(records[h], k)
      ensures h == i
    {
      DueInOneSession(from, to, records, max, k, h, i);
    }
    RunInOrder(from, to, records, max);
    positions := SessionDue(records[i]);
    j :| 0 <= j < |positions| && positions[j] == k;
    FateIs(records[i], j);
  }

  // A session that strands one

  /** An answered command that is heeded adds what its data announce. */
  lemma AnsweredHeeded(log: seq<Op>, frame: Frame, data: seq<string>)
    requires Unoccupied(log) && IsCommand(frame) && IsHeeded(frame) && !frame.ReadMessage? && AllData(data)
    ensures Unoccupied(log + Answering(frame, data))
    ensures Observe(START, log + Answering(frame, data)) == Step(Observe(START, log), Wrote(frame))
    ensures HeedAll(NO_HEED, log + Answering(frame, data)) == Hearing(HeedAll(NO_HEED, log), CmtiIndices(data))
  {
    var m, h, last, asked := Observe(START, log), HeedAll(NO_HEED, log), Received("OK"), log + [Wrote(frame)];
    assert log + Answering(frame, data) == asked + Reads(data) + [last];
    OkAnnouncesNothing(data);
    ObserveSnoc(START, log, Wrote(frame));
    ObserveOn(START, asked, Reads(data));
    ObserveSnoc(START, asked + Reads(data), last);
    CommandSettles(m, frame, data, last);
    HeedSnoc(NO_HEED, log, Wrote(frame));
    HeedOn(NO_HEED, asked, Reads(data));
    HeedSnoc(NO_HEED, asked + Reads(data), last);
    HeededExchange(h, frame, data, last);
  }

  lemma OkAnnouncesNothing(data: seq<string>)
    requires AllData(data)
    ensures IsTerminator("OK") && CmtiIndices(Gather(data + ["OK"])) == CmtiIndices(data)
  {
    TrimTight("OK");
    GatherMore(data, "OK");
    GatherAnnounces(data);
    assert CmtiIndices(data) + [] == CmtiIndices(data);
  }

  /** Two messages announced in the answer to a caller's command. */
  function TwoAnnounced(a: nat, b: nat): seq<string> {
    [Announcement(a), Announcement(b)]
  }

  lemma TwoAre(a: nat, b: nat)
    requires a <= U32_MAX && b <= U32_MAX
    ensures AllData(TwoAnnounced(a, b)) && CmtiIndices(TwoAnnounced(a, b)) == [a, b]
  {
    AnnouncementIs(a);
    AnnouncementIs(b);
    TwoIndices(Announcement(a), Announcement(b));
  }

  lemma TwoIndices(a: string, b: string)
    ensures CmtiIndices([a, b]) == Announced(a) + Announced(b)
  {
    CmtiSnoc([], a);
    CmtiSnoc([a], b);
    assert [] + [a] == [a] && [a] + [b] == [a, b];
  }

  const RAW := "ATI"

  lemma RawIsOrdinary()
    ensures Ordinary(RAW)
  {
    var upper := UpperCase(RAW);
    forall verb | verb in PRIVILEGED
      ensures !Mentions(upper, verb)
    {
      NotMentioned(upper, verb);
    }
  }

  lemma NotMentioned(text: string, verb: string)
    requires text == RAW && verb in PRIVILEGED
    ensures !Mentions(text, verb)
  {
    if |verb| <= 3 {
      assert verb == "ATZ" || verb == "&F";
      assert text[0] == 'A' && text[1] == 'T' && text[2] == 'I';
      assert "ATZ"[2] == 'Z' && "&F"[0] == '&';
    }
  }

  /** The first refresh of a session. */
  function Asked(log: seq<Op>, answers: seq<seq<string>>): seq<Op>
    requires |answers| == 4
  {
    log + StatusOps(answers, 0)
  }

  function AfterRaw(log: seq<Op>, answers: seq<seq<string>>, a: nat, b: nat): seq<Op>
    requires |answers| == 4
  {
    Asked(log, answers) + Answering(PassedOn(RAW), TwoAnnounced(a, b))
  }

  /** The port goes as the first of the two is about to be read. */
  function PortGone(log: seq<Op>, answers: seq<seq<string>>, a: nat, b: nat): seq<Op>
    requires |answers| == 4
  {
    AfterRaw(log, answers, a, b) + [WriteFailed(ReadMessage(a))]
  }

  function StrandingSession(log: seq<Op>, answers: seq<seq<string>>, a: nat, b: nat): SessionRecord
    requires |answers| == 4
  {
    var asked, served, gone := Asked(log, answers), AfterRaw(log, answers, a, b), PortGone(log, answers, a, b);
    SessionRecord(Moment(log, [], []), Moment(gone, [], []),
                  [VisitAt(Visit(a, [], 0, Interrupted, []), served, gone)],
                  [Served(Raw(RAW), RawReply(Gather(TwoAnnounced(a, b) + ["OK"]), Ok), [], asked, served)],
                  [Turn(0, 0, Ask(Raw(RAW)))], [Span(log, asked, served)], PortLost)
  }

  lemma RawChangesNothing(m: Monitor)
    requires Quiet(m) && m.line.mode == CommandMode
    ensures Step(m, Wrote(PassedOn(RAW))) == m
  {
    assert forall query :: query in STATUS_QUERIES ==> |query| > 3;
  }

  /** Up to the moment the port goes, what was taken up are the two announcements. */
  lemma StrandingTrace(log: seq<Op>, answers: seq<seq<string>>, a: nat, b: nat)
    requires Startable(log) && |answers| == 4 && AllAnswers(answers) && a <= U32_MAX && b <= U32_MAX
    ensures Unoccupied(Asked(log, answers)) && Observe(START, Asked(log, answers)) == Observe(START, log)
    ensures Unoccupied(AfterRaw(log, answers, a, b))
              && Observe(START, AfterRaw(log, answers, a, b)) == Observe(START, log)
    ensures Observe(START, PortGone(log, answers, a, b)) == Observe(START, log)
    ensures HeedAll(NO_HEED, PortGone(log, answers, a, b)) == Hearing(HeedAll(NO_HEED, log), [a, b])
  {
    var served := AfterRaw(log, answers, a, b);
    StatusUnheeded(log, answers, 0);
    TwoAre(a, b);
    AnsweredHeeded(Asked(log, answers), PassedOn(RAW), TwoAnnounced(a, b));
    RawChangesNothing(Observe(START, log));
    ObserveSnoc(START, served, WriteFailed(ReadMessage(a)));
    HeedSnoc(NO_HEED, served, WriteFailed(ReadMessage(a)));
    NotWritten(Observe(START, served), ReadMessage(a));
  }

  lemma RawAnswered(log: seq<Op>, data: seq<string>)
    requires AllData(data)
    ensures AnsweredOn(log, log + Answering(PassedOn(RAW), data), PassedOn(RAW), Exchanged(Gather(data + ["OK"]), Ok))
  {
    TrimTight("OK");
    var all := log + Answering(PassedOn(RAW), data);
    assert all == log + [Wrote(PassedOn(RAW))] + Reads(data) + [Received("OK")];
  }

  lemma StrandingServes(log: seq<Op>, answers: seq<seq<string>>, a: nat, b: nat, max: nat)
    requires Startable(log) && |answers| == 4 && AllAnswers(answers) && a <= U32_MAX && b <= U32_MAX
    ensures var r := StrandingSession(log, answers, a, b);
              ServedOn(log, r.end.log, r.served, max) && RequestsServed(r.served) == RequestsIn(r.turns)
                  && TriesOf(r.served) == []
  {
    var r := StrandingSession(log, answers, a, b);
    var next, turn := r.served[0], r.turns[0];
    StrandingTrace(log, answers, a, b);
    TwoAre(a, b);
    RawAnswered(next.before, TwoAnnounced(a, b));
    RawServed(RAW, next.response, next.before, next.after, max);
    ServedMore(log, [], next, max);
    ServedSnoc([], next);
    TurnSnoc([], turn);
    assert [] + [next] == r.served && [] + [turn] == r.turns;
  }

  lemma StrandingTurns(log: seq<Op>, answers: seq<seq<string>>, a: nat, b: nat)
    requires |answers| == 4
    ensures var r := StrandingSession(log, answers, a, b);
              TurnsOn(log, r.end.log, r.turns, r.spans)
  {
    var r := StrandingSession(log, answers, a, b);
    StatusWrites(log, answers, 0);
    AllQueries();
    TurnMore(log, log, r.end.log, [], [], r.turns[0], r.spans[0]);
    assert [] + [r.turns[0]] == r.turns && [] + [r.spans[0]] == r.spans;
  }

  lemma StrandingVisits(log: seq<Op>, answers: seq<seq<string>>, a: nat, b: nat)
    requires |answers| == 4
    ensures var r := StrandingSession(log, answers, a, b);
              && VisitsOn(log, r.end.log, r.visits) && IndicesOf(r.visits) == [a]
              && TouchesOf(r.visits) == [] && RowsIn(r.visits) == [] && AuditsIn(r.visits) == []
  {
    var r := StrandingSession(log, answers, a, b);
    var visit := r.visits[0];
    VisitsMore(log, [], visit);
    VisitSnoc([], visit);
    assert [] + [visit] == r.visits;
  }

  lemma StrandingAccounts(log: seq<Op>, answers: seq<seq<string>>, a: nat, b: nat, max: nat)
    requires Startable(log) && |answers| == 4 && AllAnswers(answers) && a <= U32_MAX && b <= U32_MAX
    ensures var r := StrandingSession(log, answers, a, b);
              Accounts(Start(log, Observe(START, log), [], []), r.end.log, Observe(START, r.end.log), [], [], r.visits,
                  r.served, max)
  {
    StrandingTrace(log, answers, a, b);
    StrandingServes(log, answers, a, b, max);
    StrandingVisits(log, answers, a, b);
    NothingYet(Start(log, Observe(START, log), [], []), max);
  }

  /** What makes a session that lost the port faithful. */
  lemma LostIsFaithful(r: SessionRecord, max: nat)
    requires Accounts(Start(r.start.log, Observe(START, r.start.log), r.start.rows, r.start.audits),
                      r.end.log, Observe(START, r.end.log), r.end.rows, r.end.audits, r.visits, r.served, max)
    requires HeedAll(NO_HEED, r.start.log).attention == AtRest && HeedAll(NO_HEED, r.end.log).attention == AtRest
    requires AllButLastCompleted(r.visits) && AnnouncedIn(r.start.log) + IndicesOf(r.visits) <= AnnouncedIn(r.end.log)
    requires RequestsServed(r.served) == RequestsIn(r.turns) && TurnsOn(r.start.log, r.end.log, r.turns, r.spans)
    requires r.outcome == PortLost && NoneClosed(r.turns)
    ensures Faithful(r, max)
  {
  }

  lemma StrandedIs(r: SessionRecord, a: nat, b: nat)
    requires AnnouncedIn(r.end.log) == AnnouncedIn(r.start.log) + [a, b] && |r.visits| == 1
    ensures AnnouncedIn(r.start.log) + [a] <= AnnouncedIn(r.end.log) && Stranded(r) == [b]
  {
    Associate(AnnouncedIn(r.start.log), [a], [b]);
  }

  lemma StrandingQueue(log: seq<Op>, answers: seq<seq<string>>, a: nat, b: nat)
    requires Startable(log) && |answers| == 4 && AllAnswers(answers) && a <= U32_MAX && b <= U32_MAX
    ensures var r := StrandingSession(log, answers, a, b);
              && HeedAll(NO_HEED, log).attention == AtRest && HeedAll(NO_HEED, r.end.log).attention == AtRest
              && AllButLastCompleted(r.visits) && AnnouncedIn(log) + IndicesOf(r.visits) <= AnnouncedIn(r.end.log)
              && NoneClosed(r.turns)
  {
    StrandingTrace(log, answers, a, b);
    StrandingVisits(log, answers, a, b);
    StrandedIs(StrandingSession(log, answers, a, b), a, b);
  }

  lemma StrandingIsFaithful(log: seq<Op>, answers: seq<seq<string>>, a: nat, b: nat, max: nat)
    requires Startable(log) && |answers| == 4 && AllAnswers(answers) && a <= U32_MAX && b <= U32_MAX
    ensures Faithful(StrandingSession(log, answers, a, b), max)
  {
    StrandingAccounts(log, answers, a, b, max);
    StrandingServes(log, answers, a, b, max);
    StrandingTurns(log, answers, a, b);
    StrandingQueue(log, answers, a, b);
    LostIsFaithful(StrandingSession(log, answers, a, b), max);
  }

  /** From any moment at which a session may start: two messages are announced, the
      port goes as the first is about to be read, and the second is stranded. The
      modem was asked for neither. */
  lemma OneStranded(log: seq<Op>, answers: seq<seq<string>>, a: nat, b: nat, max: nat)
    requires Startable(log) && |answers| == 4 && AllAnswers(answers) && a <= U32_MAX && b <= U32_MAX
    ensures var r := StrandingSession(log, answers, a, b);
              && Faithful(r, max) && Clean(Observe(START, r.end.log)) && r.outcome == PortLost
              && AdmissibleTurns(r.turns)
              && AnnouncedIn(r.end.log) == AnnouncedIn(r.start.log) + [a, b]
              && IndicesOf(r.visits) == [a] && TouchesOf(r.visits) == [] && Stranded(r) == [b]
  {
    StrandingIsFaithful(log, answers, a, b, max);
    StrandingLeaves(log, answers, a, b);
  }

  lemma StrandingLeaves(log: seq<Op>, answers: seq<seq<string>>, a: nat, b: nat)
    requires Startable(log) && |answers| == 4 && AllAnswers(answers) && a <= U32_MAX && b <= U32_MAX
    ensures var r := StrandingSession(log, answers, a, b);
              && Clean(Observe(START, r.end.log)) && AdmissibleTurns(r.turns)
              && AnnouncedIn(r.end.log) == AnnouncedIn(r.start.log) + [a, b]
              && IndicesOf(r.visits) == [a] && TouchesOf(r.visits) == [] && Stranded(r) == [b]
  {
    RawIsOrdinary();
    StrandingTrace(log, answers, a, b);
    StrandingVisits(log, answers, a, b);
    StrandedIs(StrandingSession(log, answers, a, b), a, b);
  }
}
