/** Runs of the driver against a modem whose script is known: setup, status refreshes,
    and what the trace then shows. */
module Scenarios {
  import opened Text
  import opened Protocol
  import opened Frames
  import opened LineTrace
  import opened Announcements
  import opened Transport
  import opened Setup

  /** The trace of a command answered with some data and `OK`. */
  function Answering(frame: Frame, data: seq<string>): seq<Op> {
    [Wrote(frame)] + Reads(data) + [Received("OK")]
  }

  lemma {:induction false} ObserveOn(m: Monitor, a: seq<Op>, b: seq<Op>)
    ensures Observe(m, a + b) == Observe(Observe(m, a), b)
  {
    if b == [] {
      assert a + b == a;
    } else {
      ObserveOn(m, a, b[..|b| - 1]);
      assert (a + b)[..|a + b| - 1] == a + b[..|b| - 1];
    }
  }

  lemma {:induction false} HeedOn(h: Heed, a: seq<Op>, b: seq<Op>)
    ensures HeedAll(h, a + b) == HeedAll(HeedAll(h, a), b)
  {
    if b == [] {
      assert a + b == a;
    } else {
      HeedOn(h, a, b[..|b| - 1]);
      assert (a + b)[..|a + b| - 1] == a + b[..|b| - 1];
    }
  }

  /** Between exchanges, in command mode. */
  predicate Unoccupied(log: seq<Op>) {
    Quiet(Observe(START, log)) && Observe(START, log).line.mode == CommandMode
        && HeedAll(NO_HEED, log).attention == AtRest
  }

  /** An answered command changes what it selects, and nothing its answer announces
      is heeded. */
  lemma AnsweredUnheeded(log: seq<Op>, frame: Frame, data: seq<string>)
    requires Unoccupied(log) && IsCommand(frame) && !IsHeeded(frame) && AllData(data)
    ensures Unoccupied(log + Answering(frame, data))
    ensures Observe(START, log + Answering(frame, data)) == Step(Observe(START, log), Wrote(frame))
    ensures HeedAll(NO_HEED, log + Answering(frame, data)) == HeedAll(NO_HEED, log)
  {
    var m, h, last := Observe(START, log), HeedAll(NO_HEED, log), Received("OK");
    var asked := log + [Wrote(frame)];
    assert log + Answering(frame, data) == asked + Reads(data) + [last];
    TrimTight("OK");
    ObserveSnoc(START, log, Wrote(frame));
    ObserveOn(START, asked, Reads(data));
    ObserveSnoc(START, asked + Reads(data), last);
    CommandSettles(m, frame, data, last);
    HeedSnoc(NO_HEED, log, Wrote(frame));
    HeedOn(NO_HEED, asked, Reads(data));
    HeedSnoc(NO_HEED, asked + Reads(data), last);
    UnheededExchange(h, frame, data, last);
  }

  /** A new connection, and the ESC its first exchange begins with. */
  function Escaped(): seq<Op> {
    [Opened, Wrote(Escape), Silence]
  }

  lemma EscapedIsFree()
    ensures Unoccupied(Escaped()) && Clean(Observe(START, Escaped()))
  {
    assert [] + [Opened] == [Opened] && [Opened] + [Wrote(Escape)] + [Silence] == Escaped();
    ObserveSnoc(START, [], Opened);
    ObserveSnoc(START, [Opened], Wrote(Escape));
    ObserveSnoc(START, [Opened] + [Wrote(Escape)], Silence);
    HeedSnoc(NO_HEED, [], Opened);
    HeedSnoc(NO_HEED, [Opened], Wrote(Escape));
    HeedSnoc(NO_HEED, [Opened] + [Wrote(Escape)], Silence);
  }

  /** Setup, each command answered `OK`. */
  function HalfSetUp(): seq<Op> {
    Escaped() + Answering(Command("AT+CMGF=1"), []) + Answering(SelectCharset("IRA"), [])
  }

  function SetUp(): seq<Op> {
    HalfSetUp() + Answering(SetParameters("17,167,0,0"), []) + Answering(Command("AT+CSDH=1"), [])
  }

  lemma HalfSetUpIsFree()
    ensures Unoccupied(HalfSetUp()) && Clean(Observe(START, HalfSetUp()))
              && Observe(START, HalfSetUp()).charset.current.name == "IRA"
  {
    EscapedIsFree();
    AnsweredUnheeded(Escaped(), Command("AT+CMGF=1"), []);
    AnsweredUnheeded(Escaped() + Answering(Command("AT+CMGF=1"), []), SelectCharset("IRA"), []);
    LongerThanQueries(Command("AT+CMGF=1"));
  }

  lemma SetUpIsFree()
    ensures Unoccupied(SetUp()) && Clean(Observe(START, SetUp())) && Observe(START, SetUp()).charset.current == IRA
  {
    HalfSetUpIsFree();
    AnsweredUnheeded(HalfSetUp(), SetParameters("17,167,0,0"), []);
    AnsweredUnheeded(HalfSetUp() + Answering(SetParameters("17,167,0,0"), []), Command("AT+CSDH=1"), []);
    LongerThanQueries(Command("AT+CSDH=1"));
  }

  lemma NotAnError(line: string)
    requires Tight(line) && |line| > 4 && line[0] == '+' && (line[2] != 'M' || line[3] == 'T')
    ensures !IsTerminator(line)
  {
    TrimTight(line);
  }

  // Announcements

  function Announcement(index: nat): string {
    "+CMTI: \"SM\"," + Decimal(index)
  }

  lemma AnnouncementIs(index: nat)
    requires index <= U32_MAX
    ensures Announced(Announcement(index)) == [index] && !IsTerminator(Announcement(index))
  {
    var line := Announcement(index);
    AnnouncementTight(index);
    NotAnError(line);
    TrimTight(line);
    assert line[..6] == "+CMTI:";
    LastField(index);
  }

  lemma AnnouncementTight(index: nat)
    ensures Tight(Announcement(index)) && Announcement(index)[0] == '+' && Announcement(index)[3] == 'T'
  {
    var line, digits := Announcement(index), Decimal(index);
    assert IsDigit(digits[|digits| - 1]) && line[|line| - 1] == digits[|digits| - 1] && line[0] == '+';
  }

  lemma LastField(index: nat)
    requires index <= U32_MAX
    ensures var fields := SplitCommas(Announcement(index)[6..]);
              ParseUnsigned(Trim(fields[|fields| - 1]), U32_MAX) == Some(index)
  {
    var rest, digits := Announcement(index)[6..], Decimal(index);
    IndexOfIs(rest, ',', 5);
    assert rest[6..] == digits;
    OnlyField(digits);
    DecimalTight(index);
    TrimTight(digits);
    DecimalParses(index, U32_MAX);
  }

  lemma OnlyField(digits: string)
    requires AllDigits(digits)
    ensures SplitCommas(digits) == [digits]
  {
    IndexOfIs(digits, ',', |digits|);
  }

  // Status refreshes

  predicate AllAnswers(answers: seq<seq<string>>) {
    forall i :: 0 <= i < |answers| ==> AllData(answers[i])
  }

  /** The queries from the `i`-th on, each with its answer. */
  function StatusOps(answers: seq<seq<string>>, i: nat): seq<Op>
    requires i + |answers| <= 4
  {
    if answers == [] then []
    else Answering(Command(STATUS_QUERIES[i]), answers[0]) + StatusOps(answers[1..], i + 1)
  }

  /** A moment at which a session may start. */
  predicate Startable(log: seq<Op>) {
    Unoccupied(log) && Observe(START, log).charset.current == IRA && Clean(Observe(START, log))
  }

  /** Nothing is left of what happened between two moments but the trace. */
  predicate Undisturbed(log: seq<Op>, longer: seq<Op>) {
    && Unoccupied(longer) && Observe(START, longer) == Observe(START, log)
    && HeedAll(NO_HEED, longer) == HeedAll(NO_HEED, log)
  }

  lemma QueryUnheeded(log: seq<Op>, i: nat, data: seq<string>)
    requires i < 4 && AllData(data) && Startable(log)
    ensures Undisturbed(log, log + Answering(Command(STATUS_QUERIES[i]), data))
    ensures Startable(log + Answering(Command(STATUS_QUERIES[i]), data))
  {
    AnsweredUnheeded(log, Command(STATUS_QUERIES[i]), data);
  }

  lemma UndisturbedThen(a: seq<Op>, b: seq<Op>, c: seq<Op>)
    requires Undisturbed(a, b) && Undisturbed(b, c)
    ensures Undisturbed(a, c)
  {
  }

  /** Status queries change nothing but the trace, and nothing announced among their
      answers is heeded. */
  lemma {:induction false} StatusUnheeded(log: seq<Op>, answers: seq<seq<string>>, i: nat)
    requires i + |answers| <= 4 && AllAnswers(answers) && Startable(log)
    ensures Undisturbed(log, log + StatusOps(answers, i))
    decreases |answers|
  {
    if answers == [] {
      assert log + [] == log;
    } else {
      var first, rest := Answering(Command(STATUS_QUERIES[i]), answers[0]), StatusOps(answers[1..], i + 1);
      QueryUnheeded(log, i, answers[0]);
      StatusUnheeded(log + first, answers[1..], i + 1);
      UndisturbedThen(log, log + first, log + first + rest);
      Associate(log, first, rest);
    }
  }

  lemma {:induction false} ReadsWriteNothing(log: seq<Op>, lines: seq<string>)
    ensures Writes(log + Reads(lines)) == Writes(log)
  {
    if lines == [] {
      assert log + Reads(lines) == log;
    } else {
      var all, front := log + Reads(lines), lines[..|lines| - 1];
      ReadsWriteNothing(log, front);
      assert all[..|all| - 1] == log + Reads(front);
    }
  }

  lemma AnsweringWrites(log: seq<Op>, frame: Frame, data: seq<string>)
    ensures Writes(log + Answering(frame, data)) == Writes(log) + [frame]
  {
    var asked, all := log + [Wrote(frame)], log + Answering(frame, data);
    ReadsWriteNothing(asked, data);
    assert all == asked + Reads(data) + [Received("OK")];
    assert all[..|all| - 1] == asked + Reads(data) && asked[..|log|] == log;
  }

  function QueryFrames(i: nat, n: nat): seq<Frame>
    requires i + n <= 4
  {
    seq(n, k requires 0 <= k < n => Command(STATUS_QUERIES[i + k]))
  }

  lemma {:induction false} StatusWrites(log: seq<Op>, answers: seq<seq<string>>, i: nat)
    requires i + |answers| <= 4
    ensures Writes(log + StatusOps(answers, i)) == Writes(log) + QueryFrames(i, |answers|)
    decreases |answers|
  {
    if answers == [] {
      assert log + [] == log;
    } else {
      var first, frame := Answering(Command(STATUS_QUERIES[i]), answers[0]), Command(STATUS_QUERIES[i]);
      AnsweringWrites(log, frame, answers[0]);
      StatusWrites(log + first, answers[1..], i + 1);
      Associate(log, first, StatusOps(answers[1..], i + 1));
      Associate(Writes(log), [frame], QueryFrames(i + 1, |answers| - 1));
      assert [frame] + QueryFrames(i + 1, |answers| - 1) == QueryFrames(i, |answers|);
    }
  }

  lemma AllQueries()
    ensures QueryFrames(0, 4) == StatusFrames()
  {
  }

  // Scripts

  function Arriving(data: seq<string>): (events: seq<Event>)
    ensures |events| == |data| && forall i :: 0 <= i < |data| ==> events[i] == Arrives(data[i])
  {
    seq(|data|, i requires 0 <= i < |data| => Arrives(data[i]))
  }

  /** A command gets through, and its answer arrives. */
  function Playing(data: seq<string>): seq<Event> {
    [Expires] + Arriving(data) + [Arrives("OK")]
  }

  function PlayingAll(answers: seq<seq<string>>): seq<Event> {
    if answers == [] then [] else Playing(answers[0]) + PlayingAll(answers[1..])
  }

  lemma {:induction false} PlaysLines(data: seq<string>, rest: seq<Event>)
    requires AllData(data)
    ensures PlaysOut(Arriving(data) + [Arrives("OK")] + rest, data, Received("OK"), rest)
  {
    var script := Arriving(data) + [Arrives("OK")] + rest;
    if data == [] {
      TrimTight("OK");
      assert script[1..] == rest;
    } else {
      PlaysLines(data[1..], rest);
      assert script[1..] == Arriving(data[1..]) + [Arrives("OK")] + rest;
      assert [data[0]] + data[1..] == data;
    }
  }

  lemma PlaysAnswer(frame: Frame, data: seq<string>, rest: seq<Event>)
    requires AllData(data)
    ensures RunCommand(Playing(data) + rest, frame) == Ran(Answering(frame, data), rest)
    ensures !Fails(RunCommand(Playing(data) + rest, frame))
  {
    PlaysLines(data, rest);
    var script := Playing(data) + rest;
    assert script[0] == Expires && script[1..] == Arriving(data) + [Arrives("OK")] + rest;
  }

  /** What the status queries make of a modem that answers them so. */
  lemma {:induction false} StatusPlays(answers: seq<seq<string>>, i: nat)
    requires i + |answers| <= 4 && AllAnswers(answers)
    ensures QueriesRun(PlayingAll(answers), i, i + |answers|) == Some(Ran(StatusOps(answers, i), []))
    decreases |answers|
  {
    if answers != [] {
      PlaysAnswer(Command(STATUS_QUERIES[i]), answers[0], PlayingAll(answers[1..]));
      StatusPlays(answers[1..], i + 1);
    }
  }
}
