/** Setting the modem up and asking its status (`modem/session.rs`). */
module Setup {
  import opened Text
  import opened Protocol
  import opened Frames
  import opened ModemSide
  import opened LineTrace
  import opened Announcements
  import opened Readiness
  import opened SideTrace
  import opened Transport
  import opened Sending

  /** The shared status, as far as delivery depends on it. */
  class Snapshot {
    var serialConnected: bool
    var responsive: bool
    var registered: bool
    var sim: SimStatus

    constructor ()
      ensures !serialConnected && !responsive && !registered && sim == Unknown
    {
      serialConnected, responsive, registered, sim := false, false, false, Unknown;
    }

    predicate Deliverable()
      reads this
    {
      sim == Ready && registered
    }

    /** The two answers a refresh replaces it by. */
    method Update(cpin: Exchange, creg: Exchange)
      requires cpin.Exchanged? && creg.Exchanged?
      modifies this
      ensures serialConnected && (responsive <==> cpin.result != Timeout)
      ensures sim == ParseCpin(cpin.lines) && registered == ParseCregRegistered(creg.lines)
    {
      serialConnected := true;
      responsive := cpin.result != Timeout;
      sim := ParseCpin(cpin.lines);
      registered := ParseCregRegistered(creg.lines);
    }
  }

  datatype Config = Config(maxAttempts: nat, serviceCenter: Option<string>, reopenMaxAttempts: nat)

  // Setting up

  function SetupCommands(config: Config): (frames: seq<Frame>)
    ensures forall i :: 0 <= i < |frames| ==>
              IsCommand(frames[i]) && !frames[i].ReadMessage? && !frames[i].DeleteMessage?
  {
    [Command("AT+CMGF=1"), SelectCharset("IRA"), SetParameters("17,167,0,0"), Command("AT+CSDH=1")]
    + match config.serviceCenter
      case Some(number) => [Command("AT+CSCA=\"" + number + "\"")]
      case None => []
  }

  lemma SetupIsAllowed(config: Config, i: nat)
    requires i < |SetupCommands(config)|
    ensures Allowed(SetupCommands(config)[i])
    ensures !IsHeeded(SetupCommands(config)[i]) && !IsStatusQuery(SetupCommands(config)[i])
  {
    OwnCommands();
    LongerThanQueries(SetupCommands(config)[i]);
    if i == 4 {
      var text := "AT+CSCA=\"" + config.serviceCenter.value + "\"";
      assert text[5] == 'C' && text[6] == 'A';
      OtherVerb(text);
    }
  }

  /** What each setup command is to set. */
  function SetupSets(config: Config): seq<(string, string)> {
    [("AT+CMGF", "1"), ("AT+CSCS", "IRA"), ("AT+CSMP", "17,167,0,0"), ("AT+CSDH", "1")]
    + match config.serviceCenter
      case Some(number) => [("AT+CSCA", "\"" + number + "\"")]
      case None => []
  }

  lemma Assigned(name: string, value: string, text: string)
    requires text == name + "=" + value && forall i :: 0 <= i < |name| ==> name[i] != '=' && !('a' <= name[i] <= 'z')
    ensures Assignment(Other(text)) == Some((name, value))
  {
    AssignmentIs(name, value);
  }

  lemma SetupAssigns(config: Config, i: nat)
    requires i < |SetupCommands(config)|
    ensures i < |SetupSets(config)| && Assignment(Meaning(SetupCommands(config)[i])) == Some(SetupSets(config)[i])
  {
    if i == 0 {
      Assigned("AT+CMGF", "1", "AT+CMGF=1");
    } else if i == 3 {
      Assigned("AT+CSDH", "1", "AT+CSDH=1");
    } else if i == 4 {
      Assigned("AT+CSCA", "\"" + config.serviceCenter.value + "\"", SetupCommands(config)[4].text);
    }
  }

  /** By the bytes of its commands, setup leaves the modem in text mode with detailed
      headers, under the plain character set and its parameters, and with the service
      center's number if there is one configured. */
  lemma SetupConfigures(config: Config)
    ensures Configured(SetupCommands(config)) == AllSet(SetupSets(config))
  {
    forall i | 0 <= i < |SetupCommands(config)|
      ensures Sets(SetupCommands(config)[i], SetupSets(config)[i])
    {
      SetupIsAllowed(config, i);
      SetupAssigns(config, i);
    }
    AllConfigured(SetupCommands(config), SetupSets(config));
  }

  lemma LongerThanQueries(f: Frame)
    ensures f.Command? && |f.text| > 8 ==> !IsStatusQuery(f)
  {
    assert forall query :: query in STATUS_QUERIES ==> |query| <= 8;
  }

  /** What the first `i` setup commands leave selected. */
  predicate Selected(charset: Charset, i: nat) {
    (i >= 2 ==> charset.name == "IRA") && (i >= 3 ==> charset == IRA)
  }

  lemma SetupStep(before: Monitor, after: Monitor, config: Config, i: nat, r: Exchange)
    requires i < |SetupCommands(config)| && Quiet(before) && Clean(before) && before.line.mode == CommandMode
    requires Selected(before.charset.current, i) && Asked(before, after, SetupCommands(config)[i], r)
    ensures Quiet(after) && Clean(after) && after.sends == before.sends && after.inbound == before.inbound
    ensures r.Exchanged? ==> Selected(after.charset.current, i + 1) && after.line.mode == CommandMode
  {
    LongerThanQueries(SetupCommands(config)[0]);
  }

  predicate AllOk(answers: seq<AtResult>) {
    forall i :: 0 <= i < |answers| ==> answers[i] == Ok
  }

  lemma AllOkSnoc(answers: seq<AtResult>, answer: AtResult)
    ensures AllOk(answers + [answer]) <==> AllOk(answers) && answer == Ok
  {
    assert forall i :: 0 <= i < |answers| ==> (answers + [answer])[i] == answers[i];
    assert (answers + [answer])[|answers|] == answer;
  }

  lemma TakeMore<T>(before: seq<T>, s: seq<T>, i: nat)
    requires i < |s|
    ensures before + s[..i] + [s[i]] == before + s[..i + 1]
  {
  }

  /** Setup writes and no more: nothing is heeded, learnt, submitted or stored. */
  ghost predicate OnlySetUp(seen: Monitor, side: Side, seen': Monitor, side': Side) {
    && seen'.sends == seen.sends && seen'.inbound == seen.inbound
    && side'.heed == side.heed && side'.view == side.view && side.written <= side'.written
  }

  lemma SetupBeside(start: Side, before: Side, after: Side, config: Config, i: nat, r: Exchange)
    requires i < |SetupCommands(config)| && before == Writing(start, SetupCommands(config)[..i])
    requires Recounted(before, after, SetupCommands(config)[i], LinesIn(r))
    ensures r.Exchanged? ==> after == Writing(start, SetupCommands(config)[..i + 1])
    ensures after.heed == start.heed && after.view == start.view && start.written <= after.written
  {
    SetupIsAllowed(config, i);
    TakeMore(start.written, SetupCommands(config), i);
  }

  /** The first `i` setup commands have gone out. */
  ghost predicate SetUpTo(wire: Wire, config: Config, i: nat, seen: Monitor, side: Side, log: seq<Op>)
    reads wire
    requires i <= |SetupCommands(config)|
  {
    && wire.Calm() && Clean(wire.seen) && !wire.dead && wire.seen.line.mode == CommandMode && log <= wire.log
    && wire.seen.sends == seen.sends && wire.seen.inbound == seen.inbound
    && Selected(wire.seen.charset.current, i) && wire.side == Writing(side, SetupCommands(config)[..i])
  }

  /** One setup command; `seen`, `side` and `log` are from before the first. */
  method SetUpOne(wire: Wire, config: Config, i: nat, ghost seen: Monitor, ghost side: Side, ghost log: seq<Op>)
    returns (r: Exchange)
    requires i < |SetupCommands(config)| && SetUpTo(wire, config, i, seen, side, log)
    modifies wire
    ensures r.Lost? == wire.dead
    ensures r.Exchanged? ==> SetUpTo(wire, config, i + 1, seen, side, log)
    ensures r.Lost? ==> Sound(wire) && OnlySetUp(seen, side, wire.seen, wire.side) && log <= wire.log
  {
    ghost var before, beside := wire.seen, wire.side;
    SetupIsAllowed(config, i);
    r := wire.Exchange(SetupCommands(config)[i]);
    SetupStep(before, wire.seen, config, i, r);
    SetupBeside(side, beside, wire.side, config, i, r);
  }

  /** `initialize`: every setup command, whatever the answers; `accepted` when all
      were `OK`. */
  method Initialize(wire: Wire, config: Config) returns (ok: bool, accepted: bool, ghost answers: seq<AtResult>)
    requires wire.Calm() && Clean(wire.seen) && !wire.dead && wire.seen.line.mode == CommandMode
    modifies wire
    ensures Sound(wire) && ok == !wire.dead && old(wire.log) <= wire.log
    ensures OnlySetUp(old(wire.seen), old(wire.side), wire.seen, wire.side)
    ensures ok ==>
              wire.side.written == old(wire.side).written + SetupCommands(config)
              && |answers| == |SetupCommands(config)|
    ensures accepted <==> AllOk(answers)
  {
    var commands := SetupCommands(config);
    accepted, answers := true, [];
    assert Writing(wire.side, commands[..0]) == wire.side;
    for i := 0 to |commands|
      invariant SetUpTo(wire, config, i, old(wire.seen), old(wire.side), old(wire.log))
      invariant |answers| == i && (accepted <==> AllOk(answers))
    {
      var r := SetUpOne(wire, config, i, old(wire.seen), old(wire.side), old(wire.log));
      if r.Lost? {
        return false, accepted, answers;
      }
      AllOkSnoc(answers, r.result);
      answers := answers + [r.result];
      accepted := accepted && r.result == Ok;
    }
    assert commands[..|commands|] == commands;
    ok := true;
  }

  // Status

  /** What a live connection makes of the queries from the `i`-th to the `n`-th, if all
      of them get through. */
  function QueriesRun(script: seq<Event>, i: nat, n: nat): Option<Ran>
    requires i <= n <= 4
    decreases n - i
  {
    if i == n then Some(Ran([], script))
    else
      var first := RunCommand(script, Command(STATUS_QUERIES[i]));
      if Fails(first) then None
      else match QueriesRun(first.rest, i + 1, n)
        case None => None
        case Some(more) => Some(Ran(first.ops + more.ops, more.rest))
  }

  /** They were run: the trace and the script before and after. */
  predicate QueriesRan(before: seq<Op>, script: seq<Event>, i: nat, n: nat, after: seq<Op>, rest: seq<Event>, ok: bool)
    requires i <= n <= 4
  {
    var run := QueriesRun(script, i, n);
    ok == run.Some? && (ok ==> after == before + run.value.ops && rest == run.value.rest)
  }

  /** All four were run. */
  predicate StatusRan(before: seq<Op>, script: seq<Event>, after: seq<Op>, rest: seq<Event>, ok: bool) {
    QueriesRan(before, script, 0, |STATUS_QUERIES|, after, rest, ok)
  }

  lemma OneQueryRan(before: seq<Op>, script: seq<Event>, i: nat, after: seq<Op>, rest: seq<Event>, lost: bool)
    requires i < 4 && CommandRan(before, script, after, rest, Command(STATUS_QUERIES[i]), lost)
    ensures QueriesRan(before, script, i, i + 1, after, rest, !lost)
  {
    var first := RunCommand(script, Command(STATUS_QUERIES[i]));
    assert first.ops + [] == first.ops;
    assert QueriesRun(first.rest, i + 1, i + 1) == Some(Ran([], first.rest));
  }

  lemma {:induction false} QueriesSplit(script: seq<Event>, i: nat, m: nat, n: nat)
    requires i <= m <= n <= 4
    ensures QueriesRun(script, i, n) == match QueriesRun(script, i, m)
                                        case None => None
                                        case Some(r) => (match QueriesRun(r.rest, m, n)
                                                         case None => None
                                                         case Some(more) => Some(Ran(r.ops + more.ops, more.rest)))
    decreases m - i
  {
    if i == m {
      var more := QueriesRun(script, m, n);
      assert more.Some? ==> [] + more.value.ops == more.value.ops;
    } else {
      var first := RunCommand(script, Command(STATUS_QUERIES[i]));
      if !Fails(first) {
        QueriesSplit(first.rest, i + 1, m, n);
        var r := QueriesRun(first.rest, i + 1, m);
        if r.Some? && QueriesRun(r.value.rest, m, n).Some? {
          Associate(first.ops, r.value.ops, QueriesRun(r.value.rest, m, n).value.ops);
        }
      }
    }
  }

  /** Some queries, and if they got through some more. */
  lemma QueriesThen(before: seq<Op>, script: seq<Event>, i: nat, m: nat, n: nat, mid: seq<Op>, left: seq<Event>,
                    first: bool,
                    after: seq<Op>, rest: seq<Event>, ok: bool)
    requires i <= m <= n <= 4 && QueriesRan(before, script, i, m, mid, left, first)
    requires if first then QueriesRan(mid, left, m, n, after, rest, ok) else !ok
    ensures QueriesRan(before, script, i, n, after, rest, ok)
  {
    QueriesSplit(script, i, m, n);
    if ok {
      Associate(before, QueriesRun(script, i, m).value.ops, QueriesRun(left, m, n).value.ops);
    }
  }

  /** One status query: under IRA, and nothing on the line changes but the trace. */
  method Query(wire: Wire, i: nat) returns (r: Exchange)
    requires Sound(wire) && i < 4
    modifies wire
    ensures Sound(wire) && wire.seen == old(wire.seen) && r.Lost? == wire.dead && (old(wire.dead) ==> wire.dead)
    ensures |wire.script| <= |old(wire.script)| && old(wire.log) <= wire.log
    ensures Recounted(old(wire.side), wire.side, Command(STATUS_QUERIES[i]), LinesIn(r))
    ensures r.Exchanged? ==> AnsweredOn(old(wire.log), wire.log, Command(STATUS_QUERIES[i]), r)
    ensures !old(wire.dead) ==>
              QueriesRan(old(wire.log), old(wire.script), i, i + 1, wire.log, wire.script, r.Exchanged?)
  {
    OwnCommands();
    assert STATUS_QUERIES[i] in STATUS_QUERIES;
    r := wire.Exchange(Command(STATUS_QUERIES[i]));
    PlainCommand(old(wire.seen), wire.seen, Command(STATUS_QUERIES[i]), r);
    if !old(wire.dead) {
      OneQueryRan(old(wire.log), old(wire.script), i, wire.log, wire.script, r.Lost?);
    }
  }

  function StatusFrames(): seq<Frame> {
    [Command("AT+CPIN?"), Command("AT+CREG?"), Command("AT+CSQ"), Command("AT+COPS?")]
  }

  lemma FourMore<T>(s: seq<T>, a: T, b: T, c: T, d: T)
    ensures s + [a] + [b] + [c] + [d] == s + [a, b, c, d]
  {
  }

  lemma QueriesDiffer()
    ensures forall i, j :: 0 <= i < j < 4 ==> STATUS_QUERIES[i] != STATUS_QUERIES[j]
  {
    var sim, network, signal, operator := STATUS_QUERIES[0], STATUS_QUERIES[1], STATUS_QUERIES[2], STATUS_QUERIES[3];
    assert sim[5] == 'I' && network[5] == 'E' && signal[5] == 'Q' && operator[5] == 'P';
  }

  /** An unfinished refresh changes no verdict. */
  lemma QueryLearns(before: Side, after: Side, i: nat, lines: Option<seq<string>>)
    requires i < 4 && Recounted(before, after, Command(STATUS_QUERIES[i]), lines)
    ensures after.heed == before.heed
    ensures i < 3 || lines.None? ==> after.view.deliverable == before.view.deliverable
    ensures lines.Some? ==> after.written == before.written + [Command(STATUS_QUERIES[i])]
    ensures lines.Some? && i == 0 ==> after.view.sim == ParseCpin(lines.value)
    ensures lines.Some? && i == 1 ==>
              after.view.sim == before.view.sim && after.view.registered == ParseCregRegistered(lines.value)
    ensures lines.Some? && i == 2 ==> after.view == before.view
    ensures lines.Some? && i == 3 ==> (after.view.deliverable <==> before.view.sim == Ready && before.view.registered)
  {
    QueriesDiffer();
    assert STATUS_QUERIES[i] in STATUS_QUERIES;
  }

  /** The SIM query's answer and the network query's, one after the other. */
  ghost predicate StatusAnswered(before: seq<Op>, after: seq<Op>, sim: Exchange, network: Exchange) {
    exists between, done ::
      && AnsweredOn(before, between, Command(STATUS_QUERIES[0]), sim)
      && AnsweredOn(between, done, Command(STATUS_QUERIES[1]), network) && done <= after
  }

  lemma StillAnswered(before: seq<Op>, after: seq<Op>, longer: seq<Op>, sim: Exchange, network: Exchange)
    requires StatusAnswered(before, after, sim, network) && after <= longer
    ensures StatusAnswered(before, longer, sim, network)
  {
  }

  /** Two of the four queries, the second if the first got through; `mid` is what the
      first leaves beside the line, `between` the trace. */
  method AskPair(wire: Wire, i: nat)
    returns (ok: bool, first: Exchange, second: Exchange, ghost mid: Side, ghost between: seq<Op>)
    requires Sound(wire) && i + 2 <= 4
    modifies wire
    ensures Sound(wire) && wire.seen == old(wire.seen) && ok == !wire.dead && (old(wire.dead) ==> wire.dead)
    ensures |wire.script| <= |old(wire.script)| && old(wire.log) <= wire.log
    ensures Recounted(old(wire.side), mid, Command(STATUS_QUERIES[i]), LinesIn(first))
    ensures if first.Lost? then wire.side == mid && second.Lost?
            else Recounted(mid, wire.side, Command(STATUS_QUERIES[i + 1]), LinesIn(second))
    ensures ok == second.Exchanged?
    ensures ok ==>
              && first.Exchanged? && AnsweredOn(old(wire.log), between, Command(STATUS_QUERIES[i]), first)
              && AnsweredOn(between, wire.log, Command(STATUS_QUERIES[i + 1]), second)
    ensures !old(wire.dead) ==> QueriesRan(old(wire.log), old(wire.script), i, i + 2, wire.log, wire.script, ok)
  {
    ghost var n, alive := i + 2, !wire.dead;
    ok, second := false, Lost;
    first := Query(wire, i);
    mid, between := wire.side, wire.log;
    ghost var left := wire.script;
    if first.Exchanged? {
      second := Query(wire, i + 1);
      ok := second.Exchanged?;
    }
    if alive {
      QueriesThen(old(wire.log), old(wire.script), i, i + 1, n, between, left, first.Exchanged?, wire.log, wire.script,
          ok);
    }
  }

  /** The first two of the four queries. */
  method AskSimAndNetwork(wire: Wire) returns (ok: bool, cpin: Exchange, creg: Exchange)
    requires Sound(wire)
    modifies wire
    ensures Sound(wire) && wire.seen == old(wire.seen) && ok == !wire.dead && (old(wire.dead) ==> wire.dead)
    ensures |wire.script| <= |old(wire.script)| && old(wire.log) <= wire.log && wire.side.heed == old(wire.side).heed
    ensures ok ==> cpin.Exchanged? && creg.Exchanged? && StatusAnswered(old(wire.log), wire.log, cpin, creg)
    ensures ok ==>
              wire.side.written == old(wire.side).written + [Command(STATUS_QUERIES[0])] + [Command(STATUS_QUERIES[1])]
    ensures ok ==>
              wire.side.view.sim == ParseCpin(cpin.lines)
              && wire.side.view.registered == ParseCregRegistered(creg.lines)
    ensures wire.side.view.deliverable == old(wire.side).view.deliverable
    ensures !old(wire.dead) ==> QueriesRan(old(wire.log), old(wire.script), 0, 2, wire.log, wire.script, ok)
  {
    ghost var mid, between;
    ok, cpin, creg, mid, between := AskPair(wire, 0);
    QueryLearns(old(wire.side), mid, 0, LinesIn(cpin));
    if cpin.Exchanged? {
      QueryLearns(mid, wire.side, 1, LinesIn(creg));
    }
  }

  /** The four queries of a refresh, in order, as long as the port lives. */
  method AskStatus(wire: Wire) returns (ok: bool, cpin: Exchange, creg: Exchange)
    requires Sound(wire)
    modifies wire
    ensures Sound(wire) && wire.seen == old(wire.seen) && ok == !wire.dead && (old(wire.dead) ==> wire.dead)
    ensures |wire.script| <= |old(wire.script)| && old(wire.log) <= wire.log && wire.side.heed == old(wire.side).heed
    ensures ok ==> cpin.Exchanged? && creg.Exchanged? && wire.side.written == old(wire.side).written + StatusFrames()
    ensures ok ==> StatusAnswered(old(wire.log), wire.log, cpin, creg)
    ensures ok ==> (wire.side.view.deliverable <==> ParseCpin(cpin.lines) == Ready && ParseCregRegistered(creg.lines))
    ensures !ok ==> wire.side.view.deliverable == old(wire.side).view.deliverable
    ensures !old(wire.dead) ==> StatusRan(old(wire.log), old(wire.script), wire.log, wire.script, ok)
  {
    ok, cpin, creg := AskSimAndNetwork(wire);
    ghost var done, left := wire.log, wire.script;
    if !ok {
      if !old(wire.dead) {
        QueriesThen(old(wire.log), old(wire.script), 0, 2, 4, done, left, false, wire.log, wire.script, false);
      }
      return;
    }
    ok := AskRest(wire);
    if !old(wire.dead) {
      QueriesThen(old(wire.log), old(wire.script), 0, 2, 4, done, left, true, wire.log, wire.script, ok);
    }
    FourMore(old(wire.side).written, Command(STATUS_QUERIES[0]), Command(STATUS_QUERIES[1]),
             Command(STATUS_QUERIES[2]), Command(STATUS_QUERIES[3]));
    StillAnswered(old(wire.log), done, wire.log, cpin, creg);
  }

  /** The signal and operator queries, which complete a refresh. */
  method AskRest(wire: Wire) returns (ok: bool)
    requires Sound(wire)
    modifies wire
    ensures Sound(wire) && wire.seen == old(wire.seen) && ok == !wire.dead && (old(wire.dead) ==> wire.dead)
    ensures |wire.script| <= |old(wire.script)| && old(wire.log) <= wire.log && wire.side.heed == old(wire.side).heed
    ensures ok ==>
              wire.side.written == old(wire.side).written + [Command(STATUS_QUERIES[2])] + [Command(STATUS_QUERIES[3])]
    ensures ok ==> (wire.side.view.deliverable <==> old(wire.side).view.sim == Ready && old(wire.side).view.registered)
    ensures !ok ==> wire.side.view.deliverable == old(wire.side).view.deliverable
    ensures !old(wire.dead) ==> QueriesRan(old(wire.log), old(wire.script), 2, 4, wire.log, wire.script, ok)
  {
    var csq, cops;
    ghost var mid, between;
    ok, csq, cops, mid, between := AskPair(wire, 2);
    QueryLearns(old(wire.side), mid, 2, LinesIn(csq));
    if csq.Exchanged? {
      QueryLearns(mid, wire.side, 3, LinesIn(cops));
    }
  }

  /** The snapshot's verdict is that of the last refresh the trace shows completed. */
  ghost predicate Current(wire: Wire, snapshot: Snapshot)
    reads wire, snapshot
  {
    snapshot.Deliverable() == wire.side.view.deliverable
  }

  /** `refresh_status`: the snapshot is replaced only when all four queries got through. */
  method RefreshStatus(wire: Wire, snapshot: Snapshot) returns (ok: bool, ghost sim: Exchange, ghost network: Exchange)
    requires Sound(wire) && Current(wire, snapshot)
    modifies wire, snapshot
    ensures Sound(wire) && wire.seen == old(wire.seen) && ok == !wire.dead && (old(wire.dead) ==> wire.dead)
    ensures |wire.script| <= |old(wire.script)| && old(wire.log) <= wire.log && wire.side.heed == old(wire.side).heed
    ensures Current(wire, snapshot) && (!ok ==> unchanged(snapshot))
    ensures ok ==> wire.side.written == old(wire.side).written + StatusFrames()
    ensures ok ==>
              && sim.Exchanged? && network.Exchanged? && StatusAnswered(old(wire.log), wire.log, sim, network)
              && snapshot.serialConnected && (snapshot.responsive <==> sim.result != Timeout)
              && snapshot.sim == ParseCpin(sim.lines) && snapshot.registered == ParseCregRegistered(network.lines)
    ensures !old(wire.dead) ==> StatusRan(old(wire.log), old(wire.script), wire.log, wire.script, ok)
  {
    var cpin, creg;
    ok, cpin, creg := AskStatus(wire);
    sim, network := cpin, creg;
    if ok {
      snapshot.Update(cpin, creg);
    }
  }
}
