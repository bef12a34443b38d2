/** What a status refresh's answers, as a modem prints them, make of the readiness on
    which sending depends. */
module ReadinessTheorems {
  import opened Text
  import opened Protocol
  import opened Frames
  import opened LineTrace
  import opened Readiness
  import opened Scenarios

  lemma {:induction false} ViewOn(v: View, a: seq<Op>, b: seq<Op>)
    ensures ViewAll(v, a + b) == ViewAll(ViewAll(v, a), b)
  {
    if b == [] {
      assert a + b == a;
    } else {
      ViewOn(v, a, b[..|b| - 1]);
      assert (a + b)[..|a + b| - 1] == a + b[..|b| - 1];
    }
  }

  lemma OkEnds()
    ensures ClassifyLine("OK") == Terminator(Ok) && Trim("OK") == "OK"
  {
    TrimTight("OK");
  }

  lemma AnsweredView(v: View, frame: Frame, data: seq<string>)
    requires v == Forgotten(v) && IsStatusQuery(frame) && AllData(data)
    ensures ViewAll(v, Answering(frame, data)) == Learnt(v, frame.text, Gather(data + ["OK"]))
  {
    OkEnds();
    AskedExchange(v, frame, data, Received("OK"));
    ViewOn(v, [Wrote(frame)], Reads(data));
    assert [Wrote(frame)][..0] == [];
    ViewSnoc(v, [Wrote(frame)] + Reads(data), Received("OK"));
  }

  lemma FieldStep(line: string, lines: seq<string>, prefix: string)
    ensures FindField([line] + lines, prefix)
         == if StartsWith(Trim(line), prefix) then Some(Trim(line)[|prefix|..]) else FindField(lines, prefix)
  {
    assert ([line] + lines)[1..] == lines;
  }

  /** Blank lines and the final `OK` hide no field. */
  lemma {:induction false} FieldInAnswer(data: seq<string>, prefix: string)
    requires AllData(data) && prefix != "" && prefix[0] == '+'
    ensures FindField(Gather(data + ["OK"]), prefix) == FindField(data, prefix)
  {
    OkEnds();
    var all := data + ["OK"];
    if data == [] {
      assert Gather(all) == ["OK"];
      FieldStep("OK", [], prefix);
    } else {
      FieldInAnswer(data[1..], prefix);
      assert all[1..] == data[1..] + ["OK"];
      assert data == [data[0]] + data[1..];
      FieldStep(data[0], data[1..], prefix);
      FieldStep(data[0], Gather(all[1..]), prefix);
      assert [] + Gather(all[1..]) == Gather(all[1..]);
    }
  }

  lemma AnswersParse(data: seq<string>)
    requires AllData(data)
    ensures ParseCpin(Gather(data + ["OK"])) == ParseCpin(data)
    ensures ParseCregRegistered(Gather(data + ["OK"])) == ParseCregRegistered(data)
  {
    FieldInAnswer(data, "+CPIN:");
    FieldInAnswer(data, "+CREG:");
  }

  /** What the four queries teach, answered from the `i`-th on. */
  function Taught(v: View, answers: seq<seq<string>>, i: nat): View
    requires i + |answers| <= 4
    decreases |answers|
  {
    if answers == [] then v
    else Taught(Learnt(v, STATUS_QUERIES[i], Gather(answers[0] + ["OK"])), answers[1..], i + 1)
  }

  lemma QueryView(v: View, i: nat, data: seq<string>)
    requires i < 4 && AllData(data) && v == Forgotten(v)
    ensures var after := Learnt(v, STATUS_QUERIES[i], Gather(data + ["OK"]));
              ViewAll(v, Answering(Command(STATUS_QUERIES[i]), data)) == after == Forgotten(after)
  {
    assert STATUS_QUERIES[i] in STATUS_QUERIES;
    AnsweredView(v, Command(STATUS_QUERIES[i]), data);
  }

  lemma {:induction false} StatusView(v: View, answers: seq<seq<string>>, i: nat)
    requires i + |answers| <= 4 && AllAnswers(answers) && v == Forgotten(v)
    ensures ViewAll(v, StatusOps(answers, i)) == Taught(v, answers, i)
    decreases |answers|
  {
    if answers != [] {
      QueryView(v, i, answers[0]);
      ViewOn(v, Answering(Command(STATUS_QUERIES[i]), answers[0]), StatusOps(answers[1..], i + 1));
      StatusView(Learnt(v, STATUS_QUERIES[i], Gather(answers[0] + ["OK"])), answers[1..], i + 1);
    }
  }

  lemma QueriesDiffer()
    ensures STATUS_QUERIES[1] != STATUS_QUERIES[0] && STATUS_QUERIES[2] != STATUS_QUERIES[0]
    ensures STATUS_QUERIES[2] != STATUS_QUERIES[1] && STATUS_QUERIES[2] != STATUS_QUERIES[3]
    ensures STATUS_QUERIES[3] != STATUS_QUERIES[0] && STATUS_QUERIES[3] != STATUS_QUERIES[1]
  {
    assert STATUS_QUERIES[0][3] == 'C' && STATUS_QUERIES[0][4] == 'P' && STATUS_QUERIES[1][4] == 'R';
    assert STATUS_QUERIES[2][3] == 'C' && STATUS_QUERIES[2][4] == 'S' && STATUS_QUERIES[3][4] == 'O';
  }

  lemma FourTaught(v: View, answers: seq<seq<string>>)
    requires |answers| == 4
    ensures Taught(v, answers, 0).deliverable
            <==> ParseCpin(Gather(answers[0] + ["OK"])) == Ready && ParseCregRegistered(Gather(answers[1] + ["OK"]))
  {
    QueriesDiffer();
    var one, two, three := answers[1..], answers[2..], answers[3..];
    assert one[1..] == two && two[1..] == three && three[1..] == [];
    var v1 := Learnt(v, STATUS_QUERIES[0], Gather(answers[0] + ["OK"]));
    var v2 := Learnt(v1, STATUS_QUERIES[1], Gather(one[0] + ["OK"]));
    var v3 := Learnt(v2, STATUS_QUERIES[2], Gather(two[0] + ["OK"]));
    var v4 := Learnt(v3, STATUS_QUERIES[3], Gather(three[0] + ["OK"]));
    assert Taught(v2, two, 2) == Taught(v3, three, 3) == Taught(v4, [], 4) == v4;
    assert Taught(v, answers, 0) == Taught(v1, one, 1) == Taught(v2, two, 2);
  }

  /** A refresh that is answered leaves the modem ready exactly when the SIM's answer says
      ready and the network's registered, whatever the trace before. */
  lemma RefreshVerdict(log: seq<Op>, answers: seq<seq<string>>)
    requires |answers| == 4 && AllAnswers(answers) && ViewAll(NO_VIEW, log) == Forgotten(ViewAll(NO_VIEW, log))
    ensures Deliverable(log + StatusOps(answers, 0))
            <==> ParseCpin(answers[0]) == Ready && ParseCregRegistered(answers[1])
  {
    var v := ViewAll(NO_VIEW, log);
    ViewOn(NO_VIEW, log, StatusOps(answers, 0));
    StatusView(v, answers, 0);
    FourTaught(v, answers);
    AnswersParse(answers[0]);
    AnswersParse(answers[1]);
  }

  /** By the lines as a modem prints them: ready exactly for `READY` and a registration of
      1 or 5. */
  lemma ReadyWhen(log: seq<Op>, answers: seq<seq<string>>, i: nat, state: string, j: nat, n: nat, stat: nat,
                  tail: string)
    requires |answers| == 4 && AllAnswers(answers) && ViewAll(NO_VIEW, log) == Forgotten(ViewAll(NO_VIEW, log))
    requires i < |answers[0]| && (forall k :: 0 <= k < i ==> !StartsWith(Trim(answers[0][k]), "+CPIN:"))
    requires Trim(answers[0][i]) == "+CPIN:" + (" " + state) && Tight(state)
    requires j < |answers[1]| && (forall k :: 0 <= k < j ==> !StartsWith(Trim(answers[1][k]), "+CREG:"))
    requires Trim(answers[1][j]) == "+CREG:" + (" " + Decimal(n) + "," + Decimal(stat) + tail)
    requires tail == "" || tail[0] == ','
    ensures Deliverable(log + StatusOps(answers, 0)) <==> state == "READY" && stat in {1, 5}
  {
    RefreshVerdict(log, answers);
    SimReads(answers[0], i, state);
    RegistrationReads(answers[1], j, n, stat, tail);
  }
}
