/** The exchange layer of `modem/transport.rs`: commands answered line by line, and
    the two-phase submission that always returns the line to command mode. What the
    modem does is an arbitrary script, one event for each operation; once an
    operation fails, every later one on the connection does. */
module Transport {
  import opened Text
  import opened Segmentation
  import opened Protocol
  import opened Utf8
  import Framing
  import opened Frames
  import opened LineTrace
  import opened Announcements
  import opened SideTrace

  /** A line arrives, the deadline passes, or the port goes. A write succeeds
      unless the port goes. */
  datatype Event = Arrives(line: string) | Expires | Drops

  datatype LineRead = Line(text: string) | NoLine | PortError

  function ReadOp(r: LineRead): Op {
    match r case Line(text) => Received(text) case NoLine => Silence case PortError => ReadFailed
  }

  function ReadOf(event: Event): LineRead {
    match event case Arrives(line) => Line(line) case Expires => NoLine case Drops => PortError
  }

  datatype PromptRead = Seen | NotSeen | PromptError

  datatype Exchange = Exchanged(lines: seq<string>, result: AtResult) | Lost

  /** How lines of data and what closed them make up an answer. */
  predicate Closes(data: seq<string>, closing: Op, r: Exchange) {
    match r
    case Lost => closing == ReadFailed
    case Exchanged(lines, result) =>
      if result == Timeout then closing == Silence && lines == Gather(data)
      else
        && closing.Received? && ClassifyLine(closing.line) == Terminator(result)
        && lines == Gather(data + [closing.line])
  }

  /** The trace of one exchange: the frame, then just the lines of the answer. */
  ghost predicate AnsweredOn(before: seq<Op>, after: seq<Op>, frame: Frame, r: Exchange) {
    exists data, closing ::
      AllData(data) && Closes(data, closing, r) && after == before + [Wrote(frame)] + Reads(data) + [closing]
  }

  lemma CloseIsAnswer(data: seq<string>, closing: Op, r: Exchange)
    requires AllData(data) && Closes(data, closing, r)
    ensures Answers(data, closing, LinesIn(r))
  {
  }

  /** An ESC goes out, unless the port goes first. */
  predicate EscapeWritten(before: Side, after: Side, ok: bool) {
    after == Writing(before, [Escape]) || (!ok && after == before)
  }

  /** What the body's half of a submission writes: the body, and ESC if no result
      comes; less if the port goes. */
  predicate BodyWritten(before: Side, after: Side, body: Frame, r: Exchange) {
    || (!(r.Exchanged? && r.result == Timeout) && after == Writing(before, [body]))
    || (!(r.Exchanged? && r.result != Timeout) && after == Writing(Writing(before, [body]), [Escape]))
    || (r.Lost? && after == before)
  }

  /** From the prompt's deadline on: ESC, or the body's half. */
  predicate PromptWritten(before: Side, after: Side, body: Frame, r: Exchange) {
    || BodyWritten(before, after, body, r)
    || (!(r.Exchanged? && r.result != Timeout) && after == Writing(before, [Escape]))
  }

  /** What a submission writes: the header; then ESC if no prompt comes, or else the
      body's half; less if the port goes. Nothing that arrives is heeded. */
  predicate PartWritten(before: Side, after: Side, header: Frame, body: Frame, r: Exchange) {
    PromptWritten(Writing(before, [header]), after, body, r) || (r.Lost? && after == before)
  }

  lemma ReadsMore(log: seq<Op>, data: seq<string>, line: string)
    ensures log + Reads(data + [line]) == log + Reads(data) + [Received(line)]
  {
  }

  /** The lines of an answer, if there was one. */
  function LinesIn(r: Exchange): Option<seq<string>> {
    match r case Exchanged(lines, _) => Some(lines) case Lost => None
  }

  // What a live connection makes of its script

  datatype Played = Played(data: seq<string>, closing: Op, rest: seq<Event>)

  /** The lines up to what closes an answer. */
  function Play(script: seq<Event>): Played {
    if script == [] then Played([], ReadFailed, [])
    else match script[0]
      case Drops => Played([], ReadFailed, script[1..])
      case Expires => Played([], Silence, script[1..])
      case Arrives(line) =>
        if IsTerminator(line) then Played([], Received(line), script[1..])
        else Before(line, Play(script[1..]))
  }

  function Before(line: string, p: Played): Played {
    p.(data := [line] + p.data)
  }

  predicate PlaysOut(script: seq<Event>, data: seq<string>, closing: Op, rest: seq<Event>) {
    Play(script) == Played(data, closing, rest)
  }

  datatype Ran = Ran(ops: seq<Op>, rest: seq<Event>)

  /** The exchange of one command. */
  function RunCommand(script: seq<Event>, frame: Frame): Ran {
    if script == [] then Ran([WriteFailed(frame)], [])
    else if script[0] == Drops then Ran([WriteFailed(frame)], script[1..])
    else var p := Play(script[1..]); Ran([Wrote(frame)] + Reads(p.data) + [p.closing], p.rest)
  }

  predicate Fails(ran: Ran) {
    ran.ops != [] && var last := ran.ops[|ran.ops| - 1]; last.WriteFailed? || last.ReadFailed?
  }

  /** A command was run on a live connection: the trace and the script before and
      after, and whether the port was lost. */
  predicate CommandRan(before: seq<Op>, script: seq<Event>, after: seq<Op>, rest: seq<Event>, frame: Frame,
                       lost: bool) {
    var ran := RunCommand(script, frame);
    after == before + ran.ops && rest == ran.rest && (lost <==> Fails(ran))
  }

  lemma CommandUnwritten(before: seq<Op>, script: seq<Event>, frame: Frame)
    requires script == [] || script[0] == Drops
    ensures CommandRan(before, script, before + [WriteFailed(frame)], if script == [] then []
              else script[1..], frame, true)
  {
  }

  lemma CommandPlayed(before: seq<Op>, script: seq<Event>, frame: Frame, data: seq<string>, closing: Op,
                      rest: seq<Event>, r: Exchange)
    requires script != [] && script[0] != Drops && PlaysOut(script[1..], data, closing, rest)
              && Closes(data, closing, r)
    ensures CommandRan(before, script, before + [Wrote(frame)] + Reads(data) + [closing], rest, frame, r.Lost?)
  {
    var ops := [Wrote(frame)] + Reads(data) + [closing];
    assert RunCommand(script, frame).ops == ops && ops[|ops| - 1] == closing;
    assert before + ops == before + [Wrote(frame)] + Reads(data) + [closing];
  }

  /** What is left to play after some lines have been read. */
  predicate PlayedOn(script: seq<Event>, data: seq<string>, left: seq<Event>) {
    var p := Play(left);
    Play(script) == Played(data + p.data, p.closing, p.rest)
  }

  lemma PlayBegins(script: seq<Event>)
    ensures PlayedOn(script, [], script)
  {
    assert [] + Play(script).data == Play(script).data;
  }

  /** One read more: a line of data, or what closes the answer. */
  lemma PlayStep(script: seq<Event>, data: seq<string>, left: seq<Event>, read: LineRead, rest: seq<Event>)
    requires PlayedOn(script, data, left)
    requires if left == [] then read == PortError && rest == [] else read == ReadOf(left[0]) && rest == left[1..]
    ensures if read.Line? && !IsTerminator(read.text) then PlayedOn(script, data + [read.text], rest)
            else PlaysOut(script, data, ReadOp(read), rest)
  {
    if read.Line? && !IsTerminator(read.text) {
      Associate(data, [read.text], Play(rest).data);
    } else {
      assert data + [] == data;
    }
  }

  predicate NoPrompts(lines: seq<string>) {
    forall i :: 0 <= i < |lines| ==> !IsPrompt(lines[i])
  }

  lemma NoPromptsSnoc(lines: seq<string>, line: string)
    requires NoPrompts(lines) && !IsPrompt(line)
    ensures NoPrompts(lines + [line])
  {
  }

  class Wire {
    var script: seq<Event>
    var dead: bool
    ghost var log: seq<Op>
    ghost var seen: Monitor
    ghost var side: Side

    /** What is known of the line and beside it is what the trace shows. */
    ghost predicate Valid()
      reads this
    {
      seen == Observe(START, log) && side == SideAll(NO_SIDE, log) && AllAllowed(log)
    }

    /** Between exchanges. */
    ghost predicate Calm()
      reads this
    {
      Valid() && Quiet(seen) && Idle(side)
    }

    constructor ()
      ensures Calm() && dead && log == [] && seen == START && side == NO_SIDE
    {
      script, dead, log, seen, side := [], true, [], START, NO_SIDE;
    }

    ghost method Note(op: Op)
      requires Valid() && OpAllowed(op)
      modifies this`log, this`seen, this`side
      ensures Valid() && log == old(log) + [op] && seen == Step(old(seen), op) && side == SideStep(old(side), op)
    {
      ObserveSnoc(START, log, op);
      SideSnoc(NO_SIDE, log, op);
      AllowedSnoc(log, op);
      log, seen, side := log + [op], Step(seen, op), SideStep(side, op);
    }

    /** A new connection to the same modem. */
    method Reopen(script: seq<Event>)
      requires Valid()
      modifies this
      ensures Valid() && !dead && this.script == script
      ensures log == old(log) + [Opened] && seen == Step(old(seen), Opened) && side == SideStep(old(side), Opened)
    {
      this.script, dead := script, false;
      Note(Opened);
    }

    method Next() returns (event: Event)
      modifies this`script, this`dead
      ensures event == Drops <==> dead
      ensures old(dead) ==> dead
      ensures |script| <= |old(script)|
      ensures !dead ==> |script| < |old(script)|
      ensures !old(dead) && old(script) != [] ==> event == old(script)[0] && script == old(script)[1..]
      ensures !old(dead) && old(script) == [] ==> dead && script == []
    {
      if dead || script == [] {
        dead := true;
        return Drops;
      }
      event := script[0];
      script := script[1..];
      dead := event == Drops;
    }

    method Write(data: seq<Byte>, ghost frame: Frame) returns (ok: bool)
      requires Valid() && data == Render(frame) && Allowed(frame)
      modifies this
      ensures Valid() && ok == !dead && (old(dead) ==> dead)
      ensures |script| <= |old(script)| && (ok ==> |script| < |old(script)|)
      ensures !old(dead) ==>
                && (ok <==> old(script) != [] && old(script)[0] != Drops)
                && script == if old(script) == [] then [] else old(script)[1..]
      ensures var op := if ok then Wrote(frame) else WriteFailed(frame);
                log == old(log) + [op] && seen == Step(old(seen), op) && side == SideStep(old(side), op)
    {
      var event := Next();
      ok := event != Drops;
      Note(if ok then Wrote(frame) else WriteFailed(frame));
    }

    method ReadLine() returns (r: LineRead)
      requires Valid()
      modifies this
      ensures Valid() && r.PortError? == dead && (old(dead) ==> dead)
      ensures |script| <= |old(script)| && (!dead ==> |script| < |old(script)|)
      ensures !old(dead) && old(script) != [] ==> r == ReadOf(old(script)[0]) && script == old(script)[1..]
      ensures !old(dead) && old(script) == [] ==> dead && script == []
      ensures log == old(log) + [ReadOp(r)] && seen == Step(old(seen), ReadOp(r))
                && side == SideStep(old(side), ReadOp(r))
    {
      var event := Next();
      r := ReadOf(event);
      Note(ReadOp(r));
    }

    /** `collect_until_terminator`: `data` are the lines read before the one, or the
        deadline, or the failure, that closed the exchange. */
    method Collect() returns (r: Exchange, ghost data: seq<string>, ghost closing: Op)
      requires Valid()
      modifies this
      ensures Valid() && r.Lost? == dead && (old(dead) ==> dead) && |script| <= |old(script)|
      ensures AllData(data) && Closes(data, closing, r)
      ensures seen == Step(Observe(old(seen), Reads(data)), closing)
      ensures side == SideStep(SideAll(old(side), Reads(data)), closing)
      ensures log == old(log) + Reads(data) + [closing]
      ensures !old(dead) ==> PlaysOut(old(script), data, closing, script)
    {
      var lines: seq<string> := [];
      data := [];
      PlayBegins(script);
      assert Reads([]) == [];
      while true
        invariant Valid() && (old(dead) ==> dead) && |script| <= |old(script)|
        invariant AllData(data) && lines == Gather(data)
        invariant seen == Observe(old(seen), Reads(data))
        invariant side == SideAll(old(side), Reads(data))
        invariant log == old(log) + Reads(data)
        invariant data != [] ==> !dead
        invariant !old(dead) ==> !dead && PlayedOn(old(script), data, script)
        decreases |script|, !dead
      {
        ghost var left := script;
        var read := ReadLine();
        if !old(dead) {
          PlayStep(old(script), data, left, read, script);
        }
        match read
        case PortError =>
          closing := ReadFailed;
          return Lost, data, closing;
        case NoLine =>
          closing := Silence;
          return Exchanged(lines, Timeout), data, closing;
        case Line(line) =>
          GatherSnoc(data, line);
          NoTimeoutLine(line);
          match ClassifyLine(line)
          case Terminator(result) =>
            closing := Received(line);
            return Exchanged(lines + [line], result), data, closing;
          case NonTerminating =>
            if Trim(line) != "" {
              lines := lines + [line];
            }
            ReadsSnoc(old(seen), data, line);
            SideReadsSnoc(old(side), data, line);
            ReadsMore(old(log), data, line);
            data := data + [line];
      }
    }

    /** `wait_for_prompt` of a line-oriented transport. */
    method WaitForPrompt() returns (r: PromptRead, ghost skipped: seq<string>, ghost closing: Op)
      requires Valid() && Busy(side) && side.heed.attention == Prompting
      modifies this
      ensures Valid() && r.PromptError? == dead && (old(dead) ==> dead) && |script| <= |old(script)| && old(log) <= log
      ensures side == if r.PromptError? then AtEase(old(side)) else old(side)
      ensures NoPrompts(skipped)
      ensures seen == Step(Observe(old(seen), Reads(skipped)), closing)
      ensures match r
              case Seen => closing.Received? && IsPrompt(closing.line)
              case NotSeen => closing == Silence
              case PromptError => closing == ReadFailed
    {
      skipped := [];
      assert Reads([]) == [];
      while true
        invariant Valid() && (old(dead) ==> dead) && |script| <= |old(script)| && old(log) <= log
        invariant NoPrompts(skipped) && seen == Observe(old(seen), Reads(skipped)) && side == old(side)
        decreases |script|, !dead
      {
        var read := ReadLine();
        PromptingRead(old(side), if read.PortError? then Silence else ReadOp(read));
        match read
        case PortError => return PromptError, skipped, ReadFailed;
        case NoLine => return NotSeen, skipped, Silence;
        case Line(line) =>
          if IsPrompt(line) {
            return Seen, skipped, Received(line);
          }
          ReadsSnoc(old(seen), skipped, line);
          NoPromptsSnoc(skipped, line);
          skipped := skipped + [line];
      }
    }

    /** `exchange`: a command and its answer. */
    method Exchange(frame: Frame) returns (r: Exchange)
      requires Calm() && IsCommand(frame) && Allowed(frame)
      requires !dead ==> seen.line.mode == CommandMode
      modifies this
      ensures Calm() && r.Lost? == dead && (old(dead) ==> dead)
      ensures |script| <= |old(script)| && (!dead ==> |script| < |old(script)|)
      ensures Asked(old(seen), seen, frame, r) && Recounted(old(side), side, frame, LinesIn(r))
      ensures old(dead) && !frame.DeleteMessage? ==> seen == old(seen)
      ensures old(log) <= log && (r.Exchanged? ==> AnsweredOn(old(log), log, frame, r))
      ensures !old(dead) ==> CommandRan(old(log), old(script), log, script, frame, r.Lost?)
    {
      var ok := Write(Render(frame), frame);
      if !ok {
        if !old(dead) {
          CommandUnwritten(old(log), old(script), frame);
        }
        NotWritten(old(seen), frame);
        IdleNotWritten(old(side), frame);
        return Lost;
      }
      ghost var data, closing;
      r, data, closing := Collect();
      ExchangeSettles(old(seen), seen, frame, data, closing, r);
      CloseIsAnswer(data, closing, r);
      IdleExchange(old(side), frame, data, closing, LinesIn(r));
      assert r.Exchanged? ==> AnsweredOn(old(log), log, frame, r);
      if !old(dead) {
        CommandPlayed(old(log), old(script), frame, data, closing, script, r);
      }
    }

    /** `abort_to_command_mode`: ESC, then whatever acknowledges it. */
    method Abort() returns (ok: bool)
      requires Valid() && !seen.inbound.phase.Reading? && Busy(side)
      modifies this
      ensures Valid() && ok == !dead && (old(dead) ==> dead) && |script| <= |old(script)| && old(log) <= log
      ensures ok ==> seen == Step(old(seen), Wrote(Escape))
      ensures !ok ==> seen == Step(old(seen), Wrote(Escape)) || seen == Step(old(seen), WriteFailed(Escape))
      ensures EscapeWritten(AtEase(old(side)), side, ok)
    {
      ok := Write([Framing.ESC], Escape);
      if !ok {
        BusyNotWritten(old(side), Escape);
        return;
      }
      var r, data, closing := Collect();
      EscapeSettles(old(seen), old(side), data, closing, r);
      ok := r.Exchanged?;
    }

    /** `send_sms_part`: header, prompt, body and Ctrl-Z, result; ESC whenever the
        prompt or the result does not come. `tries` is what it adds to the
        submissions on the line. */
    method SendPart(to: string, part: string, encoding: Encoding) returns (r: Exchange, ghost tries: seq<Attempt>)
      requires Calm()
      requires !dead ==> seen.line.mode == CommandMode && seen.charset.current == CharsetFor(encoding)
      modifies this
      ensures Calm() && r.Lost? == dead && (old(dead) ==> dead) && |script| <= |old(script)| && old(log) <= log
      ensures !dead ==> seen.line.mode == CommandMode
      ensures Ended(old(seen), seen, tries)
      ensures TriedPart(tries, to, part, encoding, r)
      ensures PartWritten(old(side), side, Header(to, encoding), Body(part, encoding), r)
    {
      ghost var before := seen;
      ghost var a := Attempt(to, encoding, None, [], Open, Waiting);
      var ok := Write(Framing.CmgsHeader(to, encoding), Header(to, encoding));
      if !ok {
        IdleNotWritten(old(side), Header(to, encoding));
        return Lost, [];
      }
      HeaderStep(before, to, encoding);
      HeaderStarts(old(side), Header(to, encoding));
      r, tries := AwaitPrompt(part, encoding, before, a);
    }

    /** The phases of `send_sms_part` after the header: the prompt, or ESC, and then
        the rest. */
    method AwaitPrompt(part: string, encoding: Encoding, ghost before: Monitor, ghost a: Attempt)
      returns (r: Exchange, ghost tries: seq<Attempt>)
      requires Valid() && Holding(before, seen, a) && a.body.None? && a.replies == [] && a.encoding == encoding
      requires a.wait.Waiting? && seen.line.mode == AwaitingPrompt && Busy(side) && side.heed.attention == Prompting
      modifies this
      ensures Calm() && r.Lost? == dead && (old(dead) ==> dead) && |script| <= |old(script)| && old(log) <= log
      ensures !dead ==> seen.line.mode == CommandMode
      ensures Ended(before, seen, tries)
      ensures TriedPart(tries, a.to, part, encoding, r)
      ensures PromptWritten(AtEase(old(side)), side, Body(part, encoding), r)
    {
      ghost var headed := seen;
      ghost var data, closing;
      var prompt;
      prompt, data, closing := WaitForPrompt();
      WaitReads(headed, a, data);
      if prompt == PromptError {
        EndedBy(before, headed, a, ReadFailed);
        return Lost, [AttemptStep(a, ReadFailed)];
      }
      if prompt == NotSeen {
        SilentStep(before, headed, a);
        var ok;
        ok, tries := AbortSubmission(before, a.(wait := Lapsed));
        return if ok then Exchanged([], Timeout) else Lost, tries;
      }
      PromptStep(before, headed, a, closing.line);
      r, tries := SubmitBody(part, encoding, before, a.(wait := PromptSeen));
    }

    /** The phases of `send_sms_part` from the prompt on: body, result, and ESC if
        the result does not come. */
    method SubmitBody(part: string, encoding: Encoding, ghost before: Monitor, ghost a: Attempt)
      returns (r: Exchange, ghost tries: seq<Attempt>)
      requires Valid() && Holding(before, seen, a) && a.body.None? && a.replies == [] && a.encoding == encoding
      requires seen.line.mode == TextEntry && Busy(side)
      modifies this
      ensures Calm() && r.Lost? == dead && (old(dead) ==> dead) && |script| <= |old(script)| && old(log) <= log
      ensures !dead ==> seen.line.mode == CommandMode
      ensures Ended(before, seen, tries)
      ensures TriedPart(tries, a.to, part, encoding, r)
      ensures BodyWritten(AtEase(old(side)), side, Body(part, encoding), r)
    {
      ghost var prompted := seen;
      var ok := Write(Framing.CmgsBody(part, encoding), Body(part, encoding));
      if !ok {
        EndedBy(before, prompted, a, WriteFailed(Body(part, encoding)));
        BusyNotWritten(old(side), Body(part, encoding));
        return Lost, [AttemptStep(a, WriteFailed(Body(part, encoding)))];
      }
      BodyStep(before, prompted, a, part, encoding);
      r, tries := AwaitResult(before, a.(body := Some(part), wait := Waiting), old(side), Body(part, encoding));
    }

    /** What is heard after the body: `held` and `c` are the monitor and the submission
        before `closing`, the step that ended it. */
    method HearReplies(ghost before: Monitor, ghost a: Attempt, ghost start: Side, ghost body: Frame)
      returns (r: Exchange, ghost held: Monitor, ghost c: Attempt, ghost closing: Op)
      requires Valid() && Holding(before, seen, a) && a.body.Some? && a.replies == [] && a.wait.Waiting?
      requires seen.line.mode == Submitted
      requires Busy(start) && body.Body? && side == SideStep(start, Wrote(body))
      modifies this
      ensures Valid() && r.Lost? == dead && (old(dead) ==> dead) && |script| <= |old(script)| && old(log) <= log
      ensures c == a.(replies := c.replies) && AllData(c.replies) && Closes(c.replies, closing, r)
      ensures Holding(before, held, c) && held.line.mode == Submitted && seen == Step(held, closing)
      ensures side == AtEase(Writing(start, [body]))
    {
      ghost var submitted, data := seen, [];
      r, data, closing := Collect();
      CloseIsAnswer(data, closing, r);
      BusyExchange(start, body, data, closing, LinesIn(r));
      RepliesHeld(before, submitted, a, data);
      held, c := Observe(submitted, Reads(data)), a.(replies := data);
    }

    /** The last phase of `send_sms_part`: the result, or ESC. */
    method AwaitResult(ghost before: Monitor, ghost a: Attempt, ghost start: Side, ghost body: Frame)
      returns (r: Exchange, ghost tries: seq<Attempt>)
      requires Valid() && Holding(before, seen, a) && a.body.Some? && a.replies == [] && a.wait.Waiting?
      requires seen.line.mode == Submitted
      requires Busy(start) && body.Body? && side == SideStep(start, Wrote(body))
      modifies this
      ensures Calm() && r.Lost? == dead && (old(dead) ==> dead) && |script| <= |old(script)| && old(log) <= log
      ensures !dead ==> seen.line.mode == CommandMode
      ensures Ended(before, seen, tries)
      ensures TriedPart(tries, a.to, a.body.value, a.encoding, r)
      ensures BodyWritten(AtEase(start), side, body, r)
    {
      ghost var held, c, closing;
      r, held, c, closing := HearReplies(before, a, start, body);
      if r.Lost? {
        EndedBy(before, held, c, ReadFailed);
        return Lost, [AttemptStep(c, ReadFailed)];
      }
      if r.result == Timeout {
        Unanswered(c.replies);
        SilentStep(before, held, c);
        var ok;
        ok, tries := AbortSubmission(before, c.(wait := Lapsed));
        return if ok then r else Lost, tries;
      }
      Answered(before, held, c, closing.line, r);
      tries := [AttemptStep(c, closing)];
    }

    /** The abort that closes a submission without a result. */
    method AbortSubmission(ghost before: Monitor, ghost a: Attempt) returns (ok: bool, ghost tries: seq<Attempt>)
      requires Valid() && Holding(before, seen, a) && a.wait.Lapsed? && Busy(side)
      modifies this
      ensures Calm() && ok == !dead && (old(dead) ==> dead) && |script| <= |old(script)| && old(log) <= log
      ensures !dead ==> seen.line.mode == CommandMode
      ensures Ended(before, seen, tries)
      ensures |tries| == 1 && tries[0].to == a.to && tries[0].encoding == a.encoding && tries[0].body == a.body
      ensures tries[0].verdict == TimedOut || (!ok && tries[0].verdict == Cut)
      ensures EscapeWritten(AtEase(old(side)), side, ok)
    {
      EndedBy(before, seen, a, Wrote(Escape));
      EndedBy(before, seen, a, WriteFailed(Escape));
      ghost var held := seen;
      ok := Abort();
      tries := [AttemptStep(a, if seen == Step(held, Wrote(Escape)) then Wrote(Escape) else WriteFailed(Escape))];
    }
  }

  /** What a command other than a message read leaves: itself, if it went out, and
      nothing else, whatever was read. */
  ghost predicate Commanded(before: Monitor, after: Monitor, frame: Frame, r: Exchange) {
    match r
    case Exchanged(_, _) => after == Step(before, Wrote(frame))
    case Lost => after in {Step(before, Wrote(frame)), Step(before, WriteFailed(frame))}
  }

  /** What a message read leaves: the message fetched, when it was answered `OK` and
      the answer parses. */
  ghost predicate MessageRequested(before: Monitor, after: Monitor, index: nat, r: Exchange) {
    match r
    case Lost =>
      after == before
          || after == before.(inbound :=
          before.inbound.(phase := Free, touches := before.inbound.touches + [Fetch(index)]))
    case Exchanged(lines, result) =>
      after == before.(inbound := before.inbound.(
                       touches := before.inbound.touches + [Fetch(index)],
                       phase := if result == Ok then
                                  match Cmgr.Parsed(Join(lines, "\n"))
                                  case Some(message) => Fetched(index, message)
                                  case None => Free
                                else Free))
  }

  lemma QuietStep(m: Monitor, closing: Op)
    requires Quiet(m) && m.line.mode == CommandMode
    requires closing.Received? || closing.Silence? || closing.ReadFailed?
    ensures Step(m, closing) == m
  {
  }

  lemma RestSettles(m: Monitor, data: seq<string>, closing: Op)
    requires Quiet(m) && m.line.mode == CommandMode
    requires closing.Received? || closing.Silence? || closing.ReadFailed?
    ensures Step(Observe(m, Reads(data)), closing) == m
  {
    QuietReads(m, data);
    QuietStep(m, closing);
  }

  /** After ESC the answer, whatever it is, changes nothing. */
  lemma EscapeSettles(m: Monitor, s: Side, data: seq<string>, closing: Op, r: Exchange)
    requires !m.inbound.phase.Reading? && Busy(s) && AllData(data) && Closes(data, closing, r)
    ensures Step(Observe(Step(m, Wrote(Escape)), Reads(data)), closing) == Step(m, Wrote(Escape))
    ensures SideStep(SideAll(SideStep(s, Wrote(Escape)), Reads(data)), closing) == AtEase(Writing(s, [Escape]))
  {
    RestSettles(Step(m, Wrote(Escape)), data, closing);
    CloseIsAnswer(data, closing, r);
    BusyExchange(s, Escape, data, closing, LinesIn(r));
  }

  lemma CommandSettles(m: Monitor, frame: Frame, data: seq<string>, closing: Op)
    requires Quiet(m) && m.line.mode == CommandMode && IsCommand(frame) && !frame.ReadMessage?
    requires closing.Received? || closing.Silence? || closing.ReadFailed?
    ensures Step(Observe(Step(m, Wrote(frame)), Reads(data)), closing) == Step(m, Wrote(frame))
    ensures Quiet(Step(m, Wrote(frame)))
  {
    RestSettles(Step(m, Wrote(frame)), data, closing);
  }

  lemma ReadSettles(m: Monitor, index: nat, data: seq<string>, closing: Op)
    requires Quiet(m) && m.line.mode == CommandMode && AllData(data)
    requires closing.Silence? || closing.ReadFailed? || (closing.Received? && IsTerminator(closing.line))
    ensures Step(Observe(Step(m, Wrote(ReadMessage(index))), Reads(data)), closing)
         == m.(inbound := m.inbound.(
              touches := m.inbound.touches + [Fetch(index)],
              phase := if closing.Received? then PhaseRead(Reading(index, data), closing.line) else Free))
  {
    var m' := Step(m, Wrote(ReadMessage(index)));
    MessageReads(m', index, data);
  }

  /** What an exchange leaves on the line. */
  ghost predicate Asked(before: Monitor, after: Monitor, frame: Frame, r: Exchange) {
    if frame.ReadMessage? then MessageRequested(before, after, frame.index, r) else Commanded(before, after, frame, r)
  }

  lemma NotWritten(m: Monitor, frame: Frame)
    requires Quiet(m) && IsCommand(frame)
    ensures Quiet(Step(m, WriteFailed(frame))) && Asked(m, Step(m, WriteFailed(frame)), frame, Lost)
    ensures !frame.DeleteMessage? ==> Step(m, WriteFailed(frame)) == m
  {
  }

  lemma ExchangeSettles(m: Monitor, after: Monitor, frame: Frame, data: seq<string>, closing: Op, r: Exchange)
    requires Quiet(m) && m.line.mode == CommandMode && IsCommand(frame) && AllData(data) && Closes(data, closing, r)
    requires after == Step(Observe(Step(m, Wrote(frame)), Reads(data)), closing)
    ensures Quiet(after) && Asked(m, after, frame, r)
  {
    if frame.ReadMessage? {
      ReadSettles(m, frame.index, data, closing);
    } else {
      CommandSettles(m, frame, data, closing);
    }
  }

  /** Everything but the submissions and the text-entry mode is as it was. */
  ghost predicate Beside(before: Monitor, m: Monitor) {
    m.line.swallowed == before.line.swallowed && m.charset == before.charset && m.inbound == before.inbound
  }

  /** One submission more than before, and it is open. */
  ghost predicate Holding(before: Monitor, m: Monitor, a: Attempt) {
    && Quiet(before) && Beside(before, m) && m.sends == before.sends + [a] && a.verdict == Open
    && m.charset.current == CharsetFor(a.encoding)
  }

  ghost predicate Ended(before: Monitor, after: Monitor, tries: seq<Attempt>) {
    Quiet(after) && Beside(before, after) && after.sends == before.sends + tries
  }

  lemma LastStep(before: Monitor, m: Monitor, a: Attempt, op: Op)
    requires Holding(before, m, a) && !op.Opened? && !op.Stored?
    requires op.Wrote? ==> op.frame.Escape? || (op.frame.Body? && op.frame.encoding == a.encoding)
    requires op.WriteFailed? ==> !op.frame.DeleteMessage?
    ensures Step(m, op).sends == before.sends + [AttemptStep(a, op)]
    ensures Step(m, op).charset == before.charset && Step(m, op).inbound == before.inbound
    ensures Step(m, op).line == LineStep(m.line, op)
  {
    assert m.sends[..|m.sends| - 1] == before.sends;
  }

  lemma EndedBy(before: Monitor, m: Monitor, a: Attempt, op: Op)
    requires Holding(before, m, a) && !op.Opened? && !op.Stored?
    requires op.Wrote? ==> op.frame.Escape?
    requires op.WriteFailed? ==> !op.frame.DeleteMessage?
    requires op.Received? ==> m.line.mode == Submitted && IsTerminator(op.line)
    requires AttemptStep(a, op).verdict != Open
    ensures Ended(before, Step(m, op), [AttemptStep(a, op)])
  {
    LastStep(before, m, a, op);
  }

  lemma SilentStep(before: Monitor, m: Monitor, a: Attempt)
    requires Holding(before, m, a)
    ensures !a.wait.PromptSeen? ==> Holding(before, Step(m, Silence), a.(wait := Lapsed))
    ensures Step(m, Silence).line == m.line
  {
    LastStep(before, m, a, Silence);
  }

  lemma HeaderStep(m: Monitor, to: string, encoding: Encoding)
    requires Quiet(m) && m.line.mode == CommandMode && m.charset.current == CharsetFor(encoding)
    ensures var m' := Step(m, Wrote(Header(to, encoding)));
              m'.line.mode == AwaitingPrompt && Holding(m, m', Attempt(to, encoding, None, [], Open, Waiting))
  {
  }

  lemma PromptStep(before: Monitor, m: Monitor, a: Attempt, line: string)
    requires Holding(before, m, a) && a.body.None? && m.line.mode == AwaitingPrompt && IsPrompt(line)
    ensures Holding(before, Step(m, Received(line)), a.(wait := PromptSeen))
              && Step(m, Received(line)).line.mode == TextEntry
  {
    LastStep(before, m, a, Received(line));
  }

  lemma BodyStep(before: Monitor, m: Monitor, a: Attempt, part: string, encoding: Encoding)
    requires Holding(before, m, a) && m.line.mode == TextEntry && a.encoding == encoding
    ensures var m' := Step(m, Wrote(Body(part, encoding)));
              m'.line.mode == Submitted && Holding(before, m', a.(body := Some(part), wait := Waiting))
  {
    LastStep(before, m, a, Wrote(Body(part, encoding)));
  }

  lemma RepliesHeld(before: Monitor, m: Monitor, a: Attempt, data: seq<string>)
    requires Holding(before, m, a) && a.body.Some? && a.replies == [] && a.wait.Waiting?
    requires m.line.mode == Submitted && AllData(data)
    ensures Holding(before, Observe(m, Reads(data)), a.(replies := data))
    ensures Observe(m, Reads(data)).line.mode == Submitted
  {
    ReplyReads(m, a, data);
    assert m.sends[..|m.sends| - 1] == before.sends;
  }

  /** A terminator after the body settles the submission one way or the other. */
  lemma Answered(before: Monitor, m: Monitor, a: Attempt, line: string, r: Exchange)
    requires Holding(before, m, a) && a.body.Some? && AllData(a.replies) && m.line.mode == Submitted
    requires r.Exchanged? && r.result != Timeout && ClassifyLine(line) == Terminator(r.result)
    requires r.lines == Gather(a.replies + [line])
    ensures Ended(before, Step(m, Received(line)), [AttemptStep(a, Received(line))])
    ensures Step(m, Received(line)).line.mode == CommandMode
    ensures TriedPart([AttemptStep(a, Received(line))], a.to, a.body.value, a.encoding, r)
  {
    EndedBy(before, m, a, Received(line));
    LastStep(before, m, a, Received(line));
    GatherKeepsOutcome(a.replies + [line], None);
  }

  lemma Unanswered(data: seq<string>)
    requires AllData(data)
    ensures !SendOutcomeOf(Gather(data)).Sent?
  {
    GatherKeepsOutcome(data, None);
    NoTerminatorNotSent(data);
  }

  /** A submission of the part, as far as it got. */
  predicate Begun(a: Attempt, to: string, part: string, encoding: Encoding) {
    a.to == to && a.encoding == encoding && a.body in {None, Some(part)}
  }

  /** How one run of `send_sms_part` shows on the line. */
  ghost predicate TriedPart(tries: seq<Attempt>, to: string, part: string, encoding: Encoding, r: Exchange) {
    match r
    case Lost => tries == []
        || (|tries| == 1 && Begun(tries[0], to, part, encoding) && tries[0].verdict in {Cut, TimedOut})
    case Exchanged(lines, result) =>
      && |tries| == 1 && Begun(tries[0], to, part, encoding)
      && (result == Timeout ==> tries[0].verdict == TimedOut && !SendOutcomeOf(lines).Sent?)
      && (result != Timeout ==>
            && tries[0].body == Some(part)
            && SendOutcomeOf(tries[0].replies) == SendOutcomeOf(lines)
            && tries[0].verdict == if SendOutcomeOf(lines).Sent? then Confirmed else Rejected)
  }
}
