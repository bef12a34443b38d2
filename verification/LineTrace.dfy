/** What can be observed on the modem's line, and the monitors that judge it: the
    text-entry state, the character set in force, the submissions made, and the
    inbound messages read, stored and deleted. Monitors are folds over the trace;
    a fault they find stays found. */
module LineTrace {
  import opened Text
  import opened Segmentation
  import opened Protocol
  import opened Frames
  import opened Cmgr

  /** One step on the line, or in the store beside it. */
  datatype Op =
    | Wrote(frame: Frame)
    | WriteFailed(frame: Frame)
    | Received(line: string)
    | Silence
    | ReadFailed
    | Opened
    | Stored(message: ParsedInbound)

  /** Every frame that goes out, or nearly does, is one the driver may write. */
  function OpAllowed(op: Op): bool {
    match op case Wrote(f) => Allowed(f) case WriteFailed(f) => Allowed(f) case _ => true
  }

  function AllAllowed(log: seq<Op>): bool {
    log == [] || (AllAllowed(log[..|log| - 1]) && OpAllowed(log[|log| - 1]))
  }

  lemma AllowedSnoc(log: seq<Op>, op: Op)
    ensures AllAllowed(log + [op]) <==> AllAllowed(log) && OpAllowed(op)
  {
    assert (log + [op])[..|log|] == log;
  }

  lemma {:induction false} AllowedBefore(log: seq<Op>, longer: seq<Op>)
    requires AllAllowed(longer) && log <= longer
    ensures AllAllowed(log)
    decreases |longer|
  {
    if log != longer {
      AllowedBefore(log, longer[..|longer| - 1]);
    }
  }

  lemma AllowedAt(log: seq<Op>, k: nat)
    requires AllAllowed(log) && k < |log|
    ensures OpAllowed(log[k])
  {
    AllowedBefore(log[..k + 1], log);
    assert log[..k + 1][..k] == log[..k];
  }

  // Text entry

  /** `Uncertain` is a line some earlier connection may have left at the prompt. */
  datatype Mode = Uncertain | CommandMode | AwaitingPrompt | TextEntry | Submitted

  /** `swallowed`: a command went out while the line might have been in text entry,
      or a body while it was not at the prompt. */
  datatype LineState = LineState(mode: Mode, swallowed: bool)

  function LineStep(s: LineState, op: Op): LineState {
    match op
    case Wrote(f) =>
      if f.Escape? then s.(mode := CommandMode)
      else if f.Body? then LineState(Submitted, s.swallowed || s.mode != TextEntry)
      else LineState(if f.Header? then AwaitingPrompt else s.mode, s.swallowed || s.mode != CommandMode)
    case WriteFailed(f) => if f.Header? || f.Body? || s.mode != CommandMode then s.(mode := Uncertain) else s
    case ReadFailed => if s.mode != CommandMode then s.(mode := Uncertain) else s
    case Opened => s.(mode := Uncertain)
    case Received(line) =>
      if s.mode == AwaitingPrompt && IsPrompt(line) then s.(mode := TextEntry)
      else if s.mode == Submitted && IsTerminator(line) then s.(mode := CommandMode)
      else s
    case _ => s
  }

  // Character set

  datatype Charset = Charset(name: string, params: string)

  const IRA := Charset("IRA", "17,167,0,0")
  const UCS2 := Charset("UCS2", "17,167,0,8")

  function CharsetFor(encoding: Encoding): Charset {
    match encoding case Gsm7 => IRA case Wide => UCS2
  }

  /** The last character set and parameters selected on this connection;
      `mismatched`: a submission or a status query went out under others. */
  datatype CharsetState = CharsetState(current: Charset, mismatched: bool)

  function CharsetStep(s: CharsetState, op: Op): CharsetState {
    match op
    case Opened => s.(current := Charset("", ""))
    case Wrote(SelectCharset(name)) => s.(current := s.current.(name := name))
    case Wrote(SetParameters(params)) => s.(current := s.current.(params := params))
    case Wrote(Header(_, encoding)) => s.(mismatched := s.mismatched || s.current != CharsetFor(encoding))
    case Wrote(Body(_, encoding)) => s.(mismatched := s.mismatched || s.current != CharsetFor(encoding))
    case Wrote(PassedOn(text)) => s.(mismatched := s.mismatched || (text in STATUS_QUERIES && s.current != IRA))
    case Wrote(Command(text)) => s.(mismatched := s.mismatched || (text in STATUS_QUERIES && s.current != IRA))
    case _ => s
  }

  // Submissions

  datatype Verdict = Open | Confirmed | Rejected | TimedOut | Hurried | Cut

  /** Whether the wait for the prompt or the result goes on, the prompt has come, or
      the deadline has just passed. */
  datatype Wait = Waiting | PromptSeen | Lapsed

  /** A submission from its header on: the body once written, the lines read since,
      and how it ended. `TimedOut` means it was escaped when a deadline had passed,
      `Hurried` that it was escaped before, `Cut` that the port went. */
  datatype Attempt = Attempt(to: string, encoding: Encoding, body: Option<string>, replies: seq<string>,
                             verdict: Verdict, wait: Wait)

  function AttemptRead(a: Attempt, line: string): Attempt {
    if a.body.None? then a.(wait := if a.wait.PromptSeen? || IsPrompt(line) then PromptSeen else Waiting)
    else
      var replies := a.replies + [line];
      a.(replies := replies, wait := Waiting,
         verdict := if !IsTerminator(line) then Open
                    else if SendOutcomeOf(replies).Sent? then Confirmed else Rejected)
  }

  function AttemptStep(a: Attempt, op: Op): Attempt {
    match op
    case Wrote(Body(text, _)) => a.(body := Some(text), wait := Waiting)
    case Wrote(Escape) => a.(verdict := if a.wait.Lapsed? then TimedOut else Hurried)
    case Received(line) => AttemptRead(a, line)
    case Silence => if a.wait.PromptSeen? then a else a.(wait := Lapsed)
    case WriteFailed(_) => a.(verdict := Cut)
    case ReadFailed => a.(verdict := Cut)
    case Opened => a.(verdict := Cut)
    case _ => if a.wait.PromptSeen? then a else a.(wait := Waiting)
  }

  predicate Settled(sends: seq<Attempt>) {
    sends == [] || sends[|sends| - 1].verdict != Open
  }

  function SendStep(sends: seq<Attempt>, op: Op): seq<Attempt> {
    if op.Wrote? && op.frame.Header? then
      sends + [Attempt(op.frame.to, op.frame.encoding, None, [], Open, Waiting)]
    else if Settled(sends) then sends
    else sends[..|sends| - 1] + [AttemptStep(sends[|sends| - 1], op)]
  }

  // Inbound messages

  datatype Phase =
    | Free
    | Reading(index: nat, lines: seq<string>)
    | Fetched(index: nat, message: ParsedInbound)
    | Persisted(index: nat, message: ParsedInbound)

  datatype Saved = Saved(index: nat, message: ParsedInbound)

  /** What was done about inbound messages: read from the modem, stored, deleted there. */
  datatype Touch = Fetch(index: nat) | Keep(message: ParsedInbound) | Delete(index: nat)

  /** `unsafe`: a message was deleted that had not just been stored, or one was
      stored that had not just been read, or differently. */
  datatype InboundState = InboundState(phase: Phase, stored: seq<Saved>, touches: seq<Touch>, unsafe: bool)

  function PhaseRead(phase: Phase, line: string): Phase {
    match phase
    case Reading(index, lines) =>
      if !IsTerminator(line) then Reading(index, lines + [line])
      else if ClassifyLine(line) != Terminator(Ok) then Free
      else (match Cmgr.ReadMessage(lines + [line])
            case Some(message) => Fetched(index, message)
            case None => Free)
    case _ => phase
  }

  function Deleting(s: InboundState, index: nat): InboundState {
    s.(phase := Free, unsafe := s.unsafe || !(s.phase.Persisted? && s.phase.index == index),
       touches := s.touches + [Delete(index)])
  }

  function InboundStep(s: InboundState, op: Op): InboundState {
    match op
    case Wrote(ReadMessage(index)) => s.(phase := Reading(index, []), touches := s.touches + [Fetch(index)])
    case Wrote(DeleteMessage(index)) => Deleting(s, index)
    case Wrote(_) => if s.phase.Reading? then s.(phase := Free) else s
    case WriteFailed(DeleteMessage(index)) => Deleting(s, index)
    case Received(line) => s.(phase := PhaseRead(s.phase, line))
    case Stored(message) =>
      if s.phase.Fetched? && s.phase.message == message
      then InboundState(Persisted(s.phase.index, message), s.stored + [Saved(s.phase.index, message)],
                        s.touches + [Keep(message)], s.unsafe)
      else s.(unsafe := true)
    case Opened => s.(phase := Free)
    case Silence => if s.phase.Reading? then s.(phase := Free) else s
    case ReadFailed => if s.phase.Reading? then s.(phase := Free) else s
    case WriteFailed(_) => if s.phase.Reading? then s.(phase := Free) else s
  }

  // All four

  datatype Monitor = Monitor(line: LineState, charset: CharsetState, sends: seq<Attempt>, inbound: InboundState)

  const START :=
      Monitor(LineState(Uncertain, false), CharsetState(Charset("", ""), false), [], InboundState(Free, [], [], false))

  function Step(m: Monitor, op: Op): Monitor {
    Monitor(LineStep(m.line, op), CharsetStep(m.charset, op), SendStep(m.sends, op), InboundStep(m.inbound, op))
  }

  function Observe(m: Monitor, log: seq<Op>): Monitor {
    if log == [] then m else Step(Observe(m, log[..|log| - 1]), log[|log| - 1])
  }

  predicate Clean(m: Monitor) {
    !m.line.swallowed && !m.charset.mismatched && !m.inbound.unsafe
  }

  lemma ObserveSnoc(m: Monitor, log: seq<Op>, op: Op)
    ensures Observe(m, log + [op]) == Step(Observe(m, log), op)
  {
    assert (log + [op])[..|log|] == log;
  }

  /** The frames that went out, in order. */
  function Writes(log: seq<Op>): seq<Frame> {
    if log == [] then []
    else
      var op := log[|log| - 1];
      Writes(log[..|log| - 1]) + if op.Wrote? then [op.frame] else []
  }

  // Reading lines

  function Reads(lines: seq<string>): (ops: seq<Op>)
    ensures |ops| == |lines|
    ensures forall i :: 0 <= i < |ops| ==> ops[i] == Received(lines[i])
  {
    seq(|lines|, i requires 0 <= i < |lines| => Received(lines[i]))
  }

  lemma ReadsSnoc(m: Monitor, lines: seq<string>, line: string)
    ensures Observe(m, Reads(lines + [line])) == Step(Observe(m, Reads(lines)), Received(line))
  {
    assert Reads(lines + [line]) == Reads(lines) + [Received(line)];
    ObserveSnoc(m, Reads(lines), Received(line));
  }

  lemma ReadsFront(m: Monitor, lines: seq<string>)
    requires lines != []
    ensures Observe(m, Reads(lines)) == Step(Observe(m, Reads(lines[..|lines| - 1])), Received(lines[|lines| - 1]))
  {
    assert lines == lines[..|lines| - 1] + [lines[|lines| - 1]];
    ReadsSnoc(m, lines[..|lines| - 1], lines[|lines| - 1]);
  }

  predicate AllData(lines: seq<string>) {
    forall i :: 0 <= i < |lines| ==> !IsTerminator(lines[i])
  }

  /** No submission is open, no message is being read, and nobody is at the prompt. */
  predicate Quiet(m: Monitor) {
    Settled(m.sends) && !m.inbound.phase.Reading? && m.line.mode in {CommandMode, Uncertain}
  }

  /** At rest, lines from the modem change nothing. */
  lemma {:induction false} QuietReads(m: Monitor, lines: seq<string>)
    requires Quiet(m) && m.line.mode == CommandMode
    ensures Observe(m, Reads(lines)) == m
  {
    if lines != [] {
      QuietReads(m, lines[..|lines| - 1]);
      ReadsFront(m, lines);
    }
  }

  function ReadingOf(m: Monitor, index: nat, lines: seq<string>): Monitor {
    m.(inbound := m.inbound.(phase := Reading(index, lines)))
  }

  lemma MessageMore(m: Monitor, index: nat, front: seq<string>, last: string)
    requires Settled(m.sends) && m.line.mode == CommandMode && !IsTerminator(last)
    ensures Step(ReadingOf(m, index, front), Received(last)) == ReadingOf(m, index, front + [last])
  {
  }

  lemma FrontAndLast<T>(s: seq<T>)
    requires s != []
    ensures s[..|s| - 1] + [s[|s| - 1]] == s
  {
  }

  lemma {:induction false} MessageReads(m: Monitor, index: nat, lines: seq<string>)
    requires Settled(m.sends) && m.line.mode == CommandMode && AllData(lines)
    ensures Observe(ReadingOf(m, index, []), Reads(lines)) == ReadingOf(m, index, lines)
  {
    if lines != [] {
      var front, last := lines[..|lines| - 1], lines[|lines| - 1];
      MessageReads(m, index, front);
      ReadsFront(ReadingOf(m, index, []), lines);
      MessageMore(m, index, front, last);
      FrontAndLast(lines);
    }
  }

  /** The open submission of a monitor, if the last one is. */
  predicate Submitting(m: Monitor, a: Attempt) {
    m.sends != [] && m.sends[|m.sends| - 1] == a && a.verdict == Open && !m.inbound.phase.Reading?
  }

  function WithLast(m: Monitor, a: Attempt): Monitor
    requires m.sends != []
  {
    m.(sends := m.sends[..|m.sends| - 1] + [a])
  }

  lemma {:induction false} WaitReads(m: Monitor, a: Attempt, lines: seq<string>)
    requires Submitting(m, a) && a.body.None? && a.wait.Waiting? && m.line.mode == AwaitingPrompt
    requires forall i :: 0 <= i < |lines| ==> !IsPrompt(lines[i])
    ensures Observe(m, Reads(lines)) == m
  {
    if lines != [] {
      WaitReads(m, a, lines[..|lines| - 1]);
      ReadsFront(m, lines);
      assert m.sends[..|m.sends| - 1] + [a] == m.sends;
    }
  }

  lemma ReplyStep(m: Monitor, a: Attempt, line: string)
    requires Submitting(m, a) && a.body.Some? && a.wait.Waiting? && m.line.mode == Submitted && !IsTerminator(line)
    ensures Step(m, Received(line)) == WithLast(m, a.(replies := a.replies + [line]))
  {
  }

  lemma ReplyMore(m: Monitor, a: Attempt, front: seq<string>, last: string)
    requires Submitting(m, a) && a.body.Some? && a.wait.Waiting? && m.line.mode == Submitted && !IsTerminator(last)
    ensures Step(WithLast(m, a.(replies := front)), Received(last)) == WithLast(m, a.(replies := front + [last]))
  {
    var m' := WithLast(m, a.(replies := front));
    ReplyStep(m', a.(replies := front), last);
    assert m'.sends[..|m'.sends| - 1] == m.sends[..|m.sends| - 1];
  }

  lemma {:induction false} ReplyReads(m: Monitor, a: Attempt, lines: seq<string>)
    requires Submitting(m, a) && a.body.Some? && a.wait.Waiting? && a.replies == [] && m.line.mode == Submitted
    requires AllData(lines)
    ensures Observe(m, Reads(lines)) == WithLast(m, a.(replies := lines))
  {
    if lines == [] {
      assert m.sends == m.sends[..|m.sends| - 1] + [a];
    } else {
      var front, last := lines[..|lines| - 1], lines[|lines| - 1];
      ReplyReads(m, a, front);
      ReadsFront(m, lines);
      ReplyMore(m, a, front, last);
      FrontAndLast(lines);
    }
  }

  // Gathered lines and the outcome they give

  lemma {:induction false} GatherSnoc(lines: seq<string>, line: string)
    requires AllData(lines)
    ensures Gather(lines + [line])
         == Gather(lines) + if IsTerminator(line) || Trim(line) != "" then [line] else []
  {
    if lines == [] {
      assert Gather([line]) == if IsTerminator(line) || Trim(line) != "" then [line] else [];
    } else {
      assert (lines + [line])[1..] == lines[1..] + [line];
      GatherSnoc(lines[1..], line);
    }
  }

  lemma BlankIsNothing(line: string)
    requires Trim(line) == ""
    ensures ParseCmgsReference(line).None? && !IsTerminator(line)
  {
  }

  /** Dropping blank lines does not change what a submission came to. */
  lemma {:induction false} GatherKeepsOutcome(lines: seq<string>, reference: Option<nat>)
    ensures OutcomeFrom(Gather(lines), reference) == OutcomeFrom(lines, reference)
  {
    if lines != [] {
      ReferenceIsData(lines[0]);
      if Trim(lines[0]) == "" {
        BlankIsNothing(lines[0]);
        GatherKeepsOutcome(lines[1..], reference);
        assert Gather(lines) == Gather(lines[1..]);
      } else if !IsTerminator(lines[0]) {
        var seen := ParseCmgsReference(lines[0]);
        GatherKeepsOutcome(lines[1..], if seen.Some? then seen else reference);
        assert Gather(lines)[1..] == Gather(lines[1..]);
      }
    }
  }

  /** Without a terminator nothing was sent. */
  lemma NoTerminatorNotSent(lines: seq<string>)
    requires AllData(lines)
    ensures !SendOutcomeOf(lines).Sent?
  {
    SendOutcomeMeaning(lines);
  }
}
