/** What the trace shows beside the monitors that can find fault: the frames written,
    the announcements heeded, and the modem's readiness. */
module SideTrace {
  import opened Text
  import opened Protocol
  import opened Frames
  import opened LineTrace
  import opened Announcements
  import opened Readiness

  datatype Side = Side(written: seq<Frame>, heed: Heed, view: View)

  const NO_SIDE := Side([], NO_HEED, NO_VIEW)

  function SideStep(s: Side, op: Op): Side {
    Side(s.written + (if op.Wrote? then [op.frame] else []), HeedStep(s.heed, op), ViewStep(s.view, op))
  }

  function SideAll(s: Side, log: seq<Op>): Side {
    if log == [] then s else SideStep(SideAll(s, log[..|log| - 1]), log[|log| - 1])
  }

  lemma SideSnoc(s: Side, log: seq<Op>, op: Op)
    ensures SideAll(s, log + [op]) == SideStep(SideAll(s, log), op)
  {
    assert (log + [op])[..|log|] == log;
  }

  lemma SideReadsSnoc(s: Side, lines: seq<string>, line: string)
    ensures SideAll(s, Reads(lines + [line])) == SideStep(SideAll(s, Reads(lines)), Received(line))
  {
    assert Reads(lines + [line]) == Reads(lines) + [Received(line)];
    SideSnoc(s, Reads(lines), Received(line));
  }

  /** Each of the three is its own account of the trace. */
  lemma {:induction false} SideIs(log: seq<Op>)
    ensures SideAll(NO_SIDE, log) == Side(Writes(log), HeedAll(NO_HEED, log), ViewAll(NO_VIEW, log))
  {
    if log != [] {
      SideIs(log[..|log| - 1]);
    }
  }

  lemma {:induction false} SideReads(s: Side, lines: seq<string>)
    ensures SideAll(s, Reads(lines)) == Side(s.written, HeedAll(s.heed, Reads(lines)), ViewAll(s.view, Reads(lines)))
  {
    if lines != [] {
      SideReads(s, lines[..|lines| - 1]);
      SideReadsSnoc(s, lines[..|lines| - 1], lines[|lines| - 1]);
      HeedReadsSnoc(s.heed, lines[..|lines| - 1], lines[|lines| - 1]);
      ViewReadsSnoc(s.view, lines[..|lines| - 1], lines[|lines| - 1]);
      FrontAndLast(lines);
    }
  }

  /** Between exchanges. */
  predicate Idle(s: Side) {
    s.heed.attention == AtRest && s.view == Forgotten(s.view)
  }

  /** In a submission: what arrives is neither heeded nor learnt from. */
  predicate Busy(s: Side) {
    s.heed.attention in {AtRest, Ignoring, Prompting} && s.view == Forgotten(s.view)
  }

  function AtEase(s: Side): Side {
    s.(heed := s.heed.(attention := AtRest))
  }

  function Writing(s: Side, frames: seq<Frame>): Side {
    s.(written := s.written + frames)
  }

  /** What a command's exchange leaves beside the line. */
  predicate Recounted(before: Side, after: Side, frame: Frame, lines: Option<seq<string>>) {
    match lines
    case None => after == before || after == Writing(before, [frame])
    case Some(answer) =>
      after == Side(before.written + [frame],
                    if IsHeeded(frame) then Hearing(before.heed, CmtiIndices(answer)) else before.heed,
                    if IsStatusQuery(frame) then Learnt(before.view, frame.text, answer) else before.view)
  }

  /** How lines of data and what closed them answer a command. */
  predicate Answers(data: seq<string>, closing: Op, lines: Option<seq<string>>) {
    && AllData(data)
    && match lines
       case None => closing == ReadFailed
       case Some(answer) =>
         || (closing == Silence && answer == Gather(data))
         || (closing.Received? && IsTerminator(closing.line) && answer == Gather(data + [closing.line]))
  }

  lemma IdleExchange(s: Side, frame: Frame, data: seq<string>, closing: Op, lines: Option<seq<string>>)
    requires Idle(s) && IsCommand(frame) && Answers(data, closing, lines)
    ensures var after := SideStep(SideAll(SideStep(s, Wrote(frame)), Reads(data)), closing);
              Idle(after) && Recounted(s, after, frame, lines)
  {
    ExchangeBeside(s, frame, data, closing);
    HeedConcluded(s.heed, frame, data, closing, lines);
    ViewConcluded(s.view, frame, data, closing, lines);
    IdleAfter(s, frame, lines, HeedStep(HeedAll(HeedStep(s.heed, Wrote(frame)), Reads(data)), closing),
              ViewStep(ViewAll(ViewStep(s.view, Wrote(frame)), Reads(data)), closing));
  }

  lemma IdleAfter(s: Side, frame: Frame, lines: Option<seq<string>>, heed: Heed, view: View)
    requires Idle(s)
    requires heed == if lines.Some? && IsHeeded(frame) then Hearing(s.heed, CmtiIndices(lines.value)) else s.heed
    requires view == if lines.Some? && IsStatusQuery(frame) then Learnt(s.view, frame.text, lines.value) else s.view
    ensures var after := Side(s.written + [frame], heed, view);
              Idle(after) && Recounted(s, after, frame, lines)
  {
  }

  lemma ExchangeBeside(s: Side, frame: Frame, data: seq<string>, closing: Op)
    requires !closing.Wrote?
    ensures SideStep(SideAll(SideStep(s, Wrote(frame)), Reads(data)), closing)
         == Side(s.written + [frame], HeedStep(HeedAll(HeedStep(s.heed, Wrote(frame)), Reads(data)), closing),
                 ViewStep(ViewAll(ViewStep(s.view, Wrote(frame)), Reads(data)), closing))
  {
    SideReads(SideStep(s, Wrote(frame)), data);
    assert s.written + [frame] + [] == s.written + [frame];
  }

  lemma HeedConcluded(h: Heed, frame: Frame, data: seq<string>, closing: Op, lines: Option<seq<string>>)
    requires h.attention == AtRest && IsCommand(frame) && Answers(data, closing, lines)
    ensures HeedStep(HeedAll(HeedStep(h, Wrote(frame)), Reads(data)), closing)
         == if lines.Some? && IsHeeded(frame) then Hearing(h, CmtiIndices(lines.value)) else h
  {
    if IsHeeded(frame) {
      HeededExchange(h, frame, data, closing);
    } else {
      UnheededExchange(h, frame, data, closing);
    }
  }

  lemma ViewConcluded(v: View, frame: Frame, data: seq<string>, closing: Op, lines: Option<seq<string>>)
    requires v == Forgotten(v) && Answers(data, closing, lines)
    ensures ViewStep(ViewAll(ViewStep(v, Wrote(frame)), Reads(data)), closing)
         == if lines.Some? && IsStatusQuery(frame) then Learnt(v, frame.text, lines.value) else v
  {
    if IsStatusQuery(frame) {
      AskedExchange(v, frame, data, closing);
    } else {
      UnaskedExchange(v, frame, data, closing);
    }
  }

  lemma IdleNotWritten(s: Side, frame: Frame)
    requires Idle(s)
    ensures SideStep(s, WriteFailed(frame)) == s
  {
    assert s.written + [] == s.written;
  }

  /** A body or an ESC, and whatever follows. */
  lemma BusyExchange(s: Side, frame: Frame, data: seq<string>, closing: Op, lines: Option<seq<string>>)
    requires Busy(s) && (frame.Body? || frame.Escape?) && Answers(data, closing, lines)
    ensures SideStep(SideAll(SideStep(s, Wrote(frame)), Reads(data)), closing) == AtEase(Writing(s, [frame]))
  {
    SideReads(SideStep(s, Wrote(frame)), data);
    UnheededExchange(s.heed.(attention := AtRest), frame, data, closing);
    UnaskedExchange(s.view, frame, data, closing);
  }

  lemma BusyNotWritten(s: Side, frame: Frame)
    requires Busy(s)
    ensures SideStep(s, WriteFailed(frame)) == AtEase(s)
  {
    assert s.written + [] == s.written;
  }

  lemma HeaderStarts(s: Side, frame: Frame)
    requires Idle(s) && frame.Header?
    ensures SideStep(s, Wrote(frame)) == Writing(s, [frame]).(heed := s.heed.(attention := Prompting))
  {
  }

  /** Waiting for the prompt. */
  lemma PromptingRead(s: Side, op: Op)
    requires Busy(s) && s.heed.attention == Prompting && (op.Received? || op.Silence?)
    ensures SideStep(s, op) == s && SideStep(s, ReadFailed) == AtEase(s)
  {
    assert s.written + [] == s.written;
  }

  /** At rest what arrives is heeded and that is all. */
  lemma IdleRead(s: Side, op: Op)
    requires Idle(s) && (op.Received? || op.Silence? || op.ReadFailed?)
    ensures SideStep(s, op) == s.(heed := Hearing(s.heed, if op.Received? then Announced(op.line) else []))
  {
    assert s.written + [] == s.written && s.heed.announced + [] == s.heed.announced;
  }
}
