/** Whether the modem is ready to send, as the status refreshes on the line tell it:
    the verdict of the last one that was completed. */
module Readiness {
  import opened Text
  import opened Protocol
  import opened Frames
  import opened LineTrace

  /** The query being answered and its lines so far, what the refresh under way has
      learnt, and the verdict of the last refresh completed. */
  datatype View = View(asked: Option<string>, lines: seq<string>, sim: SimStatus, registered: bool, deliverable: bool)

  const NO_VIEW := View(None, [], Unknown, false, false)

  predicate IsStatusQuery(f: Frame) {
    f.Command? && f.text in STATUS_QUERIES
  }

  function Forgotten(v: View): View {
    v.(asked := None, lines := [])
  }

  /** What the answer to a query adds; the last of the four completes the refresh. */
  function Learnt(v: View, query: string, lines: seq<string>): View {
    if query == STATUS_QUERIES[0] then v.(sim := ParseCpin(lines))
    else if query == STATUS_QUERIES[1] then v.(registered := ParseCregRegistered(lines))
    else if query == STATUS_QUERIES[3] then v.(deliverable := v.sim == Ready && v.registered)
    else v
  }

  function ViewStep(v: View, op: Op): View {
    match op
    case Wrote(f) => if IsStatusQuery(f) then v.(asked := Some(f.text), lines := []) else Forgotten(v)
    case Received(line) =>
      if v.asked.None? then v
      else if !IsTerminator(line) then v.(lines := v.lines + [line])
      else Learnt(Forgotten(v), v.asked.value, Gather(v.lines + [line]))
    case Silence => if v.asked.None? then v else Learnt(Forgotten(v), v.asked.value, Gather(v.lines))
    case Stored(_) => v
    case _ => Forgotten(v)
  }

  function ViewAll(v: View, log: seq<Op>): View {
    if log == [] then v else ViewStep(ViewAll(v, log[..|log| - 1]), log[|log| - 1])
  }

  /** The verdict a trace leaves. */
  function Deliverable(log: seq<Op>): bool {
    ViewAll(NO_VIEW, log).deliverable
  }

  lemma ViewSnoc(v: View, log: seq<Op>, op: Op)
    ensures ViewAll(v, log + [op]) == ViewStep(ViewAll(v, log), op)
  {
    assert (log + [op])[..|log|] == log;
  }

  lemma ViewReadsSnoc(v: View, lines: seq<string>, line: string)
    ensures ViewAll(v, Reads(lines + [line])) == ViewStep(ViewAll(v, Reads(lines)), Received(line))
  {
    assert Reads(lines + [line]) == Reads(lines) + [Received(line)];
    ViewSnoc(v, Reads(lines), Received(line));
  }

  lemma {:induction false} AskedReads(v: View, lines: seq<string>)
    requires v.asked.Some? && v.lines == [] && AllData(lines)
    ensures ViewAll(v, Reads(lines)) == v.(lines := lines)
  {
    if lines != [] {
      var front, last := lines[..|lines| - 1], lines[|lines| - 1];
      AskedReads(v, front);
      ViewReadsSnoc(v, front, last);
      FrontAndLast(lines);
    }
  }

  lemma {:induction false} UnaskedReads(v: View, lines: seq<string>)
    requires v.asked.None?
    ensures ViewAll(v, Reads(lines)) == v
  {
    if lines != [] {
      UnaskedReads(v, lines[..|lines| - 1]);
      ViewReadsSnoc(v, lines[..|lines| - 1], lines[|lines| - 1]);
      FrontAndLast(lines);
    }
  }

  lemma AskedExchange(v: View, frame: Frame, data: seq<string>, closing: Op)
    requires v == Forgotten(v) && IsStatusQuery(frame) && AllData(data)
    ensures var after := ViewStep(ViewAll(ViewStep(v, Wrote(frame)), Reads(data)), closing);
              && (closing == Silence ==> after == Learnt(v, frame.text, Gather(data)))
              && (closing == ReadFailed ==> after == v)
              && (closing.Received? && IsTerminator(closing.line) ==>
                  after == Learnt(v, frame.text, Gather(data + [closing.line])))
  {
    AskedReads(ViewStep(v, Wrote(frame)), data);
  }

  lemma UnaskedExchange(v: View, frame: Frame, data: seq<string>, closing: Op)
    requires v == Forgotten(v) && !IsStatusQuery(frame)
    requires closing.Silence? || closing.ReadFailed? || closing.Received?
    ensures ViewStep(ViewAll(ViewStep(v, Wrote(frame)), Reads(data)), closing) == v
  {
    UnaskedReads(v, data);
  }
}
