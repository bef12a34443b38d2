/** Which announcements of new messages the driver takes up. It looks for `+CMTI`
    lines while it polls and in the answers to its reads and deletes and to commands
    passed on for callers; what arrives in other exchanges goes by unseen. */
module Announcements {
  import opened Text
  import opened Protocol
  import opened Frames
  import opened LineTrace

  function Announced(line: string): seq<nat> {
    match ParseCmtiIndex(line) case Some(index) => [index] case None => []
  }

  /** After `+CMTI:`, and after the last comma there if there is any, a number. */
  predicate Announces(line: string, before: string, last: string, index: nat) {
    && Trim(line) == "+CMTI:" + (before + last) && ',' !in last && (before == "" || before[|before| - 1] == ',')
    && ParseUnsigned(Trim(last), U32_MAX) == Some(index)
  }

  lemma {:induction false} LastField(before: string, last: string)
    requires ',' !in last && (before == "" || before[|before| - 1] == ',')
    ensures var fields := SplitCommas(before + last); fields[|fields| - 1] == last
    decreases |before|
  {
    if before == "" {
      IndexOfIs(before + last, ',', |last|);
    } else {
      var i := IndexOf(before, ',');
      IndexOfIs(before + last, ',', i);
      assert (before + last)[i + 1..] == before[i + 1..] + last;
      LastField(before[i + 1..], last);
    }
  }

  lemma {:induction false} LastFieldSplit(s: string) returns (before: string)
    ensures var fields := SplitCommas(s);
              && s == before + fields[|fields| - 1] && ',' !in fields[|fields| - 1]
              && (before == "" || before[|before| - 1] == ',')
    decreases |s|
  {
    var i := IndexOf(s, ',');
    before := "";
    if i < |s| {
      before := LastFieldSplit(s[i + 1..]);
      before := s[..i + 1] + before;
    }
  }

  lemma AnnouncedReads(line: string, index: nat) returns (before: string, last: string)
    requires ParseCmtiIndex(line) == Some(index)
    ensures Announces(line, before, last, index)
  {
    var rest := Trim(line)[6..];
    before := LastFieldSplit(rest);
    last := SplitCommas(rest)[|SplitCommas(rest)| - 1];
    PrefixOff("+CMTI:", Trim(line));
  }

  lemma ReadsAnnounced(line: string, before: string, last: string, index: nat)
    requires Announces(line, before, last, index)
    ensures ParseCmtiIndex(line) == Some(index)
  {
    LastField(before, last);
    PrefixOff("+CMTI:", before + last);
  }

  /** A line announces an index exactly when it is such a line. */
  lemma AnnouncesExactly(line: string, index: nat)
    ensures Announced(line) == [index] <==> exists before, last :: Announces(line, before, last, index)
  {
    if ParseCmtiIndex(line) == Some(index) {
      var before, last := AnnouncedReads(line, index);
    }
    if before, last :| Announces(line, before, last, index) {
      ReadsAnnounced(line, before, last, index);
    }
  }

  /** The indices some lines announce, in order. */
  function CmtiIndices(lines: seq<string>): seq<nat> {
    if lines == [] then [] else CmtiIndices(lines[..|lines| - 1]) + Announced(lines[|lines| - 1])
  }

  lemma CmtiSnoc(lines: seq<string>, line: string)
    ensures CmtiIndices(lines + [line]) == CmtiIndices(lines) + Announced(line)
  {
    assert (lines + [line])[..|lines|] == lines;
  }

  lemma BlankAnnouncesNothing(line: string)
    requires Trim(line) == ""
    ensures Announced(line) == []
  {
  }

  /** Dropping blank lines drops no announcement. */
  lemma {:induction false} GatherAnnounces(lines: seq<string>)
    requires AllData(lines)
    ensures CmtiIndices(Gather(lines)) == CmtiIndices(lines)
  {
    if lines != [] {
      var front, last := lines[..|lines| - 1], lines[|lines| - 1];
      GatherAnnounces(front);
      GatherMore(front, last);
      FrontAndLast(lines);
    }
  }

  lemma GatherMore(lines: seq<string>, line: string)
    requires AllData(lines)
    ensures CmtiIndices(Gather(lines + [line])) == CmtiIndices(Gather(lines)) + Announced(line)
  {
    GatherSnoc(lines, line);
    if IsTerminator(line) || Trim(line) != "" {
      CmtiSnoc(Gather(lines), line);
    } else {
      BlankAnnouncesNothing(line);
      assert Gather(lines) + [] == Gather(lines);
      assert CmtiIndices(Gather(lines)) + [] == CmtiIndices(Gather(lines));
    }
  }

  // What is heeded, step by step

  /** Where the driver's attention is: polling, in an exchange whose lines it will look
      through once the answer is complete, in one whose lines it drops, or waiting
      for the prompt. */
  datatype Attention = AtRest | Heeding(held: seq<nat>) | Ignoring | Prompting

  datatype Heed = Heed(attention: Attention, announced: seq<nat>)

  const NO_HEED := Heed(AtRest, [])

  predicate IsHeeded(f: Frame) {
    f.PassedOn? || f.ReadMessage? || f.DeleteMessage?
  }

  function Attending(f: Frame): Attention {
    if IsHeeded(f) then Heeding([]) else if f.Header? then Prompting else Ignoring
  }

  function HeedLine(h: Heed, line: string): Heed {
    match h.attention
    case AtRest => h.(announced := h.announced + Announced(line))
    case Heeding(held) =>
      var more := held + Announced(line);
      if IsTerminator(line) then Heed(AtRest, h.announced + more) else h.(attention := Heeding(more))
    case Ignoring => if IsTerminator(line) then h.(attention := AtRest) else h
    case Prompting => h
  }

  function HeedStep(h: Heed, op: Op): Heed {
    match op
    case Wrote(f) => h.(attention := Attending(f))
    case Received(line) => HeedLine(h, line)
    case Silence =>
      (match h.attention
       case Heeding(held) => Heed(AtRest, h.announced + held)
       case Ignoring => h.(attention := AtRest)
       case _ => h)
    case Stored(_) => h
    case _ => h.(attention := AtRest)
  }

  function HeedAll(h: Heed, log: seq<Op>): Heed {
    if log == [] then h else HeedStep(HeedAll(h, log[..|log| - 1]), log[|log| - 1])
  }

  lemma HeedSnoc(h: Heed, log: seq<Op>, op: Op)
    ensures HeedAll(h, log + [op]) == HeedStep(HeedAll(h, log), op)
  {
    assert (log + [op])[..|log|] == log;
  }

  lemma HeedReadsSnoc(h: Heed, lines: seq<string>, line: string)
    ensures HeedAll(h, Reads(lines + [line])) == HeedLine(HeedAll(h, Reads(lines)), line)
  {
    assert Reads(lines + [line]) == Reads(lines) + [Received(line)];
    HeedSnoc(h, Reads(lines), Received(line));
  }

  lemma {:induction false} HeedingReads(h: Heed, lines: seq<string>)
    requires h.attention == Heeding([]) && AllData(lines)
    ensures HeedAll(h, Reads(lines)) == h.(attention := Heeding(CmtiIndices(lines)))
  {
    if lines != [] {
      var front, last := lines[..|lines| - 1], lines[|lines| - 1];
      HeedingReads(h, front);
      HeedReadsSnoc(h, front, last);
      FrontAndLast(lines);
    }
  }

  lemma {:induction false} UnheededReads(h: Heed, lines: seq<string>)
    requires h.attention == Prompting || (h.attention == Ignoring && AllData(lines))
    ensures HeedAll(h, Reads(lines)) == h
  {
    if lines != [] {
      var front, last := lines[..|lines| - 1], lines[|lines| - 1];
      UnheededReads(h, front);
      HeedReadsSnoc(h, front, last);
      FrontAndLast(lines);
    }
  }

  function Hearing(h: Heed, indices: seq<nat>): Heed {
    h.(announced := h.announced + indices)
  }

  /** An exchange that is heeded adds what its data and closing line announce. */
  lemma HeededExchange(h: Heed, frame: Frame, data: seq<string>, closing: Op)
    requires h.attention == AtRest && IsHeeded(frame) && AllData(data)
    ensures var after := HeedStep(HeedAll(HeedStep(h, Wrote(frame)), Reads(data)), closing);
              && (closing == Silence ==> after == Hearing(h, CmtiIndices(Gather(data))))
              && (closing == ReadFailed ==> after == h)
              && (closing.Received? && IsTerminator(closing.line) ==>
                    after == Hearing(h, CmtiIndices(Gather(data + [closing.line]))))
  {
    HeedingReads(HeedStep(h, Wrote(frame)), data);
    GatherAnnounces(data);
    if closing.Received? {
      GatherMore(data, closing.line);
    }
  }

  lemma UnheededExchange(h: Heed, frame: Frame, data: seq<string>, closing: Op)
    requires h.attention == AtRest && !IsHeeded(frame) && !frame.Header? && AllData(data)
    requires closing.Silence? || closing.ReadFailed? || (closing.Received? && IsTerminator(closing.line))
    ensures HeedStep(HeedAll(HeedStep(h, Wrote(frame)), Reads(data)), closing) == h
  {
    UnheededReads(HeedStep(h, Wrote(frame)), data);
  }
}
