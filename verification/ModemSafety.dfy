/** What a faultless line means to the modem: the settings it is under, and what it is
    asked for, by the bytes it has been sent. */
module ModemSafety {
  import opened Text
  import opened Segmentation
  import opened Frames
  import opened ModemSide
  import opened LineTrace
  import opened LineSafety

  const NO_SETTINGS := Settings("", "")

  /** The settings that the bytes written so far leave the modem under. */
  function SettingsAfter(log: seq<Op>): Settings {
    if log == [] then NO_SETTINGS
    else
      var op := log[|log| - 1];
      var before := SettingsAfter(log[..|log| - 1]);
      if op.Wrote? then Obey(before, Understood(Render(op.frame))) else before
  }

  /** What the monitor takes to be in force, the modem is under. */
  predicate Agrees(settings: Settings, charset: Charset) {
    && (charset.name != "" ==> settings.charset == charset.name)
    && (charset.params != "" ==> settings.params == charset.params)
  }

  lemma AgreesStep(settings: Settings, s: CharsetState, op: Op)
    requires Agrees(settings, s.current) && OpAllowed(op)
    ensures var after := if op.Wrote? then Obey(settings, Understood(Render(op.frame))) else settings;
              Agrees(after, CharsetStep(s, op).current)
  {
    if op.Wrote? {
      FramesAreUnderstood(op.frame);
    }
  }

  lemma {:induction false} SettingsAgree(log: seq<Op>)
    requires AllAllowed(log)
    ensures Agrees(SettingsAfter(log), Observe(START, log).charset.current)
  {
    if log != [] {
      SettingsAgree(log[..|log| - 1]);
      AgreesStep(SettingsAfter(log[..|log| - 1]), Observe(START, log[..|log| - 1]).charset, log[|log| - 1]);
    }
  }

  /** The two pairs the driver selects. */
  lemma PairsAreSet(settings: Settings, encoding: Encoding)
    requires Agrees(settings, CharsetFor(encoding))
    ensures SetFor(settings, encoding)
  {
    IraCoding();
    Ucs2Coding();
  }

  lemma IraCoding()
    ensures CodingOf(IRA.params) == Some(0)
  {
    IraEnds();
    CodedBy(IRA.params, '0');
  }

  lemma Ucs2Coding()
    ensures CodingOf(UCS2.params) == Some(8)
  {
    Ucs2Ends();
    CodedBy(UCS2.params, '8');
  }

  lemma IraEnds()
    ensures IRA.params == "17,167,0," + ['0']
  {
  }

  lemma Ucs2Ends()
    ensures UCS2.params == "17,167,0," + ['8']
  {
  }

  lemma CodedBy(params: string, digit: char)
    requires IsDigit(digit) && params == "17,167,0," + [digit]
    ensures CodingOf(params) == Some(digit as int - '0' as int)
  {
    CodingIs(params, [digit]);
    OneDigit(digit);
  }

  lemma OneDigit(digit: char)
    requires IsDigit(digit)
    ensures NumberIn([digit]) == Some(digit as int - '0' as int)
  {
    assert [digit][..0] == "" && DigitsValue("") == 0;
  }

  lemma CodingIs(params: string, last: string)
    requires |last| == 1 && last[0] != ',' && params == "17,167,0," + last
    ensures Fields(params) == ["17", "167", "0", last]
  {
    var second, third := "167,0," + last, "0," + last;
    IndexOfIs(params, ',', 2);
    assert params[..2] == "17" && params[3..] == second;
    IndexOfIs(second, ',', 3);
    assert second[..3] == "167" && second[4..] == third;
    IndexOfIs(third, ',', 1);
    assert third[..1] == "0" && third[2..] == last;
    IndexOfIs(last, ',', 1);
    assert Fields(last) == [last] && Fields(third) == ["0", last] && Fields(second) == ["167", "0", last];
  }

  /** At every header and body written, the modem is under the settings by which their
      text is understood. */
  lemma WrittenUnderSettings(log: seq<Op>, k: nat, encoding: Encoding)
    requires Clean(Observe(START, log)) && AllAllowed(log) && k < |log| && log[k].Wrote?
    requires log[k].frame.Header? && log[k].frame.encoding == encoding
    ensures SetFor(SettingsAfter(log[..k]), encoding)
  {
    WrittenInOrder(log, k);
    AllowedBefore(log[..k], log);
    SettingsAgree(log[..k]);
    PairsAreSet(SettingsAfter(log[..k]), encoding);
  }

  /** Likewise status queries go out under the plain character set. */
  lemma AskedUnderSettings(log: seq<Op>, k: nat)
    requires Clean(Observe(START, log)) && AllAllowed(log) && k < |log| && log[k].Wrote?
    requires log[k].frame.Command? && log[k].frame.text in STATUS_QUERIES
    ensures SettingsAfter(log[..k]).charset == "IRA"
  {
    WrittenInOrder(log, k);
    AllowedBefore(log[..k], log);
    SettingsAgree(log[..k]);
  }

  function AskedNext(asked: Option<nat>, op: Op): Option<nat> {
    if !op.Wrote? then asked
    else match Understood(Render(op.frame))
      case ReadStored(index) => Some(index)
      case _ => None
  }

  /** The index the last bytes written asked the modem to read, if they did. */
  function AskedFor(log: seq<Op>): Option<nat> {
    if log == [] then None else AskedNext(AskedFor(log[..|log| - 1]), log[|log| - 1])
  }

  lemma AskedStep(s: InboundState, asked: Option<nat>, op: Op)
    requires OpAllowed(op) && (s.phase.Reading? ==> asked == Some(s.phase.index))
    ensures var phase := InboundStep(s, op).phase; phase.Reading? ==> AskedNext(asked, op) == Some(phase.index)
  {
    if op.Wrote? {
      FramesAreUnderstood(op.frame);
    }
  }

  lemma {:induction false} ReadingIsAsked(log: seq<Op>)
    requires AllAllowed(log)
    ensures var phase := Observe(START, log).inbound.phase; phase.Reading? ==> AskedFor(log) == Some(phase.index)
  {
    if log != [] {
      var front, op := log[..|log| - 1], log[|log| - 1];
      ReadingIsAsked(front);
      AskedStep(Observe(START, front).inbound, AskedFor(front), op);
    }
  }

  /** The index that bytes ask the modem to delete; bytes that may have got through
      count. */
  function DeletedIndex(op: Op): Option<nat> {
    match op
    case Wrote(f) => DeletedBy(f)
    case WriteFailed(f) => DeletedBy(f)
    case _ => None
  }

  function DeletedBy(f: Frame): Option<nat> {
    match Understood(Render(f)) case DeleteStored(index) => Some(index) case _ => None
  }

  lemma DeletedIs(op: Op)
    requires OpAllowed(op)
    ensures DeletedIndex(op) == match op
                                case Wrote(DeleteMessage(index)) => Some(index)
                                case WriteFailed(DeleteMessage(index)) => Some(index)
                                case _ => None
  {
    if op.Wrote? || op.WriteFailed? {
      FramesAreUnderstood(op.frame);
    }
  }

  /** Whatever bytes are understood as a delete, they come after the message was read
      from that very index, as the modem understood it, and stored. */
  lemma DeletesAfterStoring(log: seq<Op>, k: nat, index: nat)
    requires Clean(Observe(START, log)) && AllAllowed(log) && k < |log| && log[k].Wrote?
    requires Understood(Render(log[k].frame)) == DeleteStored(index)
    ensures exists r: nat, t: nat, s: nat, message :: s < k && StoredBy(log, r, t, s, index, message)
    ensures Understood(Render(ReadMessage(index))) == ReadStored(index)
  {
    AllowedAt(log, k);
    DeletesAreDeletes(log[k].frame, index);
    DeletedOnlyOnceStored(log, k, index);
    FramesAreUnderstood(ReadMessage(index));
  }
}
