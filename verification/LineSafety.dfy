/** What a faultless line means about the trace itself: the order of writes, the
    character set in force, and what became of every message on the SIM. */
module LineSafety {
  import opened Text
  import opened Protocol
  import opened Cmgr
  import opened Frames
  import opened LineTrace

  /** The monitor before the `k`-th step. */
  ghost function MonitorAt(log: seq<Op>, k: nat): Monitor
    requires k <= |log|
  {
    Observe(START, log[..k])
  }

  lemma Advance(log: seq<Op>, k: nat)
    requires k < |log|
    ensures MonitorAt(log, k + 1) == Step(MonitorAt(log, k), log[k])
  {
    assert log[..k + 1] == log[..k] + [log[k]];
    ObserveSnoc(START, log[..k], log[k]);
  }

  lemma FaultsStay(m: Monitor, op: Op)
    ensures Clean(Step(m, op)) ==> Clean(m)
  {
  }

  /** A line without fault at the end never had one. */
  lemma {:induction false} CleanBefore(log: seq<Op>, k: nat)
    requires Clean(Observe(START, log)) && k <= |log|
    ensures Clean(MonitorAt(log, k))
    decreases |log| - k
  {
    if k == |log| {
      assert log[..k] == log;
    } else {
      CleanBefore(log, k + 1);
      Advance(log, k);
      FaultsStay(MonitorAt(log, k), log[k]);
    }
  }

  /** The state a frame needs on the line. */
  predicate Ready(m: Monitor, f: Frame) {
    && (IsCommand(f) || f.Header? ==> m.line.mode == CommandMode)
    && (f.Body? ==> m.line.mode == TextEntry)
    && (f.Header? ==> m.charset.current == CharsetFor(f.encoding))
    && (f.Command? && f.text in STATUS_QUERIES ==> m.charset.current == IRA)
    && (f.DeleteMessage? ==> m.inbound.phase.Persisted? && m.inbound.phase.index == f.index)
  }

  lemma CleanWrite(m: Monitor, f: Frame)
    requires Clean(Step(m, Wrote(f)))
    ensures Ready(m, f)
  {
  }

  /** Whatever is written on a faultless line is written in the state it needs. */
  lemma WrittenInOrder(log: seq<Op>, k: nat)
    requires Clean(Observe(START, log)) && k < |log| && log[k].Wrote?
    ensures Ready(MonitorAt(log, k), log[k].frame)
  {
    CleanBefore(log, k + 1);
    Advance(log, k);
    CleanWrite(MonitorAt(log, k), log[k].frame);
  }

  // Text entry

  predicate EscapedAt(log: seq<Op>, l: nat) {
    l < |log| && log[l] == Wrote(Escape)
  }

  predicate AnsweredAt(log: seq<Op>, b: nat, l: nat) {
    b < l < |log| && log[b].Wrote? && log[b].frame.Body? && log[l].Received? && IsTerminator(log[l].line)
  }

  /** After the header at `j`: an ESC, or a body and after it a result. */
  ghost predicate Released(log: seq<Op>, j: nat, k: nat) {
    || (exists l :: j < l < k && EscapedAt(log, l))
    || (exists b, l :: j < b < l < k && AnsweredAt(log, b, l))
  }

  /** From the header at `j` on, the line stays in the submission until released. */
  ghost predicate HeldSince(log: seq<Op>, j: nat, k: nat)
    requires k <= |log|
  {
    || Released(log, j, k)
    || MonitorAt(log, k).line.mode in {AwaitingPrompt, TextEntry, Uncertain}
    || (MonitorAt(log, k).line.mode == Submitted
        && exists b :: j < b < k <= |log| && log[b].Wrote? && log[b].frame.Body?)
  }

  lemma HeldStep(log: seq<Op>, j: nat, k: nat)
    requires j < k < |log| && HeldSince(log, j, k)
    ensures HeldSince(log, j, k + 1)
  {
    Advance(log, k);
    if !Released(log, j, k) {
      if log[k] == Wrote(Escape) {
        assert EscapedAt(log, k);
      } else if log[k].Received? && IsTerminator(log[k].line) && MonitorAt(log, k).line.mode == Submitted {
        var b :| j < b < k && log[b].Wrote? && log[b].frame.Body?;
        assert AnsweredAt(log, b, k);
      }
    }
  }

  lemma {:induction false} HeldUntilReleased(log: seq<Op>, j: nat, k: nat)
    requires j < k <= |log| && log[j].Wrote? && log[j].frame.Header?
    ensures HeldSince(log, j, k)
    decreases k
  {
    if k == j + 1 {
      Advance(log, j);
    } else {
      HeldUntilReleased(log, j, k - 1);
      HeldStep(log, j, k - 1);
    }
  }

  /** Between a header and the next header or command on the line, the submission
      is over: escaped, or answered after its body. No command is ever swallowed. */
  lemma NoCommandInTextEntry(log: seq<Op>, j: nat, k: nat)
    requires Clean(Observe(START, log)) && j < k < |log|
    requires log[j].Wrote? && log[j].frame.Header?
    requires log[k].Wrote? && (IsCommand(log[k].frame) || log[k].frame.Header?)
    ensures Released(log, j, k)
  {
    HeldUntilReleased(log, j, k);
    WrittenInOrder(log, k);
  }

  // Reconnecting

  ghost predicate Uncertainty(log: seq<Op>, j: nat, k: nat)
    requires k <= |log|
  {
    || (exists l :: j < l < k && EscapedAt(log, l))
    || MonitorAt(log, k).line.mode == Uncertain
  }

  lemma UncertainStep(log: seq<Op>, j: nat, k: nat)
    requires j < k < |log| && log[k] != Wrote(Escape)
    requires MonitorAt(log, k).line.mode == Uncertain && !(log[k].Wrote? && log[k].frame.Header?)
              && !(log[k].Wrote? && log[k].frame.Body?)
    ensures MonitorAt(log, k + 1).line.mode == Uncertain
  {
    Advance(log, k);
  }

  lemma {:induction false} UncertainUntilEscape(log: seq<Op>, j: nat, k: nat)
    requires Clean(Observe(START, log)) && j < k <= |log| && log[j] == Opened
    ensures Uncertainty(log, j, k)
    decreases k
  {
    if k == j + 1 {
      Advance(log, j);
    } else {
      UncertainUntilEscape(log, j, k - 1);
      if MonitorAt(log, k - 1).line.mode == Uncertain {
        if log[k - 1] == Wrote(Escape) {
          assert EscapedAt(log, k - 1);
        } else {
          if log[k - 1].Wrote? {
            WrittenInOrder(log, k - 1);
          }
          UncertainStep(log, j, k - 1);
        }
      }
    }
  }

  /** On a new connection an ESC goes out before the first command or header. */
  lemma ReconnectsBeginWithEscape(log: seq<Op>, j: nat, k: nat)
    requires Clean(Observe(START, log)) && j < k < |log| && log[j] == Opened
    requires log[k].Wrote? && (IsCommand(log[k].frame) || log[k].frame.Header?)
    ensures exists l :: j < l < k && EscapedAt(log, l)
  {
    UncertainUntilEscape(log, j, k);
    WrittenInOrder(log, k);
  }

  // Character sets

  /** The character set selected at `j` is the last one before `k` on the connection. */
  ghost predicate NameInForce(log: seq<Op>, j: nat, k: nat, name: string) {
    && j < k <= |log| && log[j] == Wrote(SelectCharset(name))
    && forall l :: j < l < k ==> log[l] != Opened && !(log[l].Wrote? && log[l].frame.SelectCharset?)
  }

  ghost predicate ParamsInForce(log: seq<Op>, j: nat, k: nat, params: string) {
    && j < k <= |log| && log[j] == Wrote(SetParameters(params))
    && forall l :: j < l < k ==> log[l] != Opened && !(log[l].Wrote? && log[l].frame.SetParameters?)
  }

  ghost function NameAt(log: seq<Op>, k: nat): string
    requires k <= |log|
  {
    MonitorAt(log, k).charset.current.name
  }

  ghost function ParamsAt(log: seq<Op>, k: nat): string
    requires k <= |log|
  {
    MonitorAt(log, k).charset.current.params
  }

  lemma SettingStep(log: seq<Op>, k: nat)
    requires k < |log|
    ensures NameAt(log, k + 1) == match log[k]
                                  case Opened => ""
                                  case Wrote(SelectCharset(name)) => name
                                  case _ => NameAt(log, k)
    ensures ParamsAt(log, k + 1) == match log[k]
                                    case Opened => ""
                                    case Wrote(SetParameters(params)) => params
                                    case _ => ParamsAt(log, k)
  {
    Advance(log, k);
  }

  ghost predicate NameShown(log: seq<Op>, k: nat, name: string) {
    name != "" ==> exists j: nat :: NameInForce(log, j, k, name)
  }

  ghost predicate ParamsShown(log: seq<Op>, k: nat, params: string) {
    params != "" ==> exists j: nat :: ParamsInForce(log, j, k, params)
  }

  lemma NameFollows(log: seq<Op>, k: nat, next: nat, before: string, after: string)
    requires k < |log| && next == k + 1 && NameShown(log, k, before)
    requires after == match log[k] case Opened => "" case Wrote(SelectCharset(name)) => name case _ => before
    ensures NameShown(log, next, after)
  {
    if log[k].Wrote? && log[k].frame.SelectCharset? {
      assert NameInForce(log, k, next, after);
    } else if log[k] != Opened && after != "" {
      var j: nat :| NameInForce(log, j, k, before);
      assert NameInForce(log, j, next, after);
    }
  }

  lemma {:induction false} NameTraced(log: seq<Op>, k: nat)
    requires k <= |log|
    ensures NameShown(log, k, NameAt(log, k))
  {
    if k > 0 {
      SettingStep(log, k - 1);
      NameTraced(log, k - 1);
      NameFollows(log, k - 1, k, NameAt(log, k - 1), NameAt(log, k));
    }
  }

  lemma ParamsFollow(log: seq<Op>, k: nat, next: nat, before: string, after: string)
    requires k < |log| && next == k + 1 && ParamsShown(log, k, before)
    requires after == match log[k] case Opened => "" case Wrote(SetParameters(params)) => params case _ => before
    ensures ParamsShown(log, next, after)
  {
    if log[k].Wrote? && log[k].frame.SetParameters? {
      assert ParamsInForce(log, k, next, after);
    } else if log[k] != Opened && after != "" {
      var j: nat :| ParamsInForce(log, j, k, before);
      assert ParamsInForce(log, j, next, after);
    }
  }

  lemma {:induction false} ParamsTraced(log: seq<Op>, k: nat)
    requires k <= |log|
    ensures ParamsShown(log, k, ParamsAt(log, k))
  {
    if k > 0 {
      SettingStep(log, k - 1);
      ParamsTraced(log, k - 1);
      ParamsFollow(log, k - 1, k, ParamsAt(log, k - 1), ParamsAt(log, k));
    }
  }

  /** Every submission goes out under the pair of settings of its encoding, every
      status query under IRA: the latest written on that connection. */
  lemma UnderItsCharset(log: seq<Op>, k: nat, charset: Charset)
    requires Clean(Observe(START, log)) && k < |log| && log[k].Wrote?
    requires || (log[k].frame.Header? && charset == CharsetFor(log[k].frame.encoding))
             || (log[k].frame.Command? && log[k].frame.text in STATUS_QUERIES && charset == IRA)
    ensures exists i :: NameInForce(log, i, k, charset.name)
    ensures exists i :: ParamsInForce(log, i, k, charset.params)
  {
    WrittenInOrder(log, k);
    NameTraced(log, k);
    ParamsTraced(log, k);
  }

  // Deletions

  /** The lines received in a stretch of the trace. */
  function Heard(log: seq<Op>): seq<string> {
    if log == [] then []
    else Heard(log[..|log| - 1]) + if log[|log| - 1].Received? then [log[|log| - 1].line] else []
  }

  lemma HeardMore(log: seq<Op>, r: nat)
    requires r < |log|
    ensures forall op :: Heard((log + [op])[r + 1..]) == Heard(log[r + 1..]) + if op.Received? then [op.line] else []
  {
    forall op
      ensures Heard((log + [op])[r + 1..]) == Heard(log[r + 1..]) + if op.Received? then [op.line] else []
    {
      assert (log + [op])[r + 1..] == log[r + 1..] + [op];
      assert (log[r + 1..] + [op])[..|log[r + 1..]|] == log[r + 1..];
    }
  }

  /** The read of `index` at `r` was answered with `OK` at `t`, and the lines between
      are the message. */
  ghost predicate FetchedBy(log: seq<Op>, r: nat, t: nat, index: nat, message: ParsedInbound) {
    && r < t < |log| && log[r] == Wrote(ReadMessage(index))
    && log[t].Received? && ClassifyLine(log[t].line) == Terminator(Ok)
    && Cmgr.ReadMessage(Heard(log[r + 1..t + 1])) == Some(message)
  }

  ghost predicate StoredBy(log: seq<Op>, r: nat, t: nat, s: nat, index: nat, message: ParsedInbound) {
    FetchedBy(log, r, t, index, message) && t < s < |log| && log[s] == Stored(message)
  }

  ghost predicate ReadSince(log: seq<Op>, r: nat, index: nat, lines: seq<string>) {
    r < |log| && log[r] == Wrote(ReadMessage(index)) && Heard(log[r + 1..]) == lines
  }

  ghost predicate Evidenced(log: seq<Op>, phase: Phase) {
    match phase
    case Free => true
    case Reading(index, lines) => exists r :: ReadSince(log, r, index, lines)
    case Fetched(index, message) => exists r, t :: FetchedBy(log, r, t, index, message)
    case Persisted(index, message) => exists r, t, s :: StoredBy(log, r, t, s, index, message)
  }

  lemma FetchedKept(log: seq<Op>, op: Op, r: nat, t: nat, index: nat, message: ParsedInbound)
    requires FetchedBy(log, r, t, index, message)
    ensures FetchedBy(log + [op], r, t, index, message)
  {
    assert (log + [op])[r + 1..t + 1] == log[r + 1..t + 1];
  }

  lemma EvidenceKept(log: seq<Op>, op: Op, phase: Phase)
    requires Evidenced(log, phase) && !phase.Reading?
    ensures Evidenced(log + [op], phase)
  {
    match phase
    case Free =>
    case Fetched(index, message) =>
      var r, t :| FetchedBy(log, r, t, index, message);
      FetchedKept(log, op, r, t, index, message);
    case Persisted(index, message) =>
      var r, t, s :| StoredBy(log, r, t, s, index, message);
      FetchedKept(log, op, r, t, index, message);
      assert StoredBy(log + [op], r, t, s, index, message);
  }

  lemma ReadingStep(log: seq<Op>, op: Op, index: nat, lines: seq<string>)
    requires Evidenced(log, Reading(index, lines))
    ensures op.Received? ==> Evidenced(log + [op], PhaseRead(Reading(index, lines), op.line))
    ensures !op.Received? ==> Evidenced(log + [op], Reading(index, lines))
  {
    var r :| ReadSince(log, r, index, lines);
    HeardMore(log, r);
    if op.Received? {
      if !IsTerminator(op.line) {
        assert ReadSince(log + [op], r, index, lines + [op.line]);
      } else if ClassifyLine(op.line) == Terminator(Ok) {
        var all := log + [op];
        assert all[r + 1..|log| + 1] == all[r + 1..];
        var parsed := Cmgr.ReadMessage(lines + [op.line]);
        if parsed.Some? {
          assert FetchedBy(all, r, |log|, index, parsed.value);
        }
      }
    } else {
      assert ReadSince(log + [op], r, index, lines);
    }
  }

  lemma FetchBegins(log: seq<Op>, index: nat)
    ensures Evidenced(log + [Wrote(ReadMessage(index))], Reading(index, []))
  {
    var all := log + [Wrote(ReadMessage(index))];
    assert all[|log| + 1..] == [];
    assert ReadSince(all, |log|, index, []);
  }

  lemma StoreEvidenced(log: seq<Op>, index: nat, message: ParsedInbound)
    requires Evidenced(log, Fetched(index, message))
    ensures Evidenced(log + [Stored(message)], Persisted(index, message))
  {
    var r, t :| FetchedBy(log, r, t, index, message);
    FetchedKept(log, Stored(message), r, t, index, message);
    assert StoredBy(log + [Stored(message)], r, t, |log|, index, message);
  }

  /** How one phase follows another. */
  predicate Follows(phase: Phase, op: Op, next: Phase) {
    || next == Free || next == phase
    || (op.Received? && next == PhaseRead(phase, op.line))
    || (op.Wrote? && op.frame.ReadMessage? && next == Reading(op.frame.index, []))
    || (op.Stored? && phase.Fetched? && phase.message == op.message && next == Persisted(phase.index, op.message))
  }

  lemma PhaseFollows(s: InboundState, op: Op)
    ensures Follows(s.phase, op, InboundStep(s, op).phase)
    ensures op.Received? ==> InboundStep(s, op).phase == PhaseRead(s.phase, op.line)
  {
  }

  lemma EvidenceStep(log: seq<Op>, op: Op, phase: Phase, next: Phase)
    requires Evidenced(log, phase) && Follows(phase, op, next)
    requires op.Received? ==> next == PhaseRead(phase, op.line)
    ensures Evidenced(log + [op], next)
  {
    if next == Free {
    } else if op.Received? || next == phase {
      OtherwiseKept(log, op, phase);
    } else if op.Wrote? {
      FetchBegins(log, op.frame.index);
    } else {
      StoreEvidenced(log, phase.index, op.message);
    }
  }

  lemma OtherwiseKept(log: seq<Op>, op: Op, phase: Phase)
    requires Evidenced(log, phase)
    ensures op.Received? ==> Evidenced(log + [op], PhaseRead(phase, op.line))
    ensures !op.Received? ==> Evidenced(log + [op], phase)
  {
    if phase.Reading? {
      ReadingStep(log, op, phase.index, phase.lines);
    } else {
      EvidenceKept(log, op, phase);
    }
  }

  lemma {:induction false} PhaseTraced(log: seq<Op>)
    ensures Evidenced(log, Observe(START, log).inbound.phase)
  {
    if log != [] {
      var front, op := log[..|log| - 1], log[|log| - 1];
      PhaseTraced(front);
      PhaseFollows(Observe(START, front).inbound, op);
      EvidenceStep(front, op, Observe(START, front).inbound.phase, Observe(START, log).inbound.phase);
      assert front + [op] == log;
    }
  }

  /** `AT+CMGD=i` is written only after some `AT+CMGR=i` was answered and the very
      message in the answer went into the database. */
  lemma DeletedOnlyOnceStored(log: seq<Op>, k: nat, index: nat)
    requires Clean(Observe(START, log)) && k < |log| && log[k] == Wrote(DeleteMessage(index))
    ensures exists r: nat, t: nat, s: nat, message :: s < k && StoredBy(log, r, t, s, index, message)
  {
    WrittenInOrder(log, k);
    PhaseTraced(log[..k]);
    StoredBefore(log, k, index, MonitorAt(log, k).inbound.phase.message);
  }

  lemma StoredInPrefix(log: seq<Op>, k: nat, r: nat, t: nat, s: nat, index: nat, message: ParsedInbound)
    requires k <= |log| && StoredBy(log[..k], r, t, s, index, message)
    ensures s < k && StoredBy(log, r, t, s, index, message)
  {
    assert log[..k][r + 1..t + 1] == log[r + 1..t + 1];
  }

  lemma StoredBefore(log: seq<Op>, k: nat, index: nat, message: ParsedInbound)
    requires k <= |log| && Evidenced(log[..k], Persisted(index, message))
    ensures exists r: nat, t: nat, s: nat :: s < k && StoredBy(log, r, t, s, index, message)
  {
    var r: nat, t: nat, s: nat :| StoredBy(log[..k], r, t, s, index, message);
    StoredInPrefix(log, k, r, t, s, index, message);
  }
}
