/** Where on the trace a submission took place: its header, the prompt, its body and
    the result, one after another and nothing else written between; or the deadline
    and the ESC that ended it. */
module Submissions {
  import opened Text
  import opened Segmentation
  import opened Protocol
  import opened Frames
  import opened LineTrace
  import opened LineSafety

  datatype Places = Places(header: nat, prompt: Option<nat>, body: Option<nat>, result: Option<nat>,
                           escape: Option<nat>)

  function PlacesStep(p: Places, n: nat, op: Op): Places {
    if p.escape.Some? then p
    else match op
      case Wrote(Body(_, _)) => if p.body.None? then p.(body := Some(n)) else p
      case Wrote(Escape) => if p.result.None? then p.(escape := Some(n)) else p
      case Received(line) =>
        if p.body.None? && p.prompt.None? && IsPrompt(line) then p.(prompt := Some(n))
        else if p.body.Some? && p.result.None? && IsTerminator(line) then p.(result := Some(n))
        else p
      case _ => p
  }

  function NextPlaces(places: seq<Places>, n: nat, op: Op): seq<Places> {
    if op.Wrote? && op.frame.Header? then places + [Places(n, None, None, None, None)]
    else if places == [] then []
    else places[..|places| - 1] + [PlacesStep(places[|places| - 1], n, op)]
  }

  /** The places of every submission on a trace, in order of their headers. */
  function PlacesOf(log: seq<Op>): seq<Places> {
    if log == [] then [] else NextPlaces(PlacesOf(log[..|log| - 1]), |log| - 1, log[|log| - 1])
  }

  // In order

  predicate Below(p: Places, n: nat) {
    && p.header < n && (p.prompt.Some? ==> p.prompt.value < n)
    && (p.body.Some? ==> p.body.value < n) && (p.result.Some? ==> p.result.value < n)
    && (p.escape.Some? ==> p.escape.value < n)
  }

  predicate InSequence(places: seq<Places>) {
    forall i, j :: 0 <= i < j < |places| ==> Below(places[i], places[j].header)
  }

  predicate AllBelow(places: seq<Places>, n: nat) {
    forall i :: 0 <= i < |places| ==> Below(places[i], n)
  }

  lemma NextInSequence(places: seq<Places>, n: nat, op: Op)
    requires InSequence(places) && AllBelow(places, n)
    ensures InSequence(NextPlaces(places, n, op)) && AllBelow(NextPlaces(places, n, op), n + 1)
  {
  }

  /** Each submission is over before the next one's header. */
  lemma {:induction false} PlacesInSequence(log: seq<Op>)
    ensures InSequence(PlacesOf(log)) && AllBelow(PlacesOf(log), |log|)
  {
    if log != [] {
      PlacesInSequence(log[..|log| - 1]);
      NextInSequence(PlacesOf(log[..|log| - 1]), |log| - 1, log[|log| - 1]);
    }
  }

  lemma NextBeyond(places: seq<Places>, n: nat, op: Op, before: nat, from: nat)
    requires before <= |places| && from <= n && forall i :: before <= i < |places| ==> places[i].header >= from
    ensures var places' := NextPlaces(places, n, op);
              before <= |places'| && forall i :: before <= i < |places'| ==> places'[i].header >= from
  {
  }

  /** The submissions of a longer trace beyond those of a shorter are in the new part. */
  lemma {:induction false} PlacesBeyond(log: seq<Op>, longer: seq<Op>)
    requires log <= longer
    ensures |PlacesOf(log)| <= |PlacesOf(longer)|
    ensures forall i :: |PlacesOf(log)| <= i < |PlacesOf(longer)| ==> PlacesOf(longer)[i].header >= |log|
    decreases |longer|
  {
    if longer != log {
      var n := |longer| - 1;
      PlacesBeyond(log, longer[..n]);
      NextBeyond(PlacesOf(longer[..n]), n, longer[n], |PlacesOf(log)|, |log|);
    }
  }

  // What stands there

  /** Nothing goes out between two steps. */
  predicate NoWrites(log: seq<Op>, from: int, to: int) {
    forall l :: 0 <= from <= l < to <= |log| ==> !log[l].Wrote?
  }

  /** Header, prompt and body stand where they should. */
  predicate BodyStands(log: seq<Op>, h: nat, p: nat, b: nat, to: string, text: string, encoding: Encoding) {
    && h < p < b < |log|
    && log[h] == Wrote(Header(to, encoding)) && log[p].Received? && IsPrompt(log[p].line)
    && log[b] == Wrote(Body(text, encoding)) && NoWrites(log, h + 1, b)
  }

  /** A submission of `text` to `to` was made here, and what was heard after its body,
      up to a result, is `replies`. */
  ghost predicate ResultStands(log: seq<Op>, places: Places, to: string, text: string, encoding: Encoding,
                               replies: seq<string>) {
    && places.prompt.Some? && places.body.Some? && places.result.Some?
    && var h, p, b, t := places.header, places.prompt.value, places.body.value, places.result.value;
    && BodyStands(log, h, p, b, to, text, encoding)
    && b < t < |log| && NoWrites(log, b + 1, t) && log[t].Received? && IsTerminator(log[t].line)
    && Heard(log[b + 1..t + 1]) == replies
  }

  /** Its result is an `OK`, and the replies hold its reference. */
  ghost predicate SubmittedAt(log: seq<Op>, places: Places, to: string, text: string, encoding: Encoding,
                              replies: seq<string>) {
    && ResultStands(log, places, to, text, encoding, replies)
    && ClassifyLine(log[places.result.value].line) == Terminator(Ok) && SendOutcomeOf(replies).Sent?
  }

  /** No prompt arrives between two steps. */
  predicate NoPrompts(log: seq<Op>, from: int, to: int) {
    forall l :: 0 <= from <= l < to <= |log| && log[l].Received? ==> !IsPrompt(log[l].line)
  }

  /** The wait from `from` on has just run into the deadline. */
  predicate LapsedAt(log: seq<Op>, from: nat, n: nat) {
    from < n - 1 < |log| && log[n - 1] == Silence
  }

  /** A submission whose prompt is awaited, or has come. */
  predicate Prompted(log: seq<Op>, m: Monitor, p: Places, a: Attempt) {
    && p.header < |log| && p.body.None? && p.result.None? && p.escape.None?
    && log[p.header] == Wrote(Header(a.to, a.encoding)) && NoWrites(log, p.header + 1, |log|)
    && m.charset.current == CharsetFor(a.encoding)
    && match m.line.mode
       case AwaitingPrompt =>
         && p.prompt.None? && !a.wait.PromptSeen? && NoPrompts(log, p.header + 1, |log|)
         && (a.wait.Lapsed? ==> LapsedAt(log, p.header, |log|))
       case TextEntry =>
         && p.prompt.Some? && p.header < p.prompt.value < |log| && a.wait.PromptSeen?
         && log[p.prompt.value].Received? && IsPrompt(log[p.prompt.value].line)
       case _ => false
  }

  /** A submission whose result is awaited. */
  ghost predicate Replying(log: seq<Op>, m: Monitor, p: Places, a: Attempt) {
    && p.prompt.Some? && p.body.Some? && p.result.None? && p.escape.None? && a.body.Some? && m.line.mode == Submitted
    && BodyStands(log, p.header, p.prompt.value, p.body.value, a.to, a.body.value, a.encoding)
    && NoWrites(log, p.body.value + 1, |log|) && AllData(a.replies) && Heard(log[p.body.value + 1..]) == a.replies
    && (a.wait.Lapsed? ==> LapsedAt(log, p.body.value, |log|))
  }

  /** No prompt came: the ESC follows the deadline, and nothing else was written. */
  predicate UnpromptedAt(log: seq<Op>, h: nat, e: nat, to: string, encoding: Encoding) {
    && h < e < |log| && log[h] == Wrote(Header(to, encoding)) && NoWrites(log, h + 1, e) && NoPrompts(log, h + 1, e)
    && LapsedAt(log, h, e) && log[e] == Wrote(Escape)
  }

  /** No result came: the body stands, and the ESC follows the deadline. */
  ghost predicate UnansweredAt(log: seq<Op>, p: Places, b: nat, e: nat, a: Attempt) {
    && p.prompt.Some? && a.body.Some? && BodyStands(log, p.header, p.prompt.value, b, a.to, a.body.value, a.encoding)
    && b < e < |log| && NoWrites(log, b + 1, e) && Heard(log[b + 1..e]) == a.replies && AllData(a.replies)
    && LapsedAt(log, b, e) && log[e] == Wrote(Escape)
  }

  /** The ESC came when a deadline had passed: that of the prompt, or that of the result. */
  ghost predicate TimedOutAt(log: seq<Op>, p: Places, a: Attempt) {
    && p.escape.Some? && p.result.None?
    && if a.body.None?
        then p.prompt.None? && p.body.None? && UnpromptedAt(log, p.header, p.escape.value, a.to, a.encoding)
       else p.body.Some? && UnansweredAt(log, p, p.body.value, p.escape.value, a)
  }

  ghost predicate Placed(log: seq<Op>, m: Monitor, p: Places, a: Attempt) {
    match a.verdict
    case Confirmed => a.body.Some? && SubmittedAt(log, p, a.to, a.body.value, a.encoding, a.replies)
    case Rejected =>
      a.body.Some? && ResultStands(log, p, a.to, a.body.value, a.encoding, a.replies) && !SendOutcomeOf(a.replies).Sent?
    case TimedOut => TimedOutAt(log, p, a)
    case Open => if a.body.None? then Prompted(log, m, p, a) else Replying(log, m, p, a)
    case _ => true
  }

  lemma StandsOnward(log: seq<Op>, op: Op, h: nat, p: nat, b: nat, to: string, text: string, encoding: Encoding)
    requires BodyStands(log, h, p, b, to, text, encoding)
    ensures BodyStands(log + [op], h, p, b, to, text, encoding)
  {
  }

  lemma ResultOnward(log: seq<Op>, op: Op, p: Places, to: string, text: string, encoding: Encoding,
                     replies: seq<string>)
    requires ResultStands(log, p, to, text, encoding, replies)
    ensures ResultStands(log + [op], p, to, text, encoding, replies)
    ensures (log + [op])[p.result.value] == log[p.result.value]
    ensures forall n :: PlacesStep(p, n, op) == p
  {
    StandsOnward(log, op, p.header, p.prompt.value, p.body.value, to, text, encoding);
    assert (log + [op])[p.body.value + 1..p.result.value + 1] == log[p.body.value + 1..p.result.value + 1];
  }

  lemma TimedOutOnward(log: seq<Op>, op: Op, p: Places, a: Attempt)
    requires TimedOutAt(log, p, a)
    ensures TimedOutAt(log + [op], p, a) && forall n :: PlacesStep(p, n, op) == p
  {
    if a.body.Some? {
      var b, e := p.body.value, p.escape.value;
      StandsOnward(log, op, p.header, p.prompt.value, b, a.to, a.body.value, a.encoding);
      assert (log + [op])[b + 1..e] == log[b + 1..e];
    }
  }

  lemma HeaderPlaced(log: seq<Op>, m: Monitor, to: string, encoding: Encoding)
    requires Clean(Step(m, Wrote(Header(to, encoding))))
    ensures Placed(log + [Wrote(Header(to, encoding))], Step(m, Wrote(Header(to, encoding))),
              Places(|log|, None, None, None, None),
                   Attempt(to, encoding, None, [], Open, Waiting))
  {
  }

  lemma PromptPlaced(log: seq<Op>, m: Monitor, p: Places, a: Attempt, op: Op)
    requires Prompted(log, m, p, a) && a.body.None? && a.verdict == Open && !op.Wrote?
    ensures Placed(log + [op], Step(m, op), PlacesStep(p, |log|, op), AttemptStep(a, op))
  {
    var all := log + [op];
    assert forall i :: 0 <= i < |log| ==> all[i] == log[i];
  }

  lemma CharsetsDiffer(a: Encoding, b: Encoding)
    ensures CharsetFor(a) == CharsetFor(b) ==> a == b
  {
    assert IRA.params[9] == '0' && UCS2.params[9] == '8';
  }

  lemma BodyPlaced(log: seq<Op>, m: Monitor, p: Places, a: Attempt, f: Frame)
    requires Prompted(log, m, p, a) && a.body.None? && a.verdict == Open && a.replies == [] && !f.Header?
              && Clean(Step(m, Wrote(f)))
    ensures Placed(log + [Wrote(f)], Step(m, Wrote(f)), PlacesStep(p, |log|, Wrote(f)), AttemptStep(a, Wrote(f)))
  {
    var all := log + [Wrote(f)];
    assert forall i :: 0 <= i < |log| ==> all[i] == log[i];
    if f.Body? {
      CharsetsDiffer(a.encoding, f.encoding);
      assert all[|log| + 1..] == [];
      assert BodyStands(all, p.header, p.prompt.value, |log|, a.to, f.text, a.encoding);
    } else if f.Escape? && a.wait.Lapsed? {
      assert UnpromptedAt(all, p.header, |log|, a.to, a.encoding);
    }
  }

  /** An ESC while the result is awaited. */
  lemma EscapePlaced(log: seq<Op>, m: Monitor, p: Places, a: Attempt)
    requires Replying(log, m, p, a) && a.verdict == Open
    ensures Placed(log + [Wrote(Escape)], Step(m, Wrote(Escape)), PlacesStep(p, |log|, Wrote(Escape)),
              AttemptStep(a, Wrote(Escape)))
  {
    if a.wait.Lapsed? {
      var all, b := log + [Wrote(Escape)], p.body.value;
      assert forall i :: 0 <= i < |log| ==> all[i] == log[i];
      StandsOnward(log, Wrote(Escape), p.header, p.prompt.value, b, a.to, a.body.value, a.encoding);
      assert all[b + 1..|log|] == log[b + 1..];
      assert UnansweredAt(all, p, b, |log|, AttemptStep(a, Wrote(Escape)));
    }
  }

  lemma FinalReply(lines: seq<string>, line: string)
    requires AllData(lines) && IsTerminator(line) && SendOutcomeOf(lines + [line]).Sent?
    ensures ClassifyLine(line) == Terminator(Ok)
  {
    SendOutcomeMeaning(lines + [line]);
  }

  lemma LastReply(log: seq<Op>, m: Monitor, p: Places, a: Attempt, line: string)
    requires Replying(log, m, p, a) && IsTerminator(line)
    ensures var all, places, replies := log + [Received(line)], p.(result := Some(|log|)), a.replies + [line];
              && ResultStands(all, places, a.to, a.body.value, a.encoding, replies)
              && (SendOutcomeOf(replies).Sent? ==> SubmittedAt(all, places, a.to, a.body.value, a.encoding, replies))
  {
    var all := log + [Received(line)];
    assert forall i :: 0 <= i < |log| ==> all[i] == log[i];
    HeardMore(log, p.body.value);
    StandsOnward(log, Received(line), p.header, p.prompt.value, p.body.value, a.to, a.body.value, a.encoding);
    assert all[p.body.value + 1..|log| + 1] == all[p.body.value + 1..];
    if SendOutcomeOf(a.replies + [line]).Sent? {
      FinalReply(a.replies, line);
    }
  }

  lemma StillReplying(log: seq<Op>, m: Monitor, p: Places, a: Attempt, op: Op)
    requires Replying(log, m, p, a) && a.verdict == Open
    requires op.Silence? || op.Stored? || (op.Received? && !IsTerminator(op.line))
    ensures Replying(log + [op], Step(m, op), p, AttemptStep(a, op)) && AttemptStep(a, op).verdict == Open
    ensures PlacesStep(p, |log|, op) == p
  {
    StandsOnward(log, op, p.header, p.prompt.value, p.body.value, a.to, a.body.value, a.encoding);
    QuietOnward(log, op, p.body.value + 1);
    HeardMore(log, p.body.value);
    HeardAlike(log, op, p.body.value, a);
    assert (log + [op])[|log|] == op;
  }

  lemma QuietOnward(log: seq<Op>, op: Op, from: nat)
    requires NoWrites(log, from, |log|) && !op.Wrote?
    ensures NoWrites(log + [op], from, |log| + 1)
  {
  }

  lemma HeardAlike(log: seq<Op>, op: Op, b: nat, a: Attempt)
    requires b < |log| && a.body.Some? && Heard(log[b + 1..]) == a.replies && AllData(a.replies)
    requires op.Silence? || op.Stored? || (op.Received? && !IsTerminator(op.line))
    ensures Heard((log + [op])[b + 1..]) == AttemptStep(a, op).replies && AllData(AttemptStep(a, op).replies)
  {
    HeardMore(log, b);
    assert Heard(log[b + 1..]) + [] == Heard(log[b + 1..]);
  }

  lemma ReplyPlaced(log: seq<Op>, m: Monitor, p: Places, a: Attempt, op: Op)
    requires Replying(log, m, p, a) && a.verdict == Open && !(op.Wrote? && op.frame.Header?) && Clean(Step(m, op))
    ensures Placed(log + [op], Step(m, op), PlacesStep(p, |log|, op), AttemptStep(a, op))
  {
    if op.Received? && IsTerminator(op.line) {
      LastReply(log, m, p, a, op.line);
    } else if op == Wrote(Escape) {
      EscapePlaced(log, m, p, a);
    } else if op.Silence? || op.Stored? || op.Received? {
      StillReplying(log, m, p, a, op);
    }
  }

  // Every submission of a faultless line

  predicate FreshReplies(a: Attempt) {
    a.body.None? ==> a.replies == []
  }

  lemma NextPlaced(log: seq<Op>, m: Monitor, p: Places, a: Attempt, op: Op)
    requires Placed(log, m, p, a) && a.verdict == Open && FreshReplies(a) && !(op.Wrote? && op.frame.Header?)
              && Clean(Step(m, op))
    ensures Placed(log + [op], Step(m, op), PlacesStep(p, |log|, op), AttemptStep(a, op))
              && FreshReplies(AttemptStep(a, op))
  {
    if a.body.Some? {
      ReplyPlaced(log, m, p, a, op);
    } else if op.Wrote? {
      BodyPlaced(log, m, p, a, op.frame);
    } else {
      PromptPlaced(log, m, p, a, op);
    }
  }

  /** A submission that is over stays as it was. */
  lemma SettledPlaced(log: seq<Op>, m: Monitor, p: Places, a: Attempt, op: Op)
    requires Placed(log, m, p, a) && a.verdict != Open
    ensures Placed(log + [op], Step(m, op), p, a) && Placed(log + [op], Step(m, op), PlacesStep(p, |log|, op), a)
  {
    if a.verdict in {Confirmed, Rejected} {
      ResultOnward(log, op, p, a.to, a.body.value, a.encoding, a.replies);
    } else if a.verdict == TimedOut {
      TimedOutOnward(log, op, p, a);
    }
  }

  predicate OnlyLastOpen(sends: seq<Attempt>) {
    forall i :: 0 <= i < |sends| - 1 ==> sends[i].verdict != Open
  }

  ghost predicate AllPlaced(log: seq<Op>, m: Monitor, places: seq<Places>) {
    && |places| == |m.sends| && OnlyLastOpen(m.sends)
    && forall i :: 0 <= i < |places| ==> Placed(log, m, places[i], m.sends[i]) && FreshReplies(m.sends[i])
  }

  lemma HeaderAllPlaced(log: seq<Op>, m: Monitor, places: seq<Places>, op: Op)
    requires AllPlaced(log, m, places) && op.Wrote? && op.frame.Header? && Clean(Step(m, op))
    ensures AllPlaced(log + [op], Step(m, op), NextPlaces(places, |log|, op))
  {
    HeaderPlaced(log, m, op.frame.to, op.frame.encoding);
    forall i | 0 <= i < |places|
      ensures m.sends[i].verdict != Open && Placed(log + [op], Step(m, op), places[i], m.sends[i])
    {
      SettledPlaced(log, m, places[i], m.sends[i], op);
    }
  }

  /** The last submission and its places, one step on. */
  lemma LastPlaced(log: seq<Op>, m: Monitor, p: Places, a: Attempt, op: Op)
    requires Placed(log, m, p, a) && FreshReplies(a) && !(op.Wrote? && op.frame.Header?) && Clean(Step(m, op))
    ensures var a' := if a.verdict == Open then AttemptStep(a, op) else a;
              Placed(log + [op], Step(m, op), PlacesStep(p, |log|, op), a') && FreshReplies(a')
  {
    if a.verdict == Open {
      NextPlaced(log, m, p, a, op);
    } else {
      SettledPlaced(log, m, p, a, op);
    }
  }

  /** Submissions that are over, and their places. */
  ghost predicate SettledInPlace(log: seq<Op>, m: Monitor, sends: seq<Attempt>, places: seq<Places>) {
    && |places| == |sends|
    && forall i :: 0 <= i < |places| ==>
         Placed(log, m, places[i], sends[i]) && FreshReplies(sends[i]) && sends[i].verdict != Open
  }

  lemma StepAllPlaced(log: seq<Op>, m: Monitor, places: seq<Places>, op: Op)
    requires AllPlaced(log, m, places) && !(op.Wrote? && op.frame.Header?) && Clean(Step(m, op))
    ensures AllPlaced(log + [op], Step(m, op), NextPlaces(places, |log|, op))
  {
    if places != [] {
      var n := |places| - 1;
      var a := m.sends[n];
      var p', a' := PlacesStep(places[n], |log|, op), if a.verdict == Open then AttemptStep(a, op) else a;
      LastPlaced(log, m, places[n], a, op);
      LastSend(m.sends, op);
      EarlierPlaced(log, m, places, op);
      OneMoreInPlace(log + [op], Step(m, op), m.sends[..n], places[..n], a', p');
    }
  }

  lemma OneMoreInPlace(log: seq<Op>, m: Monitor, sends: seq<Attempt>, places: seq<Places>, a: Attempt, p: Places)
    requires m.sends == sends + [a] && SettledInPlace(log, m, sends, places) && Placed(log, m, p, a) && FreshReplies(a)
    ensures AllPlaced(log, m, places + [p])
  {
  }

  lemma EarlierPlaced(log: seq<Op>, m: Monitor, places: seq<Places>, op: Op)
    requires AllPlaced(log, m, places) && places != []
    ensures SettledInPlace(log + [op], Step(m, op), m.sends[..|places| - 1], places[..|places| - 1])
  {
    forall i | 0 <= i < |places| - 1
      ensures Placed(log + [op], Step(m, op), places[i], m.sends[i])
    {
      SettledPlaced(log, m, places[i], m.sends[i], op);
    }
  }

  lemma OneMorePlaced(log: seq<Op>, m: Monitor, places: seq<Places>, op: Op)
    requires AllPlaced(log, m, places) && Clean(Step(m, op))
    ensures AllPlaced(log + [op], Step(m, op), NextPlaces(places, |log|, op))
  {
    if op.Wrote? && op.frame.Header? {
      HeaderAllPlaced(log, m, places, op);
    } else {
      StepAllPlaced(log, m, places, op);
    }
  }

  // Headers and bodies, pair by pair

  predicate HeaderIs(op: Op) {
    op.Wrote? && op.frame.Header?
  }

  predicate BodyIs(op: Op) {
    op.Wrote? && op.frame.Body?
  }

  predicate PairedAt(log: seq<Op>, p: Places, a: Attempt) {
    && p.header < |log| && log[p.header] == Wrote(Header(a.to, a.encoding)) && p.body.Some? == a.body.Some?
    && (p.body.Some? ==> p.header < p.body.value < |log| && log[p.body.value] == Wrote(Body(a.body.value, a.encoding)))
  }

  ghost predicate HasHeader(places: seq<Places>, k: nat) {
    exists i :: 0 <= i < |places| && places[i].header == k
  }

  ghost predicate HasBody(places: seq<Places>, k: nat) {
    exists i :: 0 <= i < |places| && places[i].body == Some(k)
  }

  /** The header or body at `k`, if there is one, is some submission's. */
  ghost predicate Claimed(log: seq<Op>, places: seq<Places>, k: nat)
    requires k < |log|
  {
    (HeaderIs(log[k]) ==> HasHeader(places, k)) && (BodyIs(log[k]) ==> HasBody(places, k))
  }

  ghost predicate AllClaimed(log: seq<Op>, places: seq<Places>) {
    forall k: nat :: k < |log| ==> Claimed(log, places, k)
  }

  ghost predicate AllPaired(log: seq<Op>, sends: seq<Attempt>, places: seq<Places>) {
    |places| == |sends| && forall i :: 0 <= i < |places| ==> PairedAt(log, places[i], sends[i])
  }

  /** Each submission has its header, and its body if it got that far, at its own
      places, and no header or body stands anywhere else. */
  ghost predicate Paired(log: seq<Op>, sends: seq<Attempt>, places: seq<Places>) {
    AllPaired(log, sends, places) && AllClaimed(log, places)
  }

  lemma PairOnward(log: seq<Op>, op: Op, p: Places, a: Attempt)
    requires PairedAt(log, p, a)
    ensures PairedAt(log + [op], p, a)
  {
  }

  /** In text entry exactly one submission is open, and its body is still to come. */
  predicate Entering(m: Monitor) {
    m.line.mode in {AwaitingPrompt, TextEntry} ==> !Settled(m.sends) && m.sends[|m.sends| - 1].body.None?
  }

  lemma EnteringStep(m: Monitor, op: Op)
    requires Entering(m)
    ensures Entering(Step(m, op))
  {
  }

  predicate SamePlace(p: Places, q: Places) {
    q.header == p.header && (p.body.Some? ==> q.body == p.body)
  }

  lemma PlacesKept(places: seq<Places>, n: nat, op: Op)
    ensures var places' := NextPlaces(places, n, op);
              |places| <= |places'| && forall i :: 0 <= i < |places| ==> SamePlace(places[i], places'[i])
  {
  }

  lemma FoundAgain(places: seq<Places>, places': seq<Places>, k: nat)
    requires |places| <= |places'| && forall i :: 0 <= i < |places| ==> SamePlace(places[i], places'[i])
    ensures HasHeader(places, k) ==> HasHeader(places', k)
    ensures HasBody(places, k) ==> HasBody(places', k)
  {
    if HasHeader(places, k) {
      var i :| 0 <= i < |places| && places[i].header == k;
      assert SamePlace(places[i], places'[i]);
    }
    if HasBody(places, k) {
      var i :| 0 <= i < |places| && places[i].body == Some(k);
      assert SamePlace(places[i], places'[i]);
    }
  }

  lemma ClaimedOnward(log: seq<Op>, places: seq<Places>, op: Op)
    requires AllClaimed(log, places) && (BodyIs(op) ==> HasBody(NextPlaces(places, |log|, op), |log|))
    ensures AllClaimed(log + [op], NextPlaces(places, |log|, op))
  {
    var all, places' := log + [op], NextPlaces(places, |log|, op);
    PlacesKept(places, |log|, op);
    forall k: nat | k < |all|
      ensures Claimed(all, places', k)
    {
      if k < |log| {
        assert Claimed(log, places, k) && all[k] == log[k];
        FoundAgain(places, places', k);
      } else if HeaderIs(op) {
        assert places'[|places|].header == k;
      }
    }
  }

  lemma HeaderPaired(log: seq<Op>, m: Monitor, places: seq<Places>, op: Op)
    requires AllPaired(log, m.sends, places) && HeaderIs(op)
    ensures AllPaired(log + [op], Step(m, op).sends, NextPlaces(places, |log|, op))
  {
    EarlierPaired(log, m.sends, places, op);
  }

  /** The last submission's pair, one step on. */
  lemma LastPaired(log: seq<Op>, m: Monitor, p: Places, a: Attempt, op: Op)
    requires PairedAt(log, p, a) && Placed(log, m, p, a) && !HeaderIs(op) && Clean(Step(m, op))
    requires m.line.mode in {AwaitingPrompt, TextEntry} ==> a.verdict == Open && a.body.None?
    ensures PairedAt(log + [op], PlacesStep(p, |log|, op), if a.verdict == Open then AttemptStep(a, op) else a)
    ensures BodyIs(op) ==> PlacesStep(p, |log|, op).body == Some(|log|)
  {
    PairOnward(log, op, p, a);
    if BodyIs(op) {
      CharsetsDiffer(a.encoding, op.frame.encoding);
    }
  }

  lemma StepPaired(log: seq<Op>, m: Monitor, places: seq<Places>, op: Op)
    requires AllPaired(log, m.sends, places) && AllPlaced(log, m, places) && Entering(m) && !HeaderIs(op)
              && Clean(Step(m, op))
    ensures AllPaired(log + [op], Step(m, op).sends, NextPlaces(places, |log|, op))
    ensures BodyIs(op) ==> HasBody(NextPlaces(places, |log|, op), |log|)
  {
    if places != [] {
      var n := |places| - 1;
      var a := m.sends[n];
      var p', a' := PlacesStep(places[n], |log|, op), if a.verdict == Open then AttemptStep(a, op) else a;
      LastPaired(log, m, places[n], a, op);
      LastSend(m.sends, op);
      EarlierPaired(log, m.sends, places, op);
      OneMorePair(log + [op], m.sends[..n], places[..n], a', p');
      assert NextPlaces(places, |log|, op)[n] == p';
    }
  }

  lemma OneMorePair(log: seq<Op>, sends: seq<Attempt>, places: seq<Places>, a: Attempt, p: Places)
    requires AllPaired(log, sends, places) && PairedAt(log, p, a)
    ensures AllPaired(log, sends + [a], places + [p])
  {
  }

  lemma LastSend(sends: seq<Attempt>, op: Op)
    requires sends != [] && !HeaderIs(op)
    ensures var n, a := |sends| - 1, sends[|sends| - 1];
              SendStep(sends, op) == sends[..n] + [if a.verdict == Open then AttemptStep(a, op) else a]
  {
    assert sends[..|sends| - 1] + [sends[|sends| - 1]] == sends;
  }

  lemma EarlierPaired(log: seq<Op>, sends: seq<Attempt>, places: seq<Places>, op: Op)
    requires AllPaired(log, sends, places)
    ensures forall i :: 0 <= i < |places| ==> PairedAt(log + [op], places[i], sends[i])
  {
    forall i | 0 <= i < |places|
      ensures PairedAt(log + [op], places[i], sends[i])
    {
      PairOnward(log, op, places[i], sends[i]);
    }
  }

  lemma OneMorePaired(log: seq<Op>, m: Monitor, places: seq<Places>, op: Op)
    requires Paired(log, m.sends, places) && AllPlaced(log, m, places) && Entering(m) && Clean(Step(m, op))
    ensures Paired(log + [op], Step(m, op).sends, NextPlaces(places, |log|, op))
  {
    if HeaderIs(op) {
      HeaderPaired(log, m, places, op);
    } else {
      StepPaired(log, m, places, op);
    }
    ClaimedOnward(log, places, op);
  }

  // Every trace of a faultless line

  ghost predicate Traced(log: seq<Op>, m: Monitor, places: seq<Places>) {
    AllPlaced(log, m, places) && Paired(log, m.sends, places) && Entering(m)
  }

  lemma TracedStep(log: seq<Op>, m: Monitor, places: seq<Places>, op: Op)
    requires Traced(log, m, places) && Clean(Step(m, op))
    ensures Traced(log + [op], Step(m, op), NextPlaces(places, |log|, op))
  {
    OneMorePlaced(log, m, places, op);
    OneMorePaired(log, m, places, op);
    EnteringStep(m, op);
  }

  lemma {:induction false} EveryTrace(log: seq<Op>)
    requires Clean(Observe(START, log))
    ensures Traced(log, Observe(START, log), PlacesOf(log))
  {
    if log != [] {
      var front, op := log[..|log| - 1], log[|log| - 1];
      var m, places := Observe(START, front), PlacesOf(front);
      FaultsStay(m, op);
      EveryTrace(front);
      TracedStep(front, m, places, op);
      FrontAndLast(log);
    }
  }

  /** On a faultless line every confirmed submission has its header, prompt, body and
      `OK` at its own places in the trace, nothing else is written between, and what
      was heard after the body holds its reference. */
  lemma ConfirmedOnTheTrace(log: seq<Op>, i: nat)
    requires Clean(Observe(START, log)) && i < |Observe(START, log).sends|
    requires Observe(START, log).sends[i].verdict == Confirmed
    ensures InSequence(PlacesOf(log)) && |PlacesOf(log)| == |Observe(START, log).sends|
    ensures var a, p := Observe(START, log).sends[i], PlacesOf(log)[i];
              a.body.Some? && SubmittedAt(log, p, a.to, a.body.value, a.encoding, a.replies)
  {
    PlacesInSequence(log);
    EveryTrace(log);
  }

  /** A rejected submission was answered, and not with a reference and an `OK`; a
      timed-out one was escaped when its deadline had passed, with no prompt or
      else no result up to then. */
  lemma FailuresOnTheTrace(log: seq<Op>, i: nat)
    requires Clean(Observe(START, log)) && i < |Observe(START, log).sends|
    ensures |PlacesOf(log)| == |Observe(START, log).sends|
    ensures var a, p := Observe(START, log).sends[i], PlacesOf(log)[i];
              && (a.verdict == TimedOut ==> TimedOutAt(log, p, a))
              && (a.verdict == Rejected ==>
                    a.body.Some? && ResultStands(log, p, a.to, a.body.value, a.encoding, a.replies)
                        && !SendOutcomeOf(a.replies).Sent?)
  {
    EveryTrace(log);
  }

  /** On a faultless line the submissions observed are the headers and bodies
      written, pair by pair, all of them and in order. */
  lemma SubmissionsAreTheTrace(log: seq<Op>)
    requires Clean(Observe(START, log))
    ensures Paired(log, Observe(START, log).sends, PlacesOf(log)) && InSequence(PlacesOf(log))
  {
    PlacesInSequence(log);
    EveryTrace(log);
  }
}
