/** Sending a message (`modem/session.rs`): segments in order, each with retries,
    under the character set its encoding needs. */
module Sending {
  import opened Text
  import opened Segmentation
  import opened Protocol
  import opened Frames
  import opened LineTrace
  import opened SideTrace
  import opened Readiness
  import opened Transport
  import opened Models

  datatype SendError = NoError | NotDeliverable | CannotSegment(required: nat) | NoAnswer | AttemptsExhausted

  datatype SendResult = SendResult(status: MessageStatus, reference: Option<nat>, errorCode: Option<nat>,
                                   error: SendError)

  /** `io::Result`: an answer, or the port is gone. */
  datatype Reply = Answer(result: SendResult) | Disconnected

  function Failure(errorCode: Option<nat>, error: SendError): Reply {
    Answer(SendResult(MessageStatus.Failed, None, errorCode, error))
  }

  /** The larger of the two. */
  function Max1(n: nat): (m: nat)
    ensures m >= 1 && m >= n && m in {1, n}
  {
    if n < 1 then 1 else n
  }

  // How submissions on the line make up a message

  ghost predicate Try(a: Attempt, to: string, part: string, encoding: Encoding, verdict: Verdict) {
    a.to == to && a.encoding == encoding && a.body == Some(part) && a.verdict == verdict
  }

  ghost predicate AllRejected(tries: seq<Attempt>, to: string, part: string, encoding: Encoding) {
    forall i :: 0 <= i < |tries| ==> Try(tries[i], to, part, encoding, Rejected)
  }

  /** Rejected submissions of the part, then one more. */
  ghost predicate RejectedBut(tries: seq<Attempt>, to: string, part: string, encoding: Encoding) {
    tries != [] && AllRejected(tries[..|tries| - 1], to, part, encoding)
  }

  /** From one to `max` submissions of the part, the last confirmed and no other. */
  ghost predicate PartDelivered(tries: seq<Attempt>, to: string, part: string, encoding: Encoding, max: nat) {
    && 1 <= |tries| <= max && RejectedBut(tries, to, part, encoding)
    && Try(tries[|tries| - 1], to, part, encoding, Confirmed)
  }

  /** How a part that was not delivered ended. */
  ghost predicate PartFailed(tries: seq<Attempt>, to: string, part: string, encoding: Encoding, max: nat,
                             reply: Reply) {
    && |tries| <= max
    && match reply
       case Disconnected =>
         || AllRejected(tries, to, part, encoding)
         || (RejectedBut(tries, to, part, encoding) && Begun(tries[|tries| - 1], to, part, encoding)
             && tries[|tries| - 1].verdict in {Cut, TimedOut})
       case Answer(result) =>
         && result.status == MessageStatus.Failed && result.reference == None && tries != []
         && ((RejectedBut(tries, to, part, encoding) && Begun(tries[|tries| - 1], to, part, encoding)
              && tries[|tries| - 1].verdict == TimedOut && result.errorCode == None && result.error == NoAnswer)
             || (AllRejected(tries, to, part, encoding) && |tries| == max && result.error == AttemptsExhausted
                 && SendOutcomeOf(tries[|tries| - 1].replies) == SendOutcome.Failed(result.errorCode)))
  }

  ghost predicate PartOutcome(tries: seq<Attempt>, to: string, part: string, encoding: Encoding, max: nat,
                              reply: Reply) {
    if reply.Answer? && reply.result.status == MessageStatus.Sent then
      PartDelivered(tries, to, part, encoding, max) && LastReference(tries, reply.result.reference)
    else PartFailed(tries, to, part, encoding, max, reply)
  }

  /** The submissions of several parts, delivered in order. */
  ghost predicate Delivered(tries: seq<Attempt>, to: string, parts: seq<string>, encoding: Encoding, max: nat)
    decreases |parts|
  {
    if parts == [] then tries == []
    else exists m :: 0 <= m <= |tries|
           && Delivered(tries[..m], to, parts[..|parts| - 1], encoding, max)
           && PartDelivered(tries[m..], to, parts[|parts| - 1], encoding, max)
  }

  /** Parts delivered up to one that failed. */
  ghost predicate FailedAt(tries: seq<Attempt>, to: string, parts: seq<string>, encoding: Encoding, max: nat,
                           reply: Reply, k: nat, m: nat) {
    && k < |parts| && m <= |tries|
    && Delivered(tries[..m], to, parts[..k], encoding, max)
    && PartFailed(tries[m..], to, parts[k], encoding, max, reply)
  }

  /** The reference reported is the one the last submission was confirmed with. */
  ghost predicate LastReference(tries: seq<Attempt>, reference: Option<nat>) {
    && tries != [] && reference.Some?
    && SendOutcomeOf(tries[|tries| - 1].replies) == SendOutcome.Sent(reference.value)
  }

  ghost predicate MessageOutcome(tries: seq<Attempt>, to: string, parts: seq<string>, encoding: Encoding, max: nat,
                                 reply: Reply) {
    if reply.Answer? && reply.result.status == MessageStatus.Sent then
      && Delivered(tries, to, parts, encoding, max)
      && (parts != [] ==> LastReference(tries, reply.result.reference))
    else exists k, m :: FailedAt(tries, to, parts, encoding, max, reply, k, m)
  }

  // The line between operations

  /** At rest and faultless, and while the port lives in command mode under `charset`. */
  ghost predicate Resting(wire: Wire, charset: Charset)
    reads wire
  {
    && wire.Calm() && Clean(wire.seen)
    && (!wire.dead ==> wire.seen.line.mode == CommandMode && wire.seen.charset.current == charset)
  }

  ghost predicate Sound(wire: Wire)
    reads wire
  {
    Resting(wire, IRA)
  }

  function Selecting(charset: Charset): seq<Frame> {
    [SelectCharset(charset.name), SetParameters(charset.params)]
  }

  /** What sending does on the line and beside it: submissions and writes, and
      nothing else that lasts. */
  ghost predicate OnlySent(seen: Monitor, side: Side, seen': Monitor, side': Side, tries: seq<Attempt>) {
    && seen'.sends == seen.sends + tries && seen'.inbound == seen.inbound
    && side'.heed == side.heed && side'.view == side.view && side.written <= side'.written
  }

  lemma NothingSentYet(seen: Monitor, side: Side)
    ensures OnlySent(seen, side, seen, side, [])
  {
    assert seen.sends + [] == seen.sends;
  }

  lemma SentMore(seen: Monitor, side: Side, seen': Monitor, side': Side, seen'': Monitor, side'': Side,
                 tries: seq<Attempt>, news: seq<Attempt>)
    requires OnlySent(seen, side, seen', side', tries) && OnlySent(seen', side', seen'', side'', news)
    ensures OnlySent(seen, side, seen'', side'', tries + news)
  {
    Associate(seen.sends, tries, news);
  }

  lemma PartOnlySent(seen: Monitor, side: Side, seen': Monitor, side': Side, tries: seq<Attempt>, header: Frame,
                     body: Frame, r: Exchange)
    requires Ended(seen, seen', tries) && PartWritten(side, side', header, body, r)
    ensures OnlySent(seen, side, seen', side', tries)
  {
  }

  /** `set_charset`: `AT+CSCS`, then `AT+CSMP`; only a lost port stops it. */
  method SetCharset(wire: Wire, charset: Charset) returns (ok: bool)
    requires wire.Calm() && Clean(wire.seen)
    requires !wire.dead ==> wire.seen.line.mode == CommandMode
    modifies wire
    ensures Resting(wire, charset) && ok == !wire.dead && (old(wire.dead) ==> wire.dead)
    ensures OnlySent(old(wire.seen), old(wire.side), wire.seen, wire.side, [])
    ensures |wire.script| <= |old(wire.script)| && old(wire.log) <= wire.log
    ensures ok ==> wire.side.written == old(wire.side).written + Selecting(charset)
  {
    ghost var seen, side := wire.seen, wire.side;
    var r := wire.Exchange(SelectCharset(charset.name));
    SelectsOnly(seen, side, wire.seen, wire.side, SelectCharset(charset.name), r);
    if r.Lost? {
      return false;
    }
    ghost var seen', side' := wire.seen, wire.side;
    r := wire.Exchange(SetParameters(charset.params));
    SelectsOnly(seen', side', wire.seen, wire.side, SetParameters(charset.params), r);
    SelectedBoth(seen, side, seen', side', wire.seen, wire.side, charset);
    ok := r.Exchanged?;
  }

  lemma SelectsOnly(seen: Monitor, side: Side, seen': Monitor, side': Side, frame: Frame, r: Exchange)
    requires frame.SelectCharset? || frame.SetParameters?
    requires Quiet(seen) && Clean(seen) && (seen.line.mode == CommandMode || (r.Lost? && seen' == seen))
    requires Asked(seen, seen', frame, r) && Recounted(side, side', frame, LinesIn(r))
    ensures OnlySent(seen, side, seen', side', []) && Clean(seen')
    ensures r.Exchanged? ==>
              && side' == Writing(side, [frame]) && seen' == Step(seen, Wrote(frame))
              && seen'.line.mode == CommandMode
              && seen'.charset.current == if frame.SelectCharset? then seen.charset.current.(name := frame.name)
                                          else seen.charset.current.(params := frame.params)
  {
    assert seen.sends + [] == seen.sends;
  }

  lemma SelectedBoth(seen: Monitor, side: Side, seen': Monitor, side': Side, seen'': Monitor, side'': Side,
                     charset: Charset)
    requires OnlySent(seen, side, seen', side', []) && OnlySent(seen', side', seen'', side'', [])
    requires side' == Writing(side, [SelectCharset(charset.name)])
    ensures OnlySent(seen, side, seen'', side'', [])
    ensures side'' == Writing(side', [SetParameters(charset.params)]) ==>
              side''.written == side.written + Selecting(charset)
  {
    Associate(side.written, [SelectCharset(charset.name)], [SetParameters(charset.params)]);
  }

  lemma RejectedGrows(tries: seq<Attempt>, a: Attempt, to: string, part: string, encoding: Encoding)
    requires AllRejected(tries, to, part, encoding)
    ensures RejectedBut(tries + [a], to, part, encoding)
    ensures Try(a, to, part, encoding, Rejected) ==> AllRejected(tries + [a], to, part, encoding)
  {
    assert (tries + [a])[..|tries|] == tries;
  }

  function SentReply(reference: nat): Reply {
    Answer(SendResult(MessageStatus.Sent, Some(reference), None, NoError))
  }

  /** One more submission after some that were rejected, and what follows from it. */
  lemma OneMore(tries: seq<Attempt>, news: seq<Attempt>, to: string, part: string, encoding: Encoding, max: nat,
                r: Exchange)
    requires AllRejected(tries, to, part, encoding) && |tries| < max
    requires TriedPart(news, to, part, encoding, r)
    ensures r.Lost? ==> PartOutcome(tries + news, to, part, encoding, max, Disconnected)
    ensures r.Exchanged? && r.result == Timeout ==>
              PartOutcome(tries + news, to, part, encoding, max, Failure(None, NoAnswer))
    ensures r.Exchanged? && SendOutcomeOf(r.lines).Sent? ==>
              PartOutcome(tries + news, to, part, encoding, max, SentReply(SendOutcomeOf(r.lines).reference))
    ensures r.Exchanged? && r.result != Timeout && !SendOutcomeOf(r.lines).Sent? ==>
              && AllRejected(tries + news, to, part, encoding) && |tries + news| == |tries| + 1
              && SendOutcomeOf((tries + news)[|tries|].replies) == SendOutcomeOf(r.lines)
  {
    if news == [] {
      assert tries + news == tries;
    } else {
      assert news == [news[0]];
      RejectedGrows(tries, news[0], to, part, encoding);
    }
  }

  /** `send_part_with_retries`. */
  method SendPartWithRetries(wire: Wire, maxAttempts: nat, to: string, part: string, encoding: Encoding)
    returns (reply: Reply, ghost tries: seq<Attempt>)
    requires Resting(wire, CharsetFor(encoding))
    modifies wire
    ensures Resting(wire, CharsetFor(encoding)) && reply.Disconnected? == wire.dead
    ensures old(wire.dead) ==> wire.dead
    ensures OnlySent(old(wire.seen), old(wire.side), wire.seen, wire.side, tries)
    ensures |wire.script| <= |old(wire.script)| && old(wire.log) <= wire.log
    ensures PartOutcome(tries, to, part, encoding, Max1(maxAttempts), reply)
  {
    var max := Max1(maxAttempts);
    var lastCode: Option<nat> := None;
    tries := [];
    NothingSentYet(wire.seen, wire.side);
    for attempt := 1 to max + 1
      invariant Resting(wire, CharsetFor(encoding)) && (attempt > 1 ==> !wire.dead)
      invariant old(wire.dead) ==> wire.dead
      invariant |wire.script| <= |old(wire.script)| && old(wire.log) <= wire.log
      invariant OnlySent(old(wire.seen), old(wire.side), wire.seen, wire.side, tries)
      invariant AllRejected(tries, to, part, encoding) && |tries| == attempt - 1
      invariant tries != [] ==> SendOutcomeOf(tries[|tries| - 1].replies) == SendOutcome.Failed(lastCode)
    {
      var r, news := SendOnce(wire, to, part, encoding, old(wire.seen), old(wire.side), tries);
      OneMore(tries, news, to, part, encoding, max, r);
      tries := tries + news;
      if r.Lost? {
        return Disconnected, tries;
      }
      var outcome := ParseSendOutcome(r.lines);
      if outcome.Sent? {
        return SentReply(outcome.reference), tries;
      }
      if r.result == Timeout {
        return Failure(None, NoAnswer), tries;
      }
      lastCode := outcome.code;
    }
    reply := Failure(lastCode, AttemptsExhausted);
  }

  /** One attempt, added to those before it. */
  method SendOnce(wire: Wire, to: string, part: string, encoding: Encoding, ghost seen: Monitor, ghost side: Side,
                  ghost tries: seq<Attempt>)
    returns (r: Exchange, ghost news: seq<Attempt>)
    requires Resting(wire, CharsetFor(encoding)) && OnlySent(seen, side, wire.seen, wire.side, tries)
    modifies wire
    ensures Resting(wire, CharsetFor(encoding)) && r.Lost? == wire.dead && (old(wire.dead) ==> wire.dead)
    ensures OnlySent(seen, side, wire.seen, wire.side, tries + news)
    ensures |wire.script| <= |old(wire.script)| && old(wire.log) <= wire.log
    ensures TriedPart(news, to, part, encoding, r)
  {
    r, news := wire.SendPart(to, part, encoding);
    PartOnlySent(old(wire.seen), old(wire.side), wire.seen, wire.side, news, Header(to, encoding), Body(part, encoding),
        r);
    SentMore(seen, side, old(wire.seen), old(wire.side), wire.seen, wire.side, tries, news);
  }

  lemma DeliveredMore(tries: seq<Attempt>, news: seq<Attempt>, to: string, parts: seq<string>, part: string,
                      encoding: Encoding, max: nat)
    requires Delivered(tries, to, parts, encoding, max)
    requires PartDelivered(news, to, part, encoding, max)
    ensures Delivered(tries + news, to, parts + [part], encoding, max)
  {
    var all, m := tries + news, |tries|;
    assert all[..m] == tries && all[m..] == news && (parts + [part])[..|parts|] == parts;
    assert Delivered(all[..m], to, (parts + [part])[..|parts|], encoding, max);
  }

  /** The next part has been tried: either everything up to it is delivered, or the
      message has its outcome. */
  lemma NextPart(tries: seq<Attempt>, news: seq<Attempt>, to: string, parts: seq<string>, k: nat, encoding: Encoding,
                 max: nat, reply: Reply)
    requires k < |parts| && Delivered(tries, to, parts[..k], encoding, max)
    requires PartOutcome(news, to, parts[k], encoding, max, reply)
    ensures if reply.Answer? && reply.result.status == MessageStatus.Sent
            then Delivered(tries + news, to, parts[..k + 1], encoding, max)
                 && LastReference(tries + news, reply.result.reference)
            else MessageOutcome(tries + news, to, parts, encoding, max, reply)
  {
    var all, m := tries + news, |tries|;
    assert all[..m] == tries && all[m..] == news;
    if reply.Answer? && reply.result.status == MessageStatus.Sent {
      DeliveredMore(tries, news, to, parts[..k], parts[k], encoding, max);
      assert parts[..k] + [parts[k]] == parts[..k + 1];
    } else {
      assert FailedAt(all, to, parts, encoding, max, reply, k, m);
    }
  }

  /** `send_all_segments`: in order, stopping at the first part not sent. */
  method SendAllSegments(wire: Wire, maxAttempts: nat, to: string, segments: seq<Segment>, encoding: Encoding)
    returns (reply: Reply, ghost tries: seq<Attempt>)
    requires Resting(wire, CharsetFor(encoding))
    modifies wire
    ensures Resting(wire, CharsetFor(encoding)) && (reply.Disconnected? ==> wire.dead)
    ensures old(wire.dead) ==> wire.dead
    ensures OnlySent(old(wire.seen), old(wire.side), wire.seen, wire.side, tries)
    ensures |wire.script| <= |old(wire.script)| && old(wire.log) <= wire.log
    ensures MessageOutcome(tries, to, Texts(segments), encoding, Max1(maxAttempts), reply)
  {
    ghost var parts := Texts(segments);
    var reference: Option<nat> := None;
    tries := [];
    NothingSentYet(wire.seen, wire.side);
    assert parts[..0] == [];
    for i := 0 to |segments|
      invariant Resting(wire, CharsetFor(encoding)) && (old(wire.dead) ==> wire.dead)
      invariant |wire.script| <= |old(wire.script)| && old(wire.log) <= wire.log
      invariant OnlySent(old(wire.seen), old(wire.side), wire.seen, wire.side, tries)
      invariant Delivered(tries, to, parts[..i], encoding, Max1(maxAttempts))
      invariant i > 0 ==> LastReference(tries, reference)
    {
      ghost var seen, side := wire.seen, wire.side;
      var r, news := SendPartWithRetries(wire, maxAttempts, to, segments[i].text, encoding);
      SentMore(old(wire.seen), old(wire.side), seen, side, wire.seen, wire.side, tries, news);
      NextPart(tries, news, to, parts, i, encoding, Max1(maxAttempts), r);
      tries := tries + news;
      if r.Disconnected? || r.result.status != MessageStatus.Sent {
        return r, tries;
      }
      reference := r.result.reference;
    }
    assert parts[..|parts|] == parts;
    reply := Answer(SendResult(MessageStatus.Sent, reference, None, NoError));
  }

  /** What `handle_send` promises of one message, by its outcome: nothing written
      while the modem is not ready or the body needs too many parts; otherwise the
      submissions of its segments. */
  ghost predicate SendHandled(deliverable: bool, to: string, body: string, max: nat, reply: Reply,
                              tries: seq<Attempt>) {
    if !deliverable then
      tries == [] && reply == Answer(SendResult(MessageStatus.Queued, None, None, NotDeliverable))
    else match Segmented(body)
      case TooManyParts(required) => tries == [] && reply == Failure(None, CannotSegment(required))
      case Segments(segments) => MessageOutcome(tries, to, Texts(segments), MessageEncoding(body), max, reply)
  }

  /** Text mode first, and under UCS2 its settings around everything else. */
  predicate Bracketed(before: seq<Frame>, after: seq<Frame>, encoding: Encoding) {
    match encoding
    case Gsm7 => before + [Command("AT+CMGF=1")] <= after
    case Wide => BracketedBy(before + [Command("AT+CMGF=1")], after, Selecting(UCS2), Selecting(IRA))
  }

  /** After what was there, `first`; and at the end `last`. */
  predicate BracketedBy(before: seq<Frame>, after: seq<Frame>, first: seq<Frame>, last: seq<Frame>) {
    && before + first <= after && |before| + |first| + |last| <= |after|
    && after[|after| - |last|..] == last
  }

  lemma Ends<T>(s: seq<T>, t: seq<T>)
    ensures s <= s + t && (s + t)[|s + t| - |t|..] == t
  {
  }

  lemma NothingSent(to: string, parts: seq<string>, encoding: Encoding, max: nat)
    requires parts != []
    ensures MessageOutcome([], to, parts, encoding, max, Disconnected)
  {
    var none: seq<Attempt> := [];
    assert parts[..0] == [] && none[..0] == [] && none[0..] == [];
    assert FailedAt(none, to, parts, encoding, max, Disconnected, 0, 0);
  }

  /** `handle_send`; `deliverable` is the snapshot's SIM and registration verdict.
      The character set is IRA again afterwards, or the port is gone. */
  method HandleSend(wire: Wire, maxAttempts: nat, deliverable: bool, to: string, body: string)
    returns (reply: Reply, ghost tries: seq<Attempt>)
    requires Sound(wire)
    modifies wire
    ensures Sound(wire) && (old(wire.dead) ==> wire.dead)
    ensures reply.Disconnected? ==> wire.dead
    ensures OnlySent(old(wire.seen), old(wire.side), wire.seen, wire.side, tries)
    ensures |wire.script| <= |old(wire.script)| && old(wire.log) <= wire.log
    ensures SendHandled(deliverable, to, body, Max1(maxAttempts), reply, tries)
    ensures !deliverable || Segmented(body).TooManyParts? ==> wire.log == old(wire.log)
    ensures deliverable && Segmented(body).Segments? && !wire.dead ==>
              Bracketed(old(wire.side).written, wire.side.written, MessageEncoding(body))
  {
    tries := [];
    NothingSentYet(wire.seen, wire.side);
    if !deliverable {
      return Answer(SendResult(MessageStatus.Queued, None, None, NotDeliverable)), [];
    }
    var encoding := MessageEncoding(body);
    var outcome := SegmentMessage(body);
    if outcome.TooManyParts? {
      return Failure(None, CannotSegment(outcome.required)), [];
    }
    SegmentsAreFaithful(body, outcome.segments);
    reply, tries := SendUnderCharset(wire, maxAttempts, to, outcome.segments, encoding);
  }

  /** The part of `handle_send` that writes: text mode, the character set if it is
      UCS2, the segments, and IRA again whatever became of them. */
  method SendUnderCharset(wire: Wire, maxAttempts: nat, to: string, segments: seq<Segment>, encoding: Encoding)
    returns (reply: Reply, ghost tries: seq<Attempt>)
    requires Sound(wire) && segments != []
    modifies wire
    ensures Sound(wire) && (old(wire.dead) ==> wire.dead) && (reply.Disconnected? ==> wire.dead)
    ensures OnlySent(old(wire.seen), old(wire.side), wire.seen, wire.side, tries)
    ensures |wire.script| <= |old(wire.script)| && old(wire.log) <= wire.log
    ensures MessageOutcome(tries, to, Texts(segments), encoding, Max1(maxAttempts), reply)
    ensures !wire.dead ==> Bracketed(old(wire.side).written, wire.side.written, encoding)
  {
    NothingSent(to, Texts(segments), encoding, Max1(maxAttempts));
    var ok := EnterTextMode(wire);
    if !ok {
      return Disconnected, [];
    }
    ghost var seen, side := wire.seen, wire.side;
    if encoding == Gsm7 {
      reply, tries := SendAllSegments(wire, maxAttempts, to, segments, encoding);
    } else {
      reply, tries := SendUnderUcs2(wire, maxAttempts, to, segments);
    }
    SentSince(old(wire.seen), old(wire.side), seen, side, wire.seen, wire.side, tries);
  }

  lemma SentSince(seen: Monitor, side: Side, seen': Monitor, side': Side, seen'': Monitor, side'': Side,
                  tries: seq<Attempt>)
    requires OnlySent(seen, side, seen', side', []) && OnlySent(seen', side', seen'', side'', tries)
    ensures OnlySent(seen, side, seen'', side'', tries)
  {
    SentMore(seen, side, seen', side', seen'', side'', [], tries);
    assert [] + tries == tries;
  }

  lemma SentThen(seen: Monitor, side: Side, seen': Monitor, side': Side, seen'': Monitor, side'': Side,
                 tries: seq<Attempt>)
    requires OnlySent(seen, side, seen', side', tries) && OnlySent(seen', side', seen'', side'', [])
    ensures OnlySent(seen, side, seen'', side'', tries)
  {
    SentMore(seen, side, seen', side', seen'', side'', tries, []);
    assert tries + [] == tries;
  }

  /** `AT+CMGF=1` before a send; its answer does not matter. */
  method EnterTextMode(wire: Wire) returns (ok: bool)
    requires Sound(wire)
    modifies wire
    ensures Sound(wire) && ok == !wire.dead && (old(wire.dead) ==> wire.dead)
    ensures OnlySent(old(wire.seen), old(wire.side), wire.seen, wire.side, [])
    ensures |wire.script| <= |old(wire.script)| && old(wire.log) <= wire.log
    ensures ok ==> wire.side.written == old(wire.side).written + [Command("AT+CMGF=1")]
  {
    OwnCommands();
    var r := wire.Exchange(Command("AT+CMGF=1"));
    PlainCommand(old(wire.seen), wire.seen, Command("AT+CMGF=1"), r);
    NotAStatusQuery();
    NothingSentYet(old(wire.seen), old(wire.side));
    ok := r.Exchanged?;
  }

  lemma NotAStatusQuery()
    ensures !IsStatusQuery(Command("AT+CMGF=1"))
  {
    assert |"AT+CMGF=1"| == 9 && forall query :: query in STATUS_QUERIES ==> |query| <= 8;
  }

  /** UCS2 around the segments, and IRA again whatever became of them. */
  method SendUnderUcs2(wire: Wire, maxAttempts: nat, to: string, segments: seq<Segment>)
    returns (reply: Reply, ghost tries: seq<Attempt>)
    requires Sound(wire) && segments != []
    modifies wire
    ensures Sound(wire) && (old(wire.dead) ==> wire.dead) && (reply.Disconnected? ==> wire.dead)
    ensures OnlySent(old(wire.seen), old(wire.side), wire.seen, wire.side, tries)
    ensures |wire.script| <= |old(wire.script)| && old(wire.log) <= wire.log
    ensures MessageOutcome(tries, to, Texts(segments), Wide, Max1(maxAttempts), reply)
    ensures !wire.dead ==> BracketedBy(old(wire.side).written, wire.side.written, Selecting(UCS2), Selecting(IRA))
  {
    NothingSent(to, Texts(segments), Wide, Max1(maxAttempts));
    var ok := SetCharset(wire, UCS2);
    if !ok {
      return Disconnected, [];
    }
    ghost var seen, side := wire.seen, wire.side;
    reply, tries := SendAllSegments(wire, maxAttempts, to, segments, Wide);
    SentSince(old(wire.seen), old(wire.side), seen, side, wire.seen, wire.side, tries);
    Ends(wire.side.written, Selecting(IRA));
    ghost var seen', side' := wire.seen, wire.side;
    var restored := SetCharset(wire, IRA);
    SentThen(old(wire.seen), old(wire.side), seen', side', wire.seen, wire.side, tries);
  }
  /** A plain command, sent under IRA at rest, has no effect of its own on the line. */
  lemma PlainCommand(before: Monitor, after: Monitor, frame: Frame, r: Exchange)
    requires Quiet(before) && Clean(before) && IsPlain(frame) && Asked(before, after, frame, r)
    requires after != before ==> before.line.mode == CommandMode && before.charset.current == IRA
    ensures after == before
  {
  }
}
