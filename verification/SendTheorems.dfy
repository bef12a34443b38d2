/** What a sent message means on the line. */
module SendTheorems {
  import opened Text
  import opened Segmentation
  import opened Greedy
  import opened Utf8
  import Framing
  import opened Frames
  import opened LineTrace
  import opened Sending
  import opened Models

  /** The bodies of the confirmed submissions, as written. */
  function ConfirmedPayloads(tries: seq<Attempt>): seq<seq<Byte>> {
    if tries == [] then []
    else
      var last := tries[|tries| - 1];
      ConfirmedPayloads(tries[..|tries| - 1])
      + if last.verdict == Confirmed && last.body.Some? then [BodyBytes(last.body.value, last.encoding)] else []
  }

  /** The text a run of payloads carries, if each carries one. */
  function CarriedText(payloads: seq<seq<Byte>>, encoding: Encoding): Option<string> {
    if payloads == [] then Some("")
    else
      match (Framing.PayloadText(payloads[0], encoding), CarriedText(payloads[1..], encoding))
      case (Some(text), Some(rest)) => Some(text + rest)
      case _ => None
  }

  /** The bytes a part's body goes out as. */
  function BodyBytes(part: string, encoding: Encoding): seq<Byte> {
    Render(Body(part, encoding))
  }

  function Payloads(parts: seq<string>, encoding: Encoding): (payloads: seq<seq<Byte>>)
    ensures |payloads| == |parts|
    ensures forall i :: 0 <= i < |parts| ==> payloads[i] == BodyBytes(parts[i], encoding)
  {
    seq(|parts|, i requires 0 <= i < |parts| => BodyBytes(parts[i], encoding))
  }

  lemma PayloadsFront(parts: seq<string>, encoding: Encoding)
    requires parts != []
    ensures Payloads(parts, encoding) == Payloads(parts[..|parts| - 1], encoding)
              + [BodyBytes(parts[|parts| - 1], encoding)]
  {
  }

  lemma {:induction false} ConfirmedConcat(a: seq<Attempt>, b: seq<Attempt>)
    ensures ConfirmedPayloads(a + b) == ConfirmedPayloads(a) + ConfirmedPayloads(b)
  {
    if b == [] {
      assert a + b == a;
    } else {
      assert (a + b)[..|a + b| - 1] == a + b[..|b| - 1];
      ConfirmedConcat(a, b[..|b| - 1]);
    }
  }

  lemma {:induction false} NoneConfirmed(tries: seq<Attempt>)
    requires forall i :: 0 <= i < |tries| ==> tries[i].verdict != Confirmed
    ensures ConfirmedPayloads(tries) == []
  {
    if tries != [] {
      NoneConfirmed(tries[..|tries| - 1]);
    }
  }

  lemma PartPayloads(tries: seq<Attempt>, to: string, part: string, encoding: Encoding, max: nat)
    requires PartDelivered(tries, to, part, encoding, max)
    ensures ConfirmedPayloads(tries) == [BodyBytes(part, encoding)]
  {
    NoneConfirmed(tries[..|tries| - 1]);
  }

  lemma {:induction false} DeliveredPayloads(tries: seq<Attempt>, to: string, parts: seq<string>, encoding: Encoding,
                                             max: nat)
    requires Delivered(tries, to, parts, encoding, max)
    ensures ConfirmedPayloads(tries) == Payloads(parts, encoding)
    decreases |parts|
  {
    if parts != [] {
      var front, part := parts[..|parts| - 1], parts[|parts| - 1];
      var m :| 0 <= m <= |tries| && Delivered(tries[..m], to, front, encoding, max)
               && PartDelivered(tries[m..], to, part, encoding, max);
      DeliveredPayloads(tries[..m], to, front, encoding, max);
      PartPayloads(tries[m..], to, part, encoding, max);
      ConfirmedConcat(tries[..m], tries[m..]);
      Rejoin(tries, m);
      PayloadsFront(parts, encoding);
    }
  }

  /** A part that its encoding can carry. */
  predicate Carriable(part: string, encoding: Encoding) {
    match encoding case Gsm7 => IsGsm7(part) case Wide => part != ""
  }

  lemma {:induction false} PayloadsCarry(parts: seq<string>, encoding: Encoding)
    requires forall i :: 0 <= i < |parts| ==> Carriable(parts[i], encoding)
    ensures CarriedText(Payloads(parts, encoding), encoding) == Some(Concat(parts))
  {
    if parts != [] {
      assert Payloads(parts, encoding)[1..] == Payloads(parts[1..], encoding);
      Framing.PayloadCarries(parts[0], encoding);
      PayloadsCarry(parts[1..], encoding);
    }
  }

  lemma SegmentsCarriable(body: string, segments: seq<Segment>)
    requires Segmented(body) == Segments(segments)
    ensures forall i :: 0 <= i < |segments| ==> Carriable(Texts(segments)[i], MessageEncoding(body))
  {
    SegmentsAreFaithful(body, segments);
    if MessageEncoding(body) == Gsm7 {
      PartsOfGsm7(Texts(segments));
    }
  }

  /** When `handle_send` answers `Sent`, the body was cut into segments, each
      submitted between once and `max` times in order with exactly the last
      submission confirmed, and the confirmed payloads, each less its Ctrl-Z and
      decoded, put the original body together again. */
  lemma SentMeansDelivered(deliverable: bool, to: string, body: string, max: nat, reply: Reply, tries: seq<Attempt>)
    requires SendHandled(deliverable, to, body, max, reply, tries)
    requires reply.Answer? && reply.result.status == MessageStatus.Sent
    ensures Segmented(body).Segments?
    ensures Delivered(tries, to, Texts(Segmented(body).segments), MessageEncoding(body), max)
    ensures CarriedText(ConfirmedPayloads(tries), MessageEncoding(body)) == Some(body)
    ensures LastReference(tries, reply.result.reference)
  {
    var segments := Segmented(body).segments;
    SegmentsAreFaithful(body, segments);
    SegmentsCarriable(body, segments);
    DeliveredPayloads(tries, to, Texts(segments), MessageEncoding(body), max);
    PayloadsCarry(Texts(segments), MessageEncoding(body));
  }

  predicate Answered(a: Attempt) {
    a.verdict in {Confirmed, Rejected}
  }

  /** Answered, or ended by a deadline or the port. */
  predicate Resolved(a: Attempt) {
    Answered(a) || a.verdict in {TimedOut, Cut}
  }

  lemma {:induction false} DeliveredAnswered(tries: seq<Attempt>, to: string, parts: seq<string>, encoding: Encoding,
                                             max: nat)
    requires Delivered(tries, to, parts, encoding, max)
    ensures forall i :: 0 <= i < |tries| ==> Answered(tries[i])
    decreases |parts|
  {
    if parts != [] {
      var front, part := parts[..|parts| - 1], parts[|parts| - 1];
      var m :| 0 <= m <= |tries| && Delivered(tries[..m], to, front, encoding, max)
               && PartDelivered(tries[m..], to, part, encoding, max);
      DeliveredAnswered(tries[..m], to, front, encoding, max);
      PartAnswered(tries[m..], to, part, encoding, max);
      SplitAnswered(tries, m);
    }
  }

  lemma SplitAnswered(tries: seq<Attempt>, m: nat)
    requires m <= |tries|
    requires forall i :: 0 <= i < |tries[..m]| ==> Answered(tries[..m][i])
    requires forall i :: 0 <= i < |tries[m..]| - 1 ==> Answered(tries[m..][i])
    ensures forall i :: 0 <= i < |tries| - 1 ==> Answered(tries[i])
    ensures (forall i :: 0 <= i < |tries[m..]| ==> Answered(tries[m..][i])) ==> forall i :: 0 <= i < |tries| ==>
              Answered(tries[i])
  {
    assert forall i :: 0 <= i < m ==> tries[i] == tries[..m][i];
    assert forall i :: m <= i < |tries| ==> tries[i] == tries[m..][i - m];
  }

  lemma PartAnswered(tries: seq<Attempt>, to: string, part: string, encoding: Encoding, max: nat)
    requires PartDelivered(tries, to, part, encoding, max)
    ensures |tries| <= max && forall i :: 0 <= i < |tries| ==> Answered(tries[i])
  {
    assert forall i :: 0 <= i < |tries| - 1 ==> tries[i] == tries[..|tries| - 1][i];
  }

  lemma PartFailedAnswered(tries: seq<Attempt>, to: string, part: string, encoding: Encoding, max: nat, reply: Reply)
    requires PartFailed(tries, to, part, encoding, max, reply)
    ensures |tries| <= max && forall i :: 0 <= i < |tries| - 1 ==> Answered(tries[i])
    ensures tries != [] ==> Resolved(tries[|tries| - 1])
  {
    assert forall i :: 0 <= i < |tries| - 1 ==> tries[i] == tries[..|tries| - 1][i];
  }

  lemma LastResolved(tries: seq<Attempt>, m: nat)
    requires m <= |tries|
    requires forall i :: 0 <= i < |tries[..m]| ==> Answered(tries[..m][i])
    requires tries[m..] != [] ==> Resolved(tries[m..][|tries[m..]| - 1])
    ensures tries != [] ==> Resolved(tries[|tries| - 1])
  {
    if m == |tries| && m > 0 {
      assert tries[..m][m - 1] == tries[m - 1];
    }
  }

  /** Whatever the outcome, every submission but the last was answered: after one
      that timed out, or that the port was lost in, no header is written again. The
      last one was answered too, or it ran into a deadline or the port was lost. */
  lemma NothingAfterTimeout(deliverable: bool, to: string, body: string, max: nat, reply: Reply, tries: seq<Attempt>)
    requires SendHandled(deliverable, to, body, max, reply, tries)
    ensures forall i :: 0 <= i < |tries| - 1 ==> Answered(tries[i])
    ensures tries != [] ==> Resolved(tries[|tries| - 1])
  {
    if deliverable && Segmented(body).Segments? {
      var parts, encoding := Texts(Segmented(body).segments), MessageEncoding(body);
      if reply.Answer? && reply.result.status == MessageStatus.Sent {
        DeliveredAnswered(tries, to, parts, encoding, max);
      } else {
        var k: nat, m: nat :| FailedAt(tries, to, parts, encoding, max, reply, k, m);
        DeliveredAnswered(tries[..m], to, parts[..k], encoding, max);
        PartFailedAnswered(tries[m..], to, parts[k], encoding, max, reply);
        SplitAnswered(tries, m);
        LastResolved(tries, m);
      }
    }
  }
}
