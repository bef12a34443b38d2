/** What a caller who is told `Sent` may conclude, from the trace alone. */
module DeliveryTheorems {
  import opened Text
  import opened Segmentation
  import opened Greedy
  import opened Protocol
  import opened Utf8
  import opened Frames
  import Framing
  import opened ModemSide
  import opened ModemSafety
  import opened LineTrace
  import opened Models
  import opened Sending
  import opened SendTheorems
  import opened Submissions
  import opened Requests

  // The confirmed submission of each part

  /** The confirmed submissions of several parts, among others. */
  ghost predicate Confirms(tries: seq<Attempt>, which: seq<nat>, to: string, parts: seq<string>, encoding: Encoding) {
    && |which| == |parts| && (forall j :: 0 <= j < |which| ==> which[j] < |tries|)
    && (forall i, j :: 0 <= i < j < |which| ==> which[i] < which[j])
    && forall j :: 0 <= j < |which| ==> Try(tries[which[j]], to, parts[j], encoding, Confirmed)
  }

  lemma ConfirmsMore(tries: seq<Attempt>, which: seq<nat>, to: string, parts: seq<string>, part: string,
                     encoding: Encoding, m: nat)
    requires m < |tries| && Confirms(tries[..m], which, to, parts, encoding)
    requires Try(tries[|tries| - 1], to, part, encoding, Confirmed)
    ensures Confirms(tries, which + [|tries| - 1], to, parts + [part], encoding)
  {
  }

  /** The submissions of the last part begin somewhere, and its own is the last. */
  lemma LastDelivered(tries: seq<Attempt>, to: string, parts: seq<string>, encoding: Encoding, max: nat)
    returns (m: nat)
    requires Delivered(tries, to, parts, encoding, max) && parts != []
    ensures m < |tries| && Delivered(tries[..m], to, parts[..|parts| - 1], encoding, max)
    ensures Try(tries[|tries| - 1], to, parts[|parts| - 1], encoding, Confirmed)
  {
    m :| 0 <= m <= |tries| && Delivered(tries[..m], to, parts[..|parts| - 1], encoding, max)
         && PartDelivered(tries[m..], to, parts[|parts| - 1], encoding, max);
  }

  lemma {:induction false} DeliveredConfirms(tries: seq<Attempt>, to: string, parts: seq<string>, encoding: Encoding,
                                             max: nat)
    returns (which: seq<nat>)
    requires Delivered(tries, to, parts, encoding, max)
    ensures Confirms(tries, which, to, parts, encoding)
    ensures parts != [] ==> which[|parts| - 1] == |tries| - 1
    decreases |parts|
  {
    which := [];
    if parts != [] {
      var front, part := parts[..|parts| - 1], parts[|parts| - 1];
      var m := LastDelivered(tries, to, parts, encoding, max);
      which := DeliveredConfirms(tries[..m], to, front, encoding, max);
      ConfirmsMore(tries, which, to, front, part, encoding, m);
      which := which + [|tries| - 1];
      assert front + [part] == parts;
    }
  }

  // On the trace

  /** What was heard after a submission's body, up to its result. */
  ghost function RepliesAt(log: seq<Op>, p: Places): seq<string> {
    if p.body.Some? && p.result.Some? && p.body.value < p.result.value < |log|
    then LineSafety.Heard(log[p.body.value + 1..p.result.value + 1]) else []
  }

  /** The bytes of a submission's body, as they went out. */
  function BytesAt(log: seq<Op>, p: Places): seq<Byte> {
    if p.body.Some? && p.body.value < |log| && log[p.body.value].Wrote? then Render(log[p.body.value].frame) else []
  }

  function BodiesAt(log: seq<Op>, places: seq<Places>): (bodies: seq<seq<Byte>>)
    ensures |bodies| == |places|
    ensures forall j :: 0 <= j < |places| ==> bodies[j] == BytesAt(log, places[j])
  {
    seq(|places|, j requires 0 <= j < |places| => BytesAt(log, places[j]))
  }

  /** Each part was submitted at its places, after a moment. */
  ghost predicate SubmittedSince(from: nat, log: seq<Op>, places: seq<Places>, to: string, parts: seq<string>,
                                 encoding: Encoding) {
    && |places| == |parts| && InSequence(places)
    && forall j :: 0 <= j < |places| ==>
         from <= places[j].header && SubmittedAt(log, places[j], to, parts[j], encoding, RepliesAt(log, places[j]))
  }

  lemma BodiesArePayloads(from: nat, log: seq<Op>, places: seq<Places>, to: string, parts: seq<string>,
                          encoding: Encoding)
    requires SubmittedSince(from, log, places, to, parts, encoding)
    ensures BodiesAt(log, places) == Payloads(parts, encoding)
  {
    forall j | 0 <= j < |places|
      ensures BytesAt(log, places[j]) == BodyBytes(parts[j], encoding)
    {
      assert SubmittedAt(log, places[j], to, parts[j], encoding, RepliesAt(log, places[j]));
    }
  }

  function Picked(places: seq<Places>, which: seq<nat>, offset: nat): (picked: seq<Places>)
    requires forall j :: 0 <= j < |which| ==> offset + which[j] < |places|
    ensures |picked| == |which| && forall j :: 0 <= j < |which| ==> picked[j] == places[offset + which[j]]
  {
    seq(|which|, j requires 0 <= j < |which| => places[offset + which[j]])
  }

  ghost predicate StandsAt(from: nat, log: seq<Op>, places: seq<Places>, i: nat, to: string, part: string,
                           encoding: Encoding,
                           replies: seq<string>)
  {
    i < |places| && from <= places[i].header && SubmittedAt(log, places[i], to, part, encoding, replies)
  }

  /** The submissions of a faultless line since a moment, `offset` before them. */
  ghost predicate Since(before: seq<Op>, after: seq<Op>, tries: seq<Attempt>, offset: nat) {
    && before <= after && Clean(Observe(START, before)) && Clean(Observe(START, after))
    && Observe(START, after).sends == Observe(START, before).sends + tries && offset == |Observe(START, before).sends|
  }

  /** One confirmed submission since a moment stands on the trace since then. */
  lemma TryStands(before: seq<Op>, after: seq<Op>, tries: seq<Attempt>, offset: nat, k: nat, to: string, part: string,
                  encoding: Encoding)
    requires Since(before, after, tries, offset) && k < |tries| && Try(tries[k], to, part, encoding, Confirmed)
    ensures StandsAt(|before|, after, PlacesOf(after), offset + k, to, part, encoding, tries[k].replies)
  {
    SubmissionsAreTheTrace(before);
    PlacesBeyond(before, after);
    var i := offset + k;
    assert Observe(START, after).sends[i] == tries[k];
    ConfirmedOnTheTrace(after, i);
  }

  /** So do several. */
  lemma AllStand(from: nat, log: seq<Op>, all: seq<Places>, offset: nat, tries: seq<Attempt>, which: seq<nat>,
                 to: string, parts: seq<string>, encoding: Encoding)
    returns (places: seq<Places>)
    requires Confirms(tries, which, to, parts, encoding) && InSequence(all)
    requires forall j :: 0 <= j < |which| ==>
              StandsAt(from, log, all, offset + which[j], to, parts[j], encoding, tries[which[j]].replies)
    ensures SubmittedSince(from, log, places, to, parts, encoding)
    ensures forall j :: 0 <= j < |which| ==> RepliesAt(log, places[j]) == tries[which[j]].replies
  {
    places := Picked(all, which, offset);
    PickedInSequence(all, which, offset);
    forall j | 0 <= j < |which|
      ensures from <= places[j].header && SubmittedAt(log, places[j], to, parts[j], encoding, tries[which[j]].replies)
    {
      assert StandsAt(from, log, all, offset + which[j], to, parts[j], encoding, tries[which[j]].replies);
    }
  }

  lemma PickedInSequence(places: seq<Places>, which: seq<nat>, offset: nat)
    requires InSequence(places) && forall j :: 0 <= j < |which| ==> offset + which[j] < |places|
    requires forall i, j :: 0 <= i < j < |which| ==> which[i] < which[j]
    ensures InSequence(Picked(places, which, offset))
  {
  }

  /** The confirmed submissions since a moment. */
  lemma PickedStand(before: seq<Op>, after: seq<Op>, tries: seq<Attempt>, offset: nat, which: seq<nat>,
                    to: string, parts: seq<string>, encoding: Encoding)
    returns (places: seq<Places>)
    requires Since(before, after, tries, offset) && Confirms(tries, which, to, parts, encoding)
    ensures SubmittedSince(|before|, after, places, to, parts, encoding)
    ensures forall j :: 0 <= j < |which| ==> RepliesAt(after, places[j]) == tries[which[j]].replies
  {
    forall j | 0 <= j < |which|
      ensures StandsAt(|before|, after, PlacesOf(after), offset + which[j], to, parts[j], encoding,
                tries[which[j]].replies)
    {
      TryStands(before, after, tries, offset, which[j], to, parts[j], encoding);
    }
    PlacesInSequence(after);
    places := AllStand(|before|, after, PlacesOf(after), offset, tries, which, to, parts, encoding);
  }

  /** A caller told `Sent`: on the trace of the request, for every segment in order,
      stand its header to the recipient, a prompt, its body under the same encoding
      and, with nothing else written between, an `OK` after a reference; the bytes
      of the bodies decode to the text of the message; the reference answered is
      the one heard last. */
  lemma SentOnTheTrace(served: Served, max: nat) returns (places: seq<Places>)
    requires ServedRight(served, max) && served.request.SendSms?
    requires served.response.SmsReply? && served.response.sent.status == MessageStatus.Sent
    requires Clean(Observe(START, served.before)) && Clean(Observe(START, served.after))
    ensures var body, encoding := served.request.body, MessageEncoding(served.request.body);
              && Segmented(body).Segments?
              && SubmittedSince(|served.before|, served.after, places, served.request.to,
                  Texts(Segmented(body).segments), encoding)
              && CarriedText(BodiesAt(served.after, places), encoding) == Some(body)
    ensures places != [] && served.response.sent.reference.Some?
    ensures SendOutcomeOf(RepliesAt(served.after, places[|places| - 1]))
              == SendOutcome.Sent(served.response.sent.reference.value)
  {
    var SendSms(to, body) := served.request;
    var encoding := MessageEncoding(body);
    SentMeansDelivered(Readiness.Deliverable(served.before), to, body, max, Answer(served.response.sent), served.tries);
    var segments := Segmented(body).segments;
    SegmentsAreFaithful(body, segments);
    SegmentsCarriable(body, segments);
    var which := DeliveredConfirms(served.tries, to, Texts(segments), encoding, max);
    var offset := |Observe(START, served.before).sends|;
    places := PickedStand(served.before, served.after, served.tries, offset, which, to, Texts(segments), encoding);
    BodiesArePayloads(|served.before|, served.after, places, to, Texts(segments), encoding);
    PayloadsCarry(Texts(segments), encoding);
  }

  // What leaves the modem

  /** What the modem sends for a submission, from the bytes of its header and body and
      from the settings that the bytes before them left it under. */
  function SmsAt(log: seq<Op>, p: Places): Option<Sms> {
    if p.header < |log| && log[p.header].Wrote? && p.body.Some? && p.body.value < |log| && log[p.body.value].Wrote?
    then ModemSide.Sent(SettingsAfter(log[..p.header]), Render(log[p.header].frame), Render(log[p.body.value].frame))
    else None
  }

  /** The messages sent for some parts: the recipient's digits and plus signs, the part
      as it stands, and the coding of its encoding. Under UCS2 nothing is sent to a
      recipient without digits. */
  function SmsFor(dialed: string, part: string, encoding: Encoding): Option<Sms> {
    if encoding == Wide && dialed == "" then None
    else Some(Sms(dialed, part, if encoding == Gsm7 then 0 else 8))
  }

  lemma SubmittedIsSent(log: seq<Op>, p: Places, to: string, part: string, encoding: Encoding, replies: seq<string>)
    requires Clean(Observe(START, log)) && AllAllowed(log)
    requires SubmittedAt(log, p, to, part, encoding, replies) && Carriable(part, encoding)
    ensures SmsAt(log, p) == SmsFor(Framing.Sanitized(to), part, encoding)
  {
    WrittenUnderSettings(log, p.header, encoding);
    SubmissionMeans(SettingsAfter(log[..p.header]), to, part, encoding);
  }

  /** A caller told `Sent`: by the bytes on the line and nothing else, the modem sends,
      in order and between the request and its answer, one message for each
      segment, each to the recipient's digits and plus signs, and together they are
      the text of the request. */
  lemma SentAsGiven(served: Served, max: nat) returns (places: seq<Places>, dialed: string)
    requires ServedRight(served, max) && served.request.SendSms?
    requires served.response.SmsReply? && served.response.sent.status == MessageStatus.Sent
    requires Clean(Observe(START, served.before)) && Clean(Observe(START, served.after)) && AllAllowed(served.after)
    ensures Framing.DialedDigits(served.request.to, dialed)
    ensures Segmented(served.request.body).Segments?
    ensures var body, encoding := served.request.body, MessageEncoding(served.request.body);
            var parts := Texts(Segmented(body).segments);
              && SubmittedSince(|served.before|, served.after, places, served.request.to, parts, encoding)
              && (forall j :: 0 <= j < |places| ==>
                  SmsAt(served.after, places[j]) == SmsFor(dialed, parts[j], encoding))
              && Concat(parts) == body
  {
    var SendSms(to, body) := served.request;
    places := SentOnTheTrace(served, max);
    dialed := Framing.Sanitized(to);
    Framing.SanitizedIsDialed(to);
    var segments := Segmented(body).segments;
    SegmentsAreFaithful(body, segments);
    SegmentsCarriable(body, segments);
    AllAreSent(|served.before|, served.after, places, to, Texts(segments), MessageEncoding(body));
  }

  lemma AllAreSent(from: nat, log: seq<Op>, places: seq<Places>, to: string, parts: seq<string>, encoding: Encoding)
    requires Clean(Observe(START, log)) && AllAllowed(log) && SubmittedSince(from, log, places, to, parts, encoding)
    requires forall j :: 0 <= j < |parts| ==> Carriable(parts[j], encoding)
    ensures forall j :: 0 <= j < |places| ==> SmsAt(log, places[j]) == SmsFor(Framing.Sanitized(to), parts[j], encoding)
  {
    forall j | 0 <= j < |places|
      ensures SmsAt(log, places[j]) == SmsFor(Framing.Sanitized(to), parts[j], encoding)
    {
      SubmittedIsSent(log, places[j], to, parts[j], encoding, RepliesAt(log, places[j]));
    }
  }

  /** After a submission that timed out or that the port was lost in, none follows; the
      last is answered, timed out or cut, and never given up early. */
  lemma NothingAfterSilence(served: Served, max: nat)
    requires ServedRight(served, max) && served.request.SendSms?
    ensures forall i :: 0 <= i < |served.tries| - 1 ==> Answered(served.tries[i])
    ensures served.tries != [] ==> Resolved(served.tries[|served.tries| - 1])
  {
    var SendSms(to, body) := served.request;
    NothingAfterTimeout(Readiness.Deliverable(served.before), to, body, max, ReplyOf(served.response), served.tries);
  }
}
