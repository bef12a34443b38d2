/** Encoding-aware segmentation of a message body (`sms.rs`). The alphabet is
    the GSM 7-bit default alphabet and its extension table (3GPP TS 23.038,
    section 6.2.1); everything else travels as UCS2. */
module Segmentation {
  import opened Text
  import opened Ucs2
  import opened Greedy

  datatype Encoding = Gsm7 | Wide

  /** `number` is the source's `u8` field `seq`. */
  datatype Segment = Segment(number: nat, text: string)

  datatype Outcome = Segments(segments: seq<Segment>) | TooManyParts(required: nat)

  datatype BodyCheck = Accepted | Empty | TooLong

  const MAX_BODY_CHARS: nat := 1530
  const MAX_PARTS: nat := 10

  function Gsm7Septets(c: char): Option<nat> {
    if c in "^{}\\[~]|\U{20AC}" then Some(2)
    else if
      || c in "@\n\r_" || ' ' <= c <= '?' || 'A' <= c <= 'Z' || 'a' <= c <= 'z'
      || c in "\U{A3}\U{A5}\U{E8}\U{E9}\U{F9}\U{EC}\U{F2}\U{C7}\U{D8}\U{F8}\U{C5}\U{E5}"
      || c in "\U{394}\U{3A6}\U{393}\U{39B}\U{3A9}\U{3A0}\U{3A8}\U{3A3}\U{398}\U{39E}"
      || c in "\U{C6}\U{E6}\U{DF}\U{C9}\U{A4}\U{A1}\U{C4}\U{D6}\U{D1}\U{DC}\U{A7}\U{BF}"
      || c in "\U{E4}\U{F6}\U{F1}\U{FC}\U{E0}"
    then Some(1)
    else None
  }

  predicate IsGsm7(s: string) {
    forall i :: 0 <= i < |s| ==> Gsm7Septets(s[i]).Some?
  }

  function MessageEncoding(body: string): Encoding {
    if IsGsm7(body) then Gsm7 else Wide
  }

  function Gsm7Cost(c: char): nat {
    match Gsm7Septets(c)
    case Some(n) => n
    case None => 1
  }

  /** Septets under GSM-7, UTF-16 code units under UCS2. */
  function CostOf(encoding: Encoding): char -> nat {
    match encoding
    case Gsm7 => Gsm7Cost
    case Wide => LenUtf16
  }

  function SingleMax(encoding: Encoding): nat {
    match encoding case Gsm7 => 160 case Wide => 70
  }

  function MultiMax(encoding: Encoding): nat {
    match encoding case Gsm7 => 153 case Wide => 67
  }

  lemma CostBounded(encoding: Encoding)
    ensures Bounded(CostOf(encoding), MultiMax(encoding))
  {
  }

  // What segmentation returns

  function Numbered(parts: seq<string>): (segments: seq<Segment>)
    ensures |segments| == |parts|
    ensures forall i :: 0 <= i < |parts| ==> segments[i] == Segment((i + 1) % 256, parts[i])
  {
    seq(|parts|, i requires 0 <= i < |parts| => Segment((i + 1) % 256, parts[i]))
  }

  function Texts(segments: seq<Segment>): (parts: seq<string>)
    ensures |parts| == |segments|
    ensures forall i :: 0 <= i < |parts| ==> parts[i] == segments[i].text
  {
    seq(|segments|, i requires 0 <= i < |segments| => segments[i].text)
  }

  function SegmentsBy(body: string, cost: char -> nat, singleMax: nat, multiMax: nat): Outcome
    requires Bounded(cost, multiMax)
  {
    if Weight(body, cost) <= singleMax then Segments([Segment(1, body)])
    else
      var parts := Parts(body, cost, multiMax);
      if |parts| > MAX_PARTS then TooManyParts(|parts|) else Segments(Numbered(parts))
  }

  function Segmented(body: string): Outcome {
    var encoding := MessageEncoding(body);
    CostBounded(encoding);
    SegmentsBy(body, CostOf(encoding), SingleMax(encoding), MultiMax(encoding))
  }

  /** Optimality over the single-part budget: segmentation fails exactly when ten
      parts cannot do, and reports or returns the least number that can. */
  lemma SegmentationIsOptimal(body: string, n: nat)
    requires Weight(body, CostOf(MessageEncoding(body))) > SingleMax(MessageEncoding(body))
    requires Least(n, body, CostOf(MessageEncoding(body)), MultiMax(MessageEncoding(body)))
    ensures n > MAX_PARTS <==> Segmented(body).TooManyParts?
    ensures n > MAX_PARTS ==> Segmented(body).required == n
    ensures n <= MAX_PARTS ==> |Segmented(body).segments| == n
  {
    var encoding := MessageEncoding(body);
    CostBounded(encoding);
    PartsAreLeast(body, n, CostOf(encoding), MultiMax(encoding));
  }

  lemma SegmentTexts(body: string, segments: seq<Segment>, cost: char -> nat, singleMax: nat, multiMax: nat)
    requires Bounded(cost, multiMax) && SegmentsBy(body, cost, singleMax, multiMax) == Segments(segments)
    ensures Texts(segments) == if Weight(body, cost) <= singleMax then [body] else Parts(body, cost, multiMax)
    ensures |segments| <= MAX_PARTS
    ensures forall i :: 0 <= i < |segments| ==> segments[i].number == i + 1
  {
    if Weight(body, cost) <= singleMax {
      assert segments == [Segment(1, body)];
      assert Texts(segments) == [body];
    } else {
      var parts := Parts(body, cost, multiMax);
      assert segments == Numbered(parts);
      assert Texts(segments) == parts;
    }
  }

  lemma FaithfulBy(body: string, segments: seq<Segment>, cost: char -> nat, singleMax: nat, multiMax: nat)
    requires Bounded(cost, multiMax) && multiMax <= singleMax
              && SegmentsBy(body, cost, singleMax, multiMax) == Segments(segments)
    ensures 1 <= |segments| && Concat(Texts(segments)) == body
    ensures |segments| == 1 <==> Weight(body, cost) <= singleMax
    ensures |segments| > 1 ==> Fit(Texts(segments), cost, multiMax)
    ensures body != "" ==> forall i :: 0 <= i < |segments| ==> Texts(segments)[i] != ""
  {
    SegmentTexts(body, segments, cost, singleMax, multiMax);
    if Weight(body, cost) <= singleMax {
      ConcatOne(body);
    } else {
      PartsFaithful(body, cost, singleMax, multiMax);
    }
  }

  lemma PartsFaithful(body: string, cost: char -> nat, singleMax: nat, multiMax: nat)
    requires Bounded(cost, multiMax) && multiMax <= singleMax < Weight(body, cost)
    ensures var parts := Parts(body, cost, multiMax);
              && |parts| > 1 && Concat(parts) == body && Fit(parts, cost, multiMax)
              && forall i :: 0 <= i < |parts| ==> parts[i] != ""
  {
    var parts := Parts(body, cost, multiMax);
    PartsSplit(body, cost, multiMax);
    forall i | 0 <= i < |parts|
      ensures parts[i] != ""
    {
      PartsNonEmpty(body, i, cost, multiMax);
    }
    ConcatWeight(parts, cost, multiMax);
  }

  /** On success the parts put together are the body, they are numbered from 1,
      there is one exactly when the single-part budget allows it, several fit the
      multipart budget each, and none is empty unless the body is. */
  lemma SegmentsAreFaithful(body: string, segments: seq<Segment>)
    requires Segmented(body) == Segments(segments)
    ensures 1 <= |segments| <= MAX_PARTS
    ensures Concat(Texts(segments)) == body
    ensures forall i :: 0 <= i < |segments| ==> segments[i].number == i + 1
    ensures |segments| == 1 <==> Weight(body, CostOf(MessageEncoding(body))) <= SingleMax(MessageEncoding(body))
    ensures |segments| > 1 ==> Fit(Texts(segments), CostOf(MessageEncoding(body)), MultiMax(MessageEncoding(body)))
    ensures body != "" ==> forall i :: 0 <= i < |segments| ==> segments[i].text != ""
  {
    var encoding := MessageEncoding(body);
    CostBounded(encoding);
    SegmentTexts(body, segments, CostOf(encoding), SingleMax(encoding), MultiMax(encoding));
    FaithfulBy(body, segments, CostOf(encoding), SingleMax(encoding), MultiMax(encoding));
  }

  /** `segments.push`, numbered by the length so far as a `u8`. */
  function Push(segments: seq<Segment>, text: string): seq<Segment> {
    segments + [Segment((|segments| + 1) % 256, text)]
  }

  lemma PushNumbered(parts: seq<string>, text: string)
    ensures Push(Numbered(parts), text) == Numbered(parts + [text])
  {
  }

  /** Where the scan stands before character `i`: `parts` are final, and the part
      being filled starts at `start` and weighs `current`. */
  ghost predicate Scanned(body: string, parts: seq<string>, start: nat, i: nat, current: nat,
                          cost: char -> nat, max: nat)
    requires Bounded(cost, max)
  {
    && start <= i <= |body| && (i > 0 ==> start < i)
    && current == Weight(body[start..i], cost) <= max
    && parts + Parts(body[start..], cost, max) == Parts(body, cost, max)
  }

  lemma ScanKeeps(body: string, parts: seq<string>, start: nat, i: nat, current: nat,
                  cost: char -> nat, max: nat)
    requires Bounded(cost, max) && i < |body| && Scanned(body, parts, start, i, current, cost, max)
    requires current + cost(body[i]) <= max
    ensures Scanned(body, parts, start, i + 1, current + cost(body[i]), cost, max)
  {
    assert body[start..i + 1][..i - start] == body[start..i];
  }

  lemma ScanCuts(body: string, parts: seq<string>, start: nat, i: nat, current: nat,
                 cost: char -> nat, max: nat)
    requires Bounded(cost, max) && i < |body| && Scanned(body, parts, start, i, current, cost, max)
    requires current + cost(body[i]) > max
    ensures Scanned(body, parts + [body[start..i]], i, i + 1, cost(body[i]), cost, max)
  {
    assert body[start..i + 1][..i - start] == body[start..i];
    Cut(body, start, i, cost, max);
    assert parts + ([body[start..i]] + Parts(body[i..], cost, max))
        == parts + [body[start..i]] + Parts(body[i..], cost, max);
    assert body[i..i + 1][..0] == "";
  }

  lemma ScanEnds(body: string, parts: seq<string>, start: nat, current: nat,
                 cost: char -> nat, max: nat)
    requires Bounded(cost, max) && body != "" && Scanned(body, parts, start, |body|, current, cost, max)
    ensures parts + [body[start..]] == Parts(body, cost, max)
  {
    assert body[|body|..] == "" && body[start..|body|] == body[start..];
    Cut(body, start, |body|, cost, max);
  }

  /** `segment_by`: one pass over the characters, cutting where the next would
      overflow the part. */
  method SegmentBy(body: string, cost: char -> nat, singleMax: nat, multiMax: nat)
    returns (outcome: Outcome)
    requires Bounded(cost, multiMax)
    ensures outcome == SegmentsBy(body, cost, singleMax, multiMax)
  {
    if Weight(body, cost) <= singleMax {
      return Segments([Segment(1, body)]);
    }

    var segments: seq<Segment> := [];
    ghost var parts: seq<string> := [];
    var start: nat, current: nat := 0, 0;
    for i := 0 to |body|
      invariant Scanned(body, parts, start, i, current, cost, multiMax)
      invariant segments == Numbered(parts)
    {
      var clen := cost(body[i]);
      if current + clen > multiMax {
        ScanCuts(body, parts, start, i, current, cost, multiMax);
        PushNumbered(parts, body[start..i]);
        segments, parts := Push(segments, body[start..i]), parts + [body[start..i]];
        start, current := i, 0;
      } else {
        ScanKeeps(body, parts, start, i, current, cost, multiMax);
      }
      current := current + clen;
    }

    ScanEnds(body, parts, start, current, cost, multiMax);
    PushNumbered(parts, body[start..]);
    segments := Push(segments, body[start..]);
    if |segments| > MAX_PARTS {
      return TooManyParts(|segments|);
    }
    return Segments(segments);
  }

  // The ASCII fast path

  predicate IsSimple(c: char) {
    c in "\n\r@_" || ' ' <= c <= '?' || 'A' <= c <= 'Z' || 'a' <= c <= 'z'
  }

  /** `simple_ascii_gsm7_len`: such a body has as many septets as characters. */
  function SimpleLength(s: string): Option<nat> {
    if forall i :: 0 <= i < |s| ==> IsSimple(s[i]) then Some(|s|) else None
  }

  lemma SimpleCost(c: char)
    requires IsSimple(c)
    ensures Gsm7Septets(c) == Some(1)
  {
  }

  lemma SimpleIsGsm7(s: string)
    requires SimpleLength(s).Some?
    ensures IsGsm7(s)
    ensures Weight(s, Gsm7Cost) == |s|
  {
    forall i | 0 <= i < |s|
      ensures Gsm7Septets(s[i]) == Some(1)
    {
      SimpleCost(s[i]);
    }
    UniformWeight(s, 1, Gsm7Cost);
  }

  function DivCeil(n: nat, d: nat): nat
    requires d > 0
  {
    (n + d - 1) / d
  }

  function ChunkEnd(start: nat, length: nat): nat {
    if start + 153 < length then start + 153 else length
  }

  /** A simple body's greedy parts are its 153-character chunks. */
  lemma SimpleCut(s: string, start: nat)
    requires SimpleLength(s).Some? && start < |s| && Bounded(Gsm7Cost, 153)
    ensures Parts(s[start..], Gsm7Cost, 153)
         == [s[start..ChunkEnd(start, |s|)]] + Parts(s[ChunkEnd(start, |s|)..], Gsm7Cost, 153)
  {
    var end := ChunkEnd(start, |s|);
    SimpleIsGsm7(s[start..end]);
    if end < |s| {
      SimpleIsGsm7(s[start..end + 1]);
    }
    Cut(s, start, end, Gsm7Cost, 153);
  }

  lemma ChunkMore(parts: seq<string>, s: string, start: nat)
    requires SimpleLength(s).Some? && start < |s| && Bounded(Gsm7Cost, 153)
    ensures parts + Parts(s[start..], Gsm7Cost, 153)
         == parts + [s[start..ChunkEnd(start, |s|)]] + Parts(s[ChunkEnd(start, |s|)..], Gsm7Cost, 153)
  {
    SimpleCut(s, start);
  }

  lemma {:induction false} SimpleCount(s: string)
    requires SimpleLength(s).Some? && Bounded(Gsm7Cost, 153)
    ensures |Parts(s, Gsm7Cost, 153)| == DivCeil(|s|, 153)
    decreases |s|
  {
    if s != "" {
      SimpleCut(s, 0);
      assert s[0..] == s;
      if |s| > 153 {
        SimpleCount(s[153..]);
      } else {
        assert s[|s|..] == "";
      }
    }
  }

  /** `segment_simple_ascii_gsm7`: fixed chunks, and yet the very result of the
      general segmenter with the GSM-7 cost, the error and its count included. */
  method SegmentSimple(body: string, length: nat) returns (outcome: Outcome)
    requires SimpleLength(body) == Some(length)
    ensures Bounded(Gsm7Cost, 153) && outcome == SegmentsBy(body, Gsm7Cost, 160, 153)
  {
    CostBounded(Gsm7);
    SimpleIsGsm7(body);
    if length <= 160 {
      return Segments([Segment(1, body)]);
    }
    SimpleCount(body);
    var required := DivCeil(length, 153);
    if required > MAX_PARTS {
      return TooManyParts(required);
    }

    var segments: seq<Segment> := [];
    ghost var parts: seq<string> := [];
    ghost var all := Parts(body, Gsm7Cost, 153);
    var start := 0;
    while start < length
      invariant 0 <= start <= length
      invariant segments == Numbered(parts)
      invariant parts + Parts(body[start..], Gsm7Cost, 153) == all
    {
      var chunk := body[start..ChunkEnd(start, length)];
      ChunkMore(parts, body, start);
      PushNumbered(parts, chunk);
      segments, parts := Push(segments, chunk), parts + [chunk];
      start := ChunkEnd(start, length);
    }
    assert body[start..] == "" && parts == all;
    return Segments(segments);
  }

  /** `segment_message`, both paths. */
  method SegmentMessage(body: string) returns (outcome: Outcome)
    ensures outcome == Segmented(body)
  {
    var simple := SimpleLength(body);
    if simple.Some? {
      SimpleIsGsm7(body);
      outcome := SegmentSimple(body, simple.value);
    } else {
      var encoding := MessageEncoding(body);
      CostBounded(encoding);
      outcome := SegmentBy(body, CostOf(encoding), SingleMax(encoding), MultiMax(encoding));
    }
  }

  // Segmentation against validation

  function ValidateBody(body: string): BodyCheck {
    if |body| == 0 then Empty else if |body| > MAX_BODY_CHARS then TooLong else Accepted
  }

  /** A simple body needs too many parts exactly when validation already turned
      it away for its length. */
  lemma SimpleBodiesNeverRefused(body: string)
    requires SimpleLength(body).Some?
    ensures Segmented(body).TooManyParts? <==> ValidateBody(body) == TooLong
  {
    CostBounded(Gsm7);
    SimpleIsGsm7(body);
    SimpleCount(body);
  }

  lemma CostAtMostTwo(encoding: Encoding, c: char)
    ensures CostOf(encoding)(c) <= 2
  {
  }

  /** The general segmenter by weight: ten parts always do for a body that weighs at
      most one unit over ten parts that each miss one, and never for one that weighs
      more than ten full parts. */
  lemma SegmentsByWeight(body: string, cost: char -> nat, singleMax: nat, multiMax: nat)
    requires Bounded(cost, multiMax) && multiMax >= 1 && singleMax <= MAX_PARTS * multiMax
    requires forall i :: 0 <= i < |body| ==> cost(body[i]) <= 2
    ensures Weight(body, cost) <= MAX_PARTS * (multiMax - 1) + 1 ==>
              SegmentsBy(body, cost, singleMax, multiMax).Segments?
    ensures Weight(body, cost) > MAX_PARTS * multiMax ==> SegmentsBy(body, cost, singleMax, multiMax).TooManyParts?
  {
    var parts := Parts(body, cost, multiMax);
    if |parts| > MAX_PARTS {
      PartsWeigh(body, MAX_PARTS, cost, multiMax);
    } else {
      PartsSplit(body, cost, multiMax);
      ConcatWeight(parts, cost, multiMax);
      NoMore(|parts|, MAX_PARTS, multiMax);
    }
  }

  lemma SegmentsByCount(body: string, u: nat, n: nat, cost: char -> nat, singleMax: nat, multiMax: nat)
    requires Bounded(cost, multiMax) && 1 <= u <= 2 && n == multiMax / u && singleMax <= MAX_PARTS * n
    requires forall i :: 0 <= i < |body| ==> cost(body[i]) == u
    ensures SegmentsBy(body, cost, singleMax, multiMax).TooManyParts? <==> |body| > MAX_PARTS * n
  {
    UniformWeight(body, u, cost);
    UniformParts(body, MAX_PARTS, n, u, cost, multiMax);
  }

  /** Ten parts always do for a body that weighs at most one unit over ten parts that
      each miss one, and never for one that weighs more than ten full parts. */
  lemma WeightBounds(body: string, encoding: Encoding)
    requires encoding == MessageEncoding(body)
    ensures Weight(body, CostOf(encoding)) <= MAX_PARTS * (MultiMax(encoding) - 1) + 1 ==> Segmented(body).Segments?
    ensures Weight(body, CostOf(encoding)) > MAX_PARTS * MultiMax(encoding) ==> Segmented(body).TooManyParts?
  {
    CostBounded(encoding);
    forall i | 0 <= i < |body|
      ensures CostOf(encoding)(body[i]) <= 2
    {
      CostAtMostTwo(encoding, body[i]);
    }
    SegmentsByWeight(body, CostOf(encoding), SingleMax(encoding), MultiMax(encoding));
  }

  /** For a body whose characters all cost `u`, the number of characters decides. */
  lemma UniformBodies(body: string, encoding: Encoding, u: nat)
    requires encoding == MessageEncoding(body) && 1 <= u <= 2
    requires forall i :: 0 <= i < |body| ==> CostOf(encoding)(body[i]) == u
    ensures Segmented(body).TooManyParts? <==> |body| > MAX_PARTS * (MultiMax(encoding) / u)
  {
    CostBounded(encoding);
    SegmentsByCount(body, u, MultiMax(encoding) / u, CostOf(encoding), SingleMax(encoding), MultiMax(encoding));
  }

  /** Validation and segmentation agree on every body of one-septet characters. */
  lemma AcceptedIsSegmented(body: string)
    requires forall i :: 0 <= i < |body| ==> Gsm7Septets(body[i]) == Some(1)
    ensures Segmented(body).TooManyParts? <==> ValidateBody(body) == TooLong
    ensures ValidateBody(body) == Empty <==> body == ""
  {
    UniformBodies(body, Gsm7, 1);
  }

  lemma Brackets(n: nat) returns (body: string)
    ensures |body| == n && MessageEncoding(body) == Gsm7 && Weight(body, Gsm7Cost) == 2 * n
    ensures Segmented(body).TooManyParts? <==> n > 760
  {
    body := seq(n, _ => '[');
    UniformWeight(body, 2, Gsm7Cost);
    UniformBodies(body, Gsm7, 2);
  }

  lemma Letters(n: nat) returns (body: string)
    ensures |body| == n && MessageEncoding(body) == Gsm7 && Weight(body, Gsm7Cost) == n
    ensures Segmented(body).TooManyParts? <==> n > 1530
  {
    body := seq(n, _ => 'a');
    UniformWeight(body, 1, Gsm7Cost);
    UniformBodies(body, Gsm7, 1);
  }

  /** Between the two bounds the weight does not decide: of two bodies that weigh 1530
      septets, both accepted by validation, one is segmented and one is not. */
  lemma WeightAloneDoesNotDecide() returns (a: string, b: string)
    ensures ValidateBody(a) == Accepted && ValidateBody(b) == Accepted
    ensures MessageEncoding(a) == Gsm7 && MessageEncoding(b) == Gsm7
    ensures Weight(a, Gsm7Cost) == Weight(b, Gsm7Cost) == MAX_PARTS * MultiMax(Gsm7)
    ensures Segmented(a).Segments? && Segmented(b).TooManyParts?
  {
    a := Letters(1530);
    b := Brackets(765);
  }

  /** So validation does not ensure segmentation: a body one septet over the bound
      within which it does is accepted and needs an eleventh part. */
  lemma AcceptedButTooManyParts() returns (body: string)
    ensures ValidateBody(body) == Accepted && Segmented(body).TooManyParts?
    ensures MessageEncoding(body) == Gsm7 && Weight(body, Gsm7Cost) == MAX_PARTS * (MultiMax(Gsm7) - 1) + 2
  {
    body := Brackets(761);
  }

  lemma {:induction false} PartsOfGsm7(parts: seq<string>)
    requires IsGsm7(Concat(parts))
    ensures forall i :: 0 <= i < |parts| ==> IsGsm7(parts[i])
  {
    if parts != [] {
      var whole := Concat(parts);
      assert forall k :: 0 <= k < |parts[0]| ==> parts[0][k] == whole[k];
      assert forall k :: 0 <= k < |Concat(parts[1..])| ==> Concat(parts[1..])[k] == whole[k + |parts[0]|];
      PartsOfGsm7(parts[1..]);
    }
  }
}
