/** What a text takes in a short message: its septets in the GSM 7-bit default alphabet
    (3GPP TS 23.038, sections 6.2.1 and 6.2.1.1), its UTF-16 units, and the bits that
    either fills of the 140 octets there are (3GPP TS 23.040, section 9.2.3.24). */
module Alphabet {
  import opened Text
  import opened Ucs2
  import opened Greedy
  import opened Segmentation

  const FIRST: string := "@\U{A3}$\U{A5}\U{E8}\U{E9}\U{F9}\U{EC}\U{F2}\U{C7}\n\U{D8}\U{F8}\r\U{C5}\U{E5}"
  const SECOND: string := "\U{394}_\U{3A6}\U{393}\U{39B}\U{3A9}\U{3A0}\U{3A8}\U{3A3}\U{398}\U{39E}"
  const THIRD: string := "\U{1B}\U{C6}\U{E6}\U{DF}\U{C9}"
  const SIGNS: string := " !\"#\U{A4}%&'()*+,-./0123456789:;<=>?"
  const UPPER: string := "ABCDEFGHIJKLMNOPQRSTUVWXYZ"
  const FIFTH: string := "\U{C4}\U{D6}\U{D1}\U{DC}\U{A7}\U{BF}"
  const LOWER: string := "abcdefghijklmnopqrstuvwxyz"
  const LAST: string := "\U{E4}\U{F6}\U{F1}\U{FC}\U{E0}"

  /** The default alphabet, from septet 0 on; septet 27 escapes to the extension. */
  const TABLE: string := FIRST + SECOND + THIRD + SIGNS + "\U{A1}" + UPPER + FIFTH + LOWER + LAST

  const ESCAPE: nat := 27

  /** The extension, by septet. */
  const EXTENSION: map<nat, char> :=
    map[20 := '^', 40 := '{', 41 := '}', 47 := '\\', 60 := '[', 61 := '~', 62 := ']', 64 := '|', 101 := '\U{20AC}']

  function ExtensionOf(c: char): nat {
    match c
    case '^' => 20
    case '{' => 40
    case '}' => 41
    case '\\' => 47
    case '[' => 60
    case '~' => 61
    case ']' => 62
    case '|' => 64
    case _ => 101
  }

  /** The septets of a character of the alphabet. */
  function CharSeptets(c: char): seq<nat> {
    if c in EXTENSION.Values then [ESCAPE, ExtensionOf(c)] else [IndexOf(TABLE, c)]
  }

  function Septets(s: string): seq<nat> {
    if s == "" then [] else CharSeptets(s[0]) + Septets(s[1..])
  }

  /** Reading septets. */
  function FromSeptets(septets: seq<nat>): Option<string>
    decreases |septets|
  {
    if septets == [] then Some("")
    else if septets[0] == ESCAPE then
      if |septets| > 1 && septets[1] in EXTENSION then
        (match FromSeptets(septets[2..]) case Some(rest) => Some([EXTENSION[septets[1]]] + rest) case None => None)
      else None
    else if septets[0] < |TABLE| then
      (match FromSeptets(septets[1..]) case Some(rest) => Some([TABLE[septets[0]]] + rest) case None => None)
    else None
  }

  lemma TableSize()
    ensures |TABLE| == 128 && TABLE[ESCAPE] == '\U{1B}'
  {
  }

  lemma ExtensionIs(c: char)
    ensures c in EXTENSION.Values <==> c in "^{}\\[~]|\U{20AC}"
    ensures c in EXTENSION.Values ==> ExtensionOf(c) in EXTENSION && EXTENSION[ExtensionOf(c)] == c
  {
    assert EXTENSION[20] == '^' && EXTENSION[40] == '{' && EXTENSION[41] == '}' && EXTENSION[47] == '\\';
    assert EXTENSION[60] == '[' && EXTENSION[61] == '~' && EXTENSION[62] == ']' && EXTENSION[64] == '|';
    assert EXTENSION[101] == '\U{20AC}';
  }

  lemma InTable(c: char)
    ensures c in TABLE <==> || c in FIRST || c in SECOND || c in THIRD || c in SIGNS || c == '\U{A1}'
                            || c in UPPER || c in FIFTH || c in LOWER || c in LAST
  {
  }

  lemma Letters(c: char)
    ensures c in UPPER <==> 'A' <= c <= 'Z'
    ensures c in LOWER <==> 'a' <= c <= 'z'
  {
  }

  lemma Signs(c: char)
    ensures c in SIGNS || c == '$' <==> ' ' <= c <= '?' || c == '\U{A4}'
  {
  }

  /** The accented letters, the Greek ones and the rest. */
  predicate IsOther(c: char) {
    || c in FIRST || c in SECOND || (c in THIRD && c != '\U{1B}') || c == '\U{A1}' || c in FIFTH || c in LAST
    || c == '\U{A4}'
  }

  lemma Others(c: char)
    requires !(' ' <= c <= '?' || 'A' <= c <= 'Z' || 'a' <= c <= 'z' || c in "@\n\r_")
    ensures Gsm7Septets(c) == Some(1) <==> IsOther(c)
  {
    if c as int < 0x80 {
      assert !IsOther(c);
    }
  }

  /** The segmenter's alphabet is the standard's. */
  lemma AlphabetIs(c: char)
    ensures Gsm7Septets(c) == Some(2) <==> c in EXTENSION.Values
    ensures Gsm7Septets(c) == Some(1) <==> c in TABLE && c != '\U{1B}'
  {
    ExtensionIs(c);
    InTable(c);
    Letters(c);
    Signs(c);
    if !(' ' <= c <= '?' || 'A' <= c <= 'Z' || 'a' <= c <= 'z' || c in "@\n\r_") {
      Others(c);
    }
  }

  // Texts

  lemma OneCharacter(c: char)
    requires Gsm7Septets(c).Some?
    ensures |CharSeptets(c)| == Gsm7Septets(c).value
    ensures |CharSeptets(c)| == 2 ==>
              CharSeptets(c)[0] == ESCAPE && CharSeptets(c)[1] in EXTENSION && EXTENSION[CharSeptets(c)[1]] == c
    ensures |CharSeptets(c)| == 1 ==>
              CharSeptets(c)[0] < |TABLE| && CharSeptets(c)[0] != ESCAPE && TABLE[CharSeptets(c)[0]] == c
  {
    AlphabetIs(c);
    ExtensionIs(c);
    TableSize();
  }

  /** A text of the alphabet is read back from its septets, and they are as many as the
      segmenter takes it to weigh. */
  lemma {:induction false} SeptetsReadBack(s: string)
    requires IsGsm7(s)
    ensures FromSeptets(Septets(s)) == Some(s) && |Septets(s)| == Weight(s, Gsm7Cost)
  {
    if s != "" {
      SeptetsReadBack(s[1..]);
      WeightCons(s, Gsm7Cost);
      OneMoreRead(s[0], Septets(s[1..]), s[1..]);
      assert [s[0]] + s[1..] == s;
    }
  }

  lemma OneMoreRead(c: char, septets: seq<nat>, rest: string)
    requires Gsm7Septets(c).Some? && FromSeptets(septets) == Some(rest)
    ensures FromSeptets(CharSeptets(c) + septets) == Some([c] + rest)
    ensures |CharSeptets(c)| == Gsm7Cost(c)
  {
    var all := CharSeptets(c) + septets;
    OneCharacter(c);
    assert all[|CharSeptets(c)|..] == septets;
  }

  lemma WeightCons(s: string, cost: char -> nat)
    requires s != ""
    ensures Weight(s, cost) == cost(s[0]) + Weight(s[1..], cost)
  {
    WeightConcat([s[0]], s[1..], cost);
    assert s == [s[0]] + s[1..] && [s[0]][..0] == "";
  }

  /** A text weighs as many UTF-16 units as it has. */
  lemma {:induction false} UnitsAreWeighed(s: string)
    ensures |Utf16(s)| == Weight(s, LenUtf16)
  {
    if s != "" {
      UnitsAreWeighed(s[1..]);
      WeightCons(s, LenUtf16);
    }
  }

  // What fits

  const USER_DATA_BITS: nat := 8 * 140

  /** The header of a part of several: six octets, in septets seven. */
  function HeaderBits(several: bool, encoding: Encoding): nat {
    if !several then 0 else match encoding case Gsm7 => 7 * 7 case Wide => 8 * 6
  }

  /** The bits a part takes. */
  function BitsOf(part: string, encoding: Encoding): nat {
    match encoding case Gsm7 => 7 * |Septets(part)| case Wide => 16 * |Utf16(part)|
  }

  predicate FitsMessage(part: string, encoding: Encoding, several: bool) {
    BitsOf(part, encoding) + HeaderBits(several, encoding) <= USER_DATA_BITS
  }

  lemma WeightIsBits(part: string, encoding: Encoding)
    requires encoding == Gsm7 ==> IsGsm7(part)
    ensures BitsOf(part, encoding) == (if encoding == Gsm7 then 7 else 16) * Weight(part, CostOf(encoding))
  {
    if encoding == Gsm7 {
      SeptetsReadBack(part);
    } else {
      UnitsAreWeighed(part);
    }
  }

  /** The segmenter's budgets are just what fits in a message. */
  lemma BudgetsAreWhatFits(part: string, encoding: Encoding)
    requires encoding == Gsm7 ==> IsGsm7(part)
    ensures FitsMessage(part, encoding, false) <==> Weight(part, CostOf(encoding)) <= SingleMax(encoding)
    ensures FitsMessage(part, encoding, true) <==> Weight(part, CostOf(encoding)) <= MultiMax(encoding)
  {
    WeightIsBits(part, encoding);
  }

  /** Every segment fits in a short message, its header for several included; and there
      is one segment exactly when the body fits without. */
  lemma SegmentsFit(body: string, segments: seq<Segment>)
    requires Segmented(body) == Segments(segments)
    ensures forall i :: 0 <= i < |segments| ==> FitsMessage(segments[i].text, MessageEncoding(body), |segments| > 1)
    ensures |segments| == 1 <==> FitsMessage(body, MessageEncoding(body), false)
  {
    var encoding, parts := MessageEncoding(body), Texts(segments);
    SegmentsAreFaithful(body, segments);
    PartsInAlphabet(body, parts, encoding);
    BudgetsAreWhatFits(body, encoding);
    forall i | 0 <= i < |segments|
      ensures FitsMessage(segments[i].text, encoding, |segments| > 1)
    {
      BudgetsAreWhatFits(parts[i], encoding);
      if |segments| == 1 {
        ConcatOne(parts[0]);
        assert parts == [parts[0]];
      }
    }
  }

  lemma PartsInAlphabet(body: string, parts: seq<string>, encoding: Encoding)
    requires Concat(parts) == body && encoding == MessageEncoding(body)
    ensures encoding == Gsm7 ==> forall i :: 0 <= i < |parts| ==> IsGsm7(parts[i])
  {
    if encoding == Gsm7 {
      PartsOfGsm7(parts);
    }
  }
}
