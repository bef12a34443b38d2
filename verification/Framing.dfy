/** The two halves of an SMS submission as bytes (`sms.rs`): the `AT+CMGS` header
    and the body closed by Ctrl-Z (3GPP TS 27.005, section 3.5.1). */
module Framing {
  import opened Text
  import opened Segmentation
  import opened Utf8
  import Ucs2

  const CTRL_Z: Byte := 0x1A
  const ESC: Byte := 0x1B
  const QUOTE: Byte := 0x22

  function Sanitized(to: string): (r: string)
    ensures forall i :: 0 <= i < |r| ==> IsDigit(r[i]) || r[i] == '+'
  {
    if to == "" then ""
    else (if IsDigit(to[0]) || to[0] == '+' then [to[0]] else "") + Sanitized(to[1..])
  }

  /** What a recipient's number may hold. */
  predicate Dialable(c: char) {
    c in "0123456789+"
  }

  /** Some characters of a string: those at `places`, in order. */
  predicate TakenFrom(s: string, places: seq<nat>, taken: string) {
    && |taken| == |places|
    && (forall k :: 0 <= k < |places| ==> places[k] < |s| && taken[k] == s[places[k]])
    && (forall j, k :: 0 <= j < k < |places| ==> places[j] < places[k])
  }

  /** A string's digits and plus signs, all of them and in order. */
  ghost predicate DialedDigits(to: string, dialed: string) {
    exists places: seq<nat> ::
      TakenFrom(to, places, dialed) && forall i: nat :: i in places <==> i < |to| && Dialable(to[i])
  }

  lemma TakenSnoc(s: string, c: char, places: seq<nat>, taken: string)
    requires TakenFrom(s, places, taken)
    ensures TakenFrom(s + [c], places, taken) && TakenFrom(s + [c], places + [|s|], taken + [c])
  {
  }

  lemma {:induction false} SanitizedSnoc(to: string, c: char)
    ensures Sanitized(to + [c]) == Sanitized(to) + if IsDigit(c) || c == '+' then [c] else ""
  {
    if to == "" {
      assert to + [c] == [c];
    } else {
      SanitizedSnoc(to[1..], c);
      assert (to + [c])[1..] == to[1..] + [c];
      Associate(if IsDigit(to[0]) || to[0] == '+' then [to[0]] else "", Sanitized(to[1..]),
                if IsDigit(c) || c == '+' then [c] else "");
    }
  }

  lemma {:induction false} SanitizedPlaces(to: string) returns (places: seq<nat>)
    ensures TakenFrom(to, places, Sanitized(to)) && forall i: nat :: i in places <==> i < |to| && Dialable(to[i])
  {
    places := [];
    if to != "" {
      var front, c := to[..|to| - 1], to[|to| - 1];
      places := SanitizedPlaces(front);
      SanitizedSnoc(front, c);
      TakenSnoc(front, c, places, Sanitized(front));
      assert front + [c] == to;
      if Dialable(c) {
        places := places + [|front|];
      }
    }
  }

  /** The address holds the recipient's digits and plus signs, all of them and in
      order. */
  lemma SanitizedIsDialed(to: string)
    ensures DialedDigits(to, Sanitized(to))
  {
    var places := SanitizedPlaces(to);
  }

  /** A recipient of digits and plus signs is dialed as given. */
  lemma {:induction false} NumberIsKept(to: string)
    requires forall i :: 0 <= i < |to| ==> Dialable(to[i])
    ensures Sanitized(to) == to
  {
    if to != "" {
      NumberIsKept(to[1..]);
    }
  }

  function Address(to: string, encoding: Encoding): string {
    match encoding
    case Gsm7 => Sanitized(to)
    case Wide => Ucs2.Encoded(Sanitized(to))
  }

  /** `build_cmgs_header`. */
  function CmgsHeader(to: string, encoding: Encoding): seq<Byte> {
    Encode("AT+CMGS=\"" + Address(to, encoding) + "\"\r")
  }

  function WithoutCtrlZ(bytes: seq<Byte>): seq<Byte> {
    if bytes == [] then []
    else (if bytes[0] == CTRL_Z then [] else [bytes[0]]) + WithoutCtrlZ(bytes[1..])
  }

  /** `build_cmgs_body`. */
  function CmgsBody(part: string, encoding: Encoding): seq<Byte> {
    (match encoding
     case Gsm7 => WithoutCtrlZ(Encode(part))
     case Wide => Encode(Ucs2.Encoded(part))) + [CTRL_Z]
  }

  // What a payload carries

  /** The text a payload carries, its last byte taken off: under GSM-7 the bytes are
      read as UTF-8, under UCS2 as hexadecimal digits. */
  function PayloadText(payload: seq<Byte>, encoding: Encoding): Option<string> {
    if payload == [] then None
    else
      var text := Decode(payload[..|payload| - 1]);
      match encoding
      case Gsm7 => text
      case Wide => (match text case None => None case Some(hex) => Ucs2.Decoded(hex))
  }

  lemma {:induction false} NothingToStrip(bytes: seq<Byte>)
    requires CTRL_Z !in bytes
    ensures WithoutCtrlZ(bytes) == bytes
  {
    if bytes != [] {
      NothingToStrip(bytes[1..]);
    }
  }

  lemma {:induction false} Stripped(bytes: seq<Byte>)
    ensures CTRL_Z !in WithoutCtrlZ(bytes)
  {
    if bytes != [] {
      Stripped(bytes[1..]);
    }
  }

  lemma CtrlZIsNotGsm7()
    ensures Gsm7Septets(CTRL_Z as char).None?
  {
  }

  /** Ctrl-Z is not in the GSM-7 alphabet, so such a text is sent whole. */
  lemma Gsm7HasNoCtrlZ(part: string)
    requires IsGsm7(part)
    ensures CTRL_Z !in Encode(part)
  {
    if CTRL_Z in Encode(part) {
      AsciiOnly(part, CTRL_Z);
      CtrlZIsNotGsm7();
    }
  }

  lemma HexHasNoCtrlZ(hex: string)
    requires Ucs2.AllHex(hex)
    ensures CTRL_Z !in Encode(hex)
  {
    if CTRL_Z in Encode(hex) {
      AsciiOnly(hex, CTRL_Z);
    }
  }

  /** Whatever the part, exactly one Ctrl-Z goes out, and it ends the payload. */
  lemma OneTerminator(part: string, encoding: Encoding)
    ensures var payload := CmgsBody(part, encoding);
              payload[|payload| - 1] == CTRL_Z && CTRL_Z !in payload[..|payload| - 1]
  {
    var payload := CmgsBody(part, encoding);
    match encoding
    case Gsm7 =>
      Stripped(Encode(part));
      assert payload[..|payload| - 1] == WithoutCtrlZ(Encode(part));
    case Wide =>
      HexHasNoCtrlZ(Ucs2.Encoded(part));
      assert payload[..|payload| - 1] == Encode(Ucs2.Encoded(part));
  }

  /** A part's payload carries the part: under GSM-7 when its alphabet can, under
      UCS2 unless it is empty. */
  lemma PayloadCarries(part: string, encoding: Encoding)
    requires encoding == Gsm7 ==> IsGsm7(part)
    requires encoding == Wide ==> part != ""
    ensures PayloadText(CmgsBody(part, encoding), encoding) == Some(part)
  {
    var payload := CmgsBody(part, encoding);
    match encoding
    case Gsm7 =>
      Gsm7HasNoCtrlZ(part);
      NothingToStrip(Encode(part));
      RoundTrip(part);
      assert payload[..|payload| - 1] == Encode(part);
    case Wide =>
      RoundTrip(Ucs2.Encoded(part));
      Ucs2.DecodeEncode(part);
      assert payload[..|payload| - 1] == Encode(Ucs2.Encoded(part));
  }

  /** The text of a payload read one character a byte, as a modem that knows only the
      ASCII half of its alphabet does. */
  function BytewiseText(payload: seq<Byte>): string {
    seq(|payload|, i requires 0 <= i < |payload| => payload[i] as char)
  }

  /** The reading as UTF-8 matters exactly for parts that are not ASCII. */
  lemma BytewiseCarries(part: string)
    requires IsGsm7(part)
    ensures BytewiseText(WithoutCtrlZ(Encode(part))) == part <==> IsAscii(part)
  {
    Gsm7HasNoCtrlZ(part);
    NothingToStrip(Encode(part));
    if IsAscii(part) {
      AsciiEncode(part);
    } else {
      LongerThanText(part);
    }
  }

  lemma {:induction false} LongerThanText(s: string)
    ensures |Encode(s)| >= |s| && (|Encode(s)| == |s| ==> IsAscii(s))
  {
    if s != "" {
      LongerThanText(s[1..]);
    }
  }

  lemma AddressIsAscii(to: string, encoding: Encoding)
    ensures forall i :: 0 <= i < |Address(to, encoding)| ==>
              var c := Address(to, encoding)[i]; c as int < 0x80 && c != '"' && c != '\r'
  {
    if encoding == Wide {
      var address := Address(to, encoding);
      assert forall i :: 0 <= i < |address| ==> Ucs2.IsHexDigit(address[i]);
    }
  }

  /** Whatever `to` holds, the header is one command: its only carriage return
      ends it, and the address sits between its only two quotes. */
  lemma HeaderIsOneCommand(to: string, encoding: Encoding)
    ensures var header, n := CmgsHeader(to, encoding), |Address(to, encoding)|;
              && |header| == n + 11
              && (forall i :: 0 <= i < |header| ==> (header[i] == CR <==> i == n + 10))
              && (forall i :: 0 <= i < |header| ==> (header[i] == QUOTE <==> i == 8 || i == n + 9))
  {
    var address := Address(to, encoding);
    var text := "AT+CMGS=\"" + address + "\"\r";
    AddressIsAscii(to, encoding);
    forall i | 0 <= i < |text|
      ensures text[i] as int < 0x80
      ensures text[i] == '\r' <==> i == |address| + 10
      ensures text[i] == '"' <==> i == 8 || i == |address| + 9
    {
      if 9 <= i < |address| + 9 {
        assert text[i] == address[i - 9];
      } else if i < 9 {
        assert text[i] == "AT+CMGS=\""[i];
      }
    }
    AsciiEncode(text);
  }
}
