/** The UCS2 text codec of `sms.rs`: UTF-16 (RFC 2781, sections 2.1 and 2.2)
    written big-endian as four uppercase hexadecimal digits a code unit. */
module Ucs2 {
  import opened Text

  type Unit = n: int | 0 <= n < 0x1_0000

  predicate IsHigh(u: Unit) {
    0xD800 <= u < 0xDC00
  }

  predicate IsLow(u: Unit) {
    0xDC00 <= u < 0xE000
  }

  function LenUtf16(c: char): (n: nat)
    ensures 1 <= n <= 2
  {
    if c as int < 0x1_0000 then 1 else 2
  }

  function CharUnits(c: char): (units: seq<Unit>)
    ensures |units| == LenUtf16(c)
  {
    var n := c as int;
    if n < 0x1_0000 then [n]
    else [0xD800 + (n - 0x1_0000) / 0x400, 0xDC00 + (n - 0x1_0000) % 0x400]
  }

  function Utf16(s: string): seq<Unit> {
    if s == "" then [] else CharUnits(s[0]) + Utf16(s[1..])
  }

  /** The scalar a surrogate pair stands for. */
  function Combine(high: Unit, low: Unit): (c: char)
    requires IsHigh(high) && IsLow(low)
    ensures 0x1_0000 <= c as int && CharUnits(c) == [high, low]
  {
    (0x1_0000 + (high - 0xD800) * 0x400 + (low - 0xDC00)) as char
  }

  function FromUtf16(units: seq<Unit>): Option<string> {
    if units == [] then Some("")
    else if !IsHigh(units[0]) && !IsLow(units[0]) then
      match FromUtf16(units[1..])
      case None => None
      case Some(rest) => Some([units[0] as char] + rest)
    else if IsHigh(units[0]) && |units| > 1 && IsLow(units[1]) then
      match FromUtf16(units[2..])
      case None => None
      case Some(rest) => Some([Combine(units[0], units[1])] + rest)
    else None
  }

  /** Every surrogate has its other half next to it. */
  ghost predicate Paired(units: seq<Unit>) {
    && (forall i :: 0 <= i < |units| && IsHigh(units[i]) ==> i + 1 < |units| && IsLow(units[i + 1]))
    && (forall i :: 0 <= i < |units| && IsLow(units[i]) ==> i > 0 && IsHigh(units[i - 1]))
  }

  lemma {:induction false} FromUtf16Total(units: seq<Unit>)
    ensures FromUtf16(units).Some? <==> Paired(units)
  {
    if units == [] {
    } else if !IsHigh(units[0]) && !IsLow(units[0]) {
      var rest := units[1..];
      FromUtf16Total(rest);
      assert forall i :: 0 <= i < |rest| ==> rest[i] == units[i + 1];
      if Paired(units) {
        assert Paired(rest);
      }
      if Paired(rest) {
        assert forall i :: 0 < i < |units| ==> units[i] == rest[i - 1];
        assert Paired(units);
      }
    } else if IsHigh(units[0]) && |units| > 1 && IsLow(units[1]) {
      var rest := units[2..];
      FromUtf16Total(rest);
      assert forall i :: 0 <= i < |rest| ==> rest[i] == units[i + 2];
      if Paired(units) {
        assert Paired(rest);
      }
      if Paired(rest) {
        assert forall i :: 1 < i < |units| ==> units[i] == rest[i - 2];
        assert Paired(units);
      }
    }
  }

  lemma {:induction false} Utf16RoundTrip(s: string)
    ensures FromUtf16(Utf16(s)) == Some(s)
  {
    if s != "" {
      Utf16RoundTrip(s[1..]);
      var units := CharUnits(s[0]);
      if |units| == 1 {
        assert Utf16(s)[1..] == Utf16(s[1..]);
      } else {
        assert Utf16(s)[2..] == Utf16(s[1..]);
        assert CharUnits(Combine(units[0], units[1])) == units;
        assert Combine(units[0], units[1]) == s[0];
      }
      assert [s[0]] + s[1..] == s;
    }
  }

  lemma {:induction false} FromUtf16Inverse(units: seq<Unit>)
    requires FromUtf16(units).Some?
    ensures Utf16(FromUtf16(units).value) == units
  {
    if units != [] {
      var text := FromUtf16(units).value;
      if !IsHigh(units[0]) && !IsLow(units[0]) {
        FromUtf16Inverse(units[1..]);
        assert text[1..] == FromUtf16(units[1..]).value;
        assert units == [units[0]] + units[1..];
      } else {
        FromUtf16Inverse(units[2..]);
        assert text[1..] == FromUtf16(units[2..]).value;
        assert units == [units[0], units[1]] + units[2..];
      }
    }
  }

  lemma {:induction false} Utf16Concat(a: string, b: string)
    ensures Utf16(a + b) == Utf16(a) + Utf16(b)
  {
    if a == "" {
      assert a + b == b;
    } else {
      Utf16Concat(a[1..], b);
      assert (a + b)[0] == a[0] && (a + b)[1..] == a[1..] + b;
      Associate(CharUnits(a[0]), Utf16(a[1..]), Utf16(b));
    }
  }

  // Hexadecimal

  function HexDigit(n: nat): (c: char)
    requires n < 16
  {
    if n < 10 then ('0' as int + n) as char else ('A' as int + n - 10) as char
  }

  predicate IsHexDigit(c: char) {
    '0' <= c <= '9' || 'a' <= c <= 'f' || 'A' <= c <= 'F'
  }

  function HexValue(c: char): (n: nat)
    requires IsHexDigit(c)
    ensures n < 16
  {
    if c <= '9' then c as int - '0' as int
    else if c <= 'F' then c as int - 'A' as int + 10
    else c as int - 'a' as int + 10
  }

  predicate AllHex(s: string) {
    forall i :: 0 <= i < |s| ==> IsHexDigit(s[i])
  }

  function UpperHex(c: char): char {
    if 'a' <= c <= 'f' then (c as int - 0x20) as char else c
  }

  function Upper(s: string): (r: string)
    ensures |r| == |s| && forall i :: 0 <= i < |s| ==> r[i] == UpperHex(s[i])
  {
    seq(|s|, i requires 0 <= i < |s| => UpperHex(s[i]))
  }

  /** One code unit as `{unit:04X}`. */
  function Hex4(u: Unit): (s: string)
    ensures |s| == 4 && AllHex(s)
  {
    [HexDigit(u / 0x1000), HexDigit(u / 0x100 % 16), HexDigit(u / 16 % 16), HexDigit(u % 16)]
  }

  function Unhex4(s: string): (u: Unit)
    requires |s| == 4 && AllHex(s)
  {
    HexValue(s[0]) * 0x1000 + HexValue(s[1]) * 0x100 + HexValue(s[2]) * 16 + HexValue(s[3])
  }

  lemma HexValueDigit(n: nat)
    requires n < 16
    ensures HexValue(HexDigit(n)) == n
  {
  }

  lemma Unhex4Hex4(u: Unit)
    ensures Unhex4(Hex4(u)) == u
  {
    HexValueDigit(u / 0x1000);
    HexValueDigit(u / 0x100 % 16);
    HexValueDigit(u / 16 % 16);
    HexValueDigit(u % 16);
    FourDigits(u);
  }

  lemma FourDigits(u: Unit)
    ensures u == u / 0x1000 * 0x1000 + u / 0x100 % 16 * 0x100 + u / 16 % 16 * 16 + u % 16
  {
    var b, c, d := u / 16, u / 0x100, u / 0x1000;
    assert c == b / 16 && d == c / 16;
  }

  lemma DigitsOf(u: Unit, a: nat, b: nat, c: nat, d: nat)
    requires a < 16 && b < 16 && c < 16 && d < 16 && u == a * 0x1000 + b * 0x100 + c * 16 + d
    ensures u / 0x1000 == a && u / 0x100 % 16 == b && u / 16 % 16 == c && u % 16 == d
  {
    assert u / 16 == 0x100 * a + 16 * b + c;
    assert u / 0x100 == 16 * a + b;
  }

  lemma Hex4Unhex4(s: string)
    requires |s| == 4 && AllHex(s)
    ensures Hex4(Unhex4(s)) == Upper(s)
  {
    var a, b, c, d := HexValue(s[0]), HexValue(s[1]), HexValue(s[2]), HexValue(s[3]);
    DigitsOf(Unhex4(s), a, b, c, d);
    assert HexDigit(a) == UpperHex(s[0]) && HexDigit(b) == UpperHex(s[1]);
    assert HexDigit(c) == UpperHex(s[2]) && HexDigit(d) == UpperHex(s[3]);
  }

  function UnitsHex(units: seq<Unit>): (s: string)
    ensures |s| == 4 * |units| && AllHex(s)
  {
    if units == [] then "" else Hex4(units[0]) + UnitsHex(units[1..])
  }

  function HexUnits(s: string): (units: seq<Unit>)
    requires |s| % 4 == 0 && AllHex(s)
    ensures 4 * |units| == |s|
  {
    if s == "" then [] else [Unhex4(s[..4])] + HexUnits(s[4..])
  }

  lemma {:induction false} HexUnitsOfUnitsHex(units: seq<Unit>)
    ensures HexUnits(UnitsHex(units)) == units
  {
    if units != [] {
      var s := UnitsHex(units);
      assert s[..4] == Hex4(units[0]) && s[4..] == UnitsHex(units[1..]);
      Unhex4Hex4(units[0]);
      HexUnitsOfUnitsHex(units[1..]);
    }
  }

  lemma {:induction false} UnitsHexOfHexUnits(s: string)
    requires |s| % 4 == 0 && AllHex(s)
    ensures UnitsHex(HexUnits(s)) == Upper(s)
  {
    if s != "" {
      Hex4Unhex4(s[..4]);
      UnitsHexOfHexUnits(s[4..]);
      assert HexUnits(s)[1..] == HexUnits(s[4..]);
      assert Upper(s) == Upper(s[..4]) + Upper(s[4..]);
    }
  }

  lemma {:induction false} UnitsHexConcat(a: seq<Unit>, b: seq<Unit>)
    ensures UnitsHex(a + b) == UnitsHex(a) + UnitsHex(b)
  {
    if a == [] {
      assert a + b == b;
    } else {
      UnitsHexConcat(a[1..], b);
      assert (a + b)[0] == a[0] && (a + b)[1..] == a[1..] + b;
      Associate(Hex4(a[0]), UnitsHex(a[1..]), UnitsHex(b));
    }
  }

  // The codec

  function Encoded(s: string): string {
    UnitsHex(Utf16(s))
  }

  function Decoded(hex: string): Option<string> {
    var t := Trim(hex);
    if t == "" || |t| % 4 != 0 || !AllHex(t) then None
    else FromUtf16(HexUnits(t))
  }

  lemma DecodedTight(hex: string)
    requires Trim(hex) == hex != "" && |hex| % 4 == 0 && AllHex(hex)
    ensures Decoded(hex) == FromUtf16(HexUnits(hex))
  {
  }

  lemma EncodedTight(s: string)
    requires s != ""
    ensures Trim(Encoded(s)) == Encoded(s) != ""
  {
    var hex := Encoded(s);
    assert Utf16(s) != [];
    assert IsHexDigit(hex[0]) && IsHexDigit(hex[|hex| - 1]);
    TrimTight(hex);
  }

  /** Decoding what was encoded gives the text back, for every non-empty text. */
  lemma DecodeEncode(s: string)
    requires s != ""
    ensures Decoded(Encoded(s)) == Some(s)
  {
    EncodedTight(s);
    DecodedTight(Encoded(s));
    HexUnitsOfUnitsHex(Utf16(s));
    Utf16RoundTrip(s);
  }

  /** Whatever decodes re-encodes to its own trimmed, uppercase form. */
  lemma EncodeDecode(hex: string)
    requires Decoded(hex).Some?
    ensures Encoded(Decoded(hex).value) == Upper(Trim(hex))
  {
    FromUtf16Inverse(HexUnits(Trim(hex)));
    UnitsHexOfHexUnits(Trim(hex));
  }

  /** The four ways decoding fails, and no other. */
  lemma DecodeFails(hex: string)
    ensures Decoded(hex).None? <==>
            || Trim(hex) == ""
            || |Trim(hex)| % 4 != 0
            || !AllHex(Trim(hex))
            || !Paired(HexUnits(Trim(hex)))
  {
    var t := Trim(hex);
    if t != "" && |t| % 4 == 0 && AllHex(t) {
      FromUtf16Total(HexUnits(t));
    }
  }

  lemma EncodedConcat(a: string, b: string)
    ensures Encoded(a + b) == Encoded(a) + Encoded(b)
  {
    Utf16Concat(a, b);
    UnitsHexConcat(Utf16(a), Utf16(b));
  }

  /** `ucs2_hex_encode`: one `{unit:04X}` appended per UTF-16 code unit. */
  method Encode(s: string) returns (out: string)
    ensures out == Encoded(s)
  {
    out := "";
    var units := Utf16(s);
    for i := 0 to |units|
      invariant out + UnitsHex(units[i..]) == UnitsHex(units)
    {
      out := out + Hex4(units[i]);
      assert units[i..] == [units[i]] + units[i + 1..];
    }
  }

  lemma NextUnit(t: string, i: nat)
    requires AllHex(t) && i % 4 == 0 && |t| % 4 == 0 && i < |t|
    ensures i + 4 <= |t| && AllHex(t[i..]) && |t[i..]| % 4 == 0 && AllHex(t[i + 4..]) && |t[i + 4..]| % 4 == 0
    ensures HexUnits(t[i..]) == [Unhex4(t[i..i + 4])] + HexUnits(t[i + 4..])
  {
    assert t[i..][..4] == t[i..i + 4] && t[i..][4..] == t[i + 4..];
  }

  /** `ucs2_hex_decode`: four digits at a time into code units, then UTF-16. */
  method Decode(hex: string) returns (text: Option<string>)
    ensures text == Decoded(hex)
  {
    var t := Trim(hex);
    if t == "" || |t| % 4 != 0 || !AllHex(t) {
      return None;
    }
    var units: seq<Unit> := [];
    var i := 0;
    while i < |t|
      invariant 0 <= i <= |t| && i % 4 == 0
      invariant units + HexUnits(t[i..]) == HexUnits(t)
    {
      NextUnit(t, i);
      Associate(units, [Unhex4(t[i..i + 4])], HexUnits(t[i + 4..]));
      units := units + [Unhex4(t[i..i + 4])];
      i := i + 4;
    }
    assert t[i..] == "" && units + [] == units;
    return FromUtf16(units);
  }
}
