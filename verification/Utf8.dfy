/** The UTF-8 form of a text (RFC 3629, section 3), in which it goes over the line. */
module Utf8 {
  import opened Text

  type Byte = b: int | 0 <= b < 256

  const CR: Byte := 0x0D

  function CharBytes(c: char): (bytes: seq<Byte>)
    ensures 1 <= |bytes| <= 4
  {
    var n := c as int;
    if n < 0x80 then [n]
    else if n < 0x800 then [0xC0 + n / 0x40, 0x80 + n % 0x40]
    else if n < 0x1_0000 then [0xE0 + n / 0x1000, 0x80 + n / 0x40 % 0x40, 0x80 + n % 0x40]
    else [0xF0 + n / 0x4_0000, 0x80 + n / 0x1000 % 0x40, 0x80 + n / 0x40 % 0x40, 0x80 + n % 0x40]
  }

  function Encode(s: string): seq<Byte> {
    if s == "" then [] else CharBytes(s[0]) + Encode(s[1..])
  }

  /** How many bytes a character with this first byte takes. */
  function Width(lead: Byte): nat {
    if lead < 0x80 then 1 else if lead < 0xE0 then 2 else if lead < 0xF0 then 3 else 4
  }

  function Scalar(bytes: seq<Byte>): int
    requires 1 <= |bytes| <= 4
  {
    var b: seq<int> := seq(|bytes|, i requires 0 <= i < |bytes| => bytes[i]);
    match |bytes|
    case 1 => b[0]
    case 2 => (b[0] - 0xC0) * 0x40 + (b[1] - 0x80)
    case 3 => (b[0] - 0xE0) * 0x1000 + (b[1] - 0x80) * 0x40 + (b[2] - 0x80)
    case _ => (b[0] - 0xF0) * 0x4_0000 + (b[1] - 0x80) * 0x1000 + (b[2] - 0x80) * 0x40 + (b[3] - 0x80)
  }

  predicate IsScalar(n: int) {
    0 <= n < 0xD800 || 0xE000 <= n < 0x11_0000
  }

  /** Reading encoded text back; only what `Encode` writes matters here. */
  function Decode(bytes: seq<Byte>): Option<string>
    decreases |bytes|
  {
    if bytes == [] then Some("")
    else
      var w := Width(bytes[0]);
      if w > |bytes| || !IsScalar(Scalar(bytes[..w])) then None
      else match Decode(bytes[w..])
        case None => None
        case Some(rest) => Some([Scalar(bytes[..w]) as char] + rest)
  }

  lemma CharRoundTrip(c: char)
    ensures Width(CharBytes(c)[0]) == |CharBytes(c)| && Scalar(CharBytes(c)) == c as int
  {
    var n := c as int;
    if n >= 0x1_0000 {
      assert n / 0x1000 == n / 0x40 / 0x40 && n / 0x4_0000 == n / 0x1000 / 0x40;
    } else if n >= 0x800 {
      assert n / 0x1000 == n / 0x40 / 0x40;
    }
  }

  lemma {:induction false} RoundTrip(s: string)
    ensures Decode(Encode(s)) == Some(s)
  {
    if s != "" {
      var bytes, head := Encode(s), CharBytes(s[0]);
      CharRoundTrip(s[0]);
      assert bytes[..|head|] == head && bytes[|head|..] == Encode(s[1..]);
      RoundTrip(s[1..]);
      assert [s[0]] + s[1..] == s;
    }
  }

  /** An ASCII byte in the encoding is an ASCII character of the text, in order. */
  lemma {:induction false} AsciiOnly(s: string, b: Byte)
    requires b < 0x80 && b in Encode(s)
    ensures b as char in s
  {
    var head := CharBytes(s[0]);
    if b in head {
      assert s[0] == b as char;
    } else {
      AsciiOnly(s[1..], b);
    }
  }

  predicate IsAscii(s: string) {
    forall i :: 0 <= i < |s| ==> s[i] as int < 0x80
  }

  lemma {:induction false} AsciiEncode(s: string)
    requires IsAscii(s)
    ensures |Encode(s)| == |s|
    ensures forall i :: 0 <= i < |s| ==> Encode(s)[i] == s[i] as int
  {
    if s != "" {
      AsciiEncode(s[1..]);
    }
  }

  lemma {:induction false} EncodeConcat(a: string, b: string)
    ensures Encode(a + b) == Encode(a) + Encode(b)
  {
    if a == "" {
      assert a + b == b;
    } else {
      EncodeConcat(a[1..], b);
      assert (a + b)[0] == a[0] && (a + b)[1..] == a[1..] + b;
      Associate(CharBytes(a[0]), Encode(a[1..]), Encode(b));
    }
  }
}
