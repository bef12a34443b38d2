/** The fragment of the Rust string library the service relies on: trimming,
    `lines`, joining, and the `u16`/`u32` parsers. A `string` is a sequence of
    Unicode scalar values, as a Rust `str` is. */
module Text {

  datatype Option<+T> = None | Some(value: T)

  /** The Unicode White_Space property, which `str::trim` removes. */
  predicate IsWhite(c: char) {
    var n := c as int;
    || 0x09 <= n <= 0x0D || n == 0x20 || n == 0x85 || n == 0xA0 || n == 0x1680
    || 0x2000 <= n <= 0x200A || n == 0x2028 || n == 0x2029 || n == 0x202F
    || n == 0x205F || n == 0x3000
  }

  function TrimStart(s: string): string {
    if s != "" && IsWhite(s[0]) then TrimStart(s[1..]) else s
  }

  function TrimEnd(s: string): string {
    if s != "" && IsWhite(s[|s| - 1]) then TrimEnd(s[..|s| - 1]) else s
  }

  function Trim(s: string): string {
    TrimEnd(TrimStart(s))
  }

  /** Trimming leaves a text alone exactly when neither end is white space. */
  predicate Tight(s: string) {
    s == "" || (!IsWhite(s[0]) && !IsWhite(s[|s| - 1]))
  }

  lemma TrimTight(s: string)
    requires Tight(s)
    ensures Trim(s) == s
  {
  }

  predicate Blank(s: string) {
    forall i :: 0 <= i < |s| ==> IsWhite(s[i])
  }

  /** Trimming takes off white space, all there is at either end, and nothing else. */
  lemma TrimMeans(s: string) returns (before: string, after: string)
    ensures s == before + Trim(s) + after && Blank(before) && Blank(after) && Tight(Trim(s))
  {
    var inner;
    before, inner := StartTrimmed(s);
    after := EndTrimmed(inner);
    Associate(before, Trim(s), after);
  }

  lemma {:induction false} StartTrimmed(s: string) returns (before: string, rest: string)
    ensures s == before + rest && Blank(before) && rest == TrimStart(s) && (rest == "" || !IsWhite(rest[0]))
  {
    before, rest := "", s;
    if s != "" && IsWhite(s[0]) {
      before, rest := StartTrimmed(s[1..]);
      Associate([s[0]], before, rest);
      before := [s[0]] + before;
    }
  }

  lemma {:induction false} StartsAfterBlank(before: string, rest: string)
    requires Blank(before) && rest != "" && !IsWhite(rest[0])
    ensures TrimStart(before + rest) == rest
  {
    if before == "" {
      assert before + rest == rest;
    } else {
      assert (before + rest)[1..] == before[1..] + rest;
      StartsAfterBlank(before[1..], rest);
    }
  }

  lemma {:induction false} EndTrimmed(s: string) returns (after: string)
    requires s == "" || !IsWhite(s[0])
    ensures s == TrimEnd(s) + after && Blank(after) && Tight(TrimEnd(s))
  {
    after := "";
    if s != "" && IsWhite(s[|s| - 1]) {
      after := EndTrimmed(s[..|s| - 1]);
      Associate(TrimEnd(s), after, [s[|s| - 1]]);
      after := after + [s[|s| - 1]];
    }
  }

  lemma TrimSpace(s: string)
    ensures Trim(" " + s) == Trim(s)
  {
    assert (" " + s)[1..] == s;
  }

  predicate StartsWith(s: string, prefix: string) {
    prefix <= s
  }

  lemma PrefixOff(prefix: string, s: string)
    ensures prefix <= s ==> s == prefix + s[|prefix|..]
    ensures prefix <= prefix + s && (prefix + s)[|prefix|..] == s
  {
  }

  predicate IsDigit(c: char) {
    '0' <= c <= '9'
  }

  predicate AllDigits(s: string) {
    forall i :: 0 <= i < |s| ==> IsDigit(s[i])
  }

  function DigitsValue(s: string): nat
    requires AllDigits(s)
  {
    if s == "" then 0
    else 10 * DigitsValue(s[..|s| - 1]) + (s[|s| - 1] as int - '0' as int)
  }

  /** `s.parse::<uN>()`: an optional plus sign, at least one digit, no overflow. */
  function ParseUnsigned(s: string, max: nat): Option<nat> {
    var digits := if s != "" && s[0] == '+' then s[1..] else s;
    if digits == "" || !AllDigits(digits) then None
    else if DigitsValue(digits) <= max then Some(DigitsValue(digits))
    else None
  }

  const U16_MAX: nat := 0xFFFF
  const U32_MAX: nat := 0xFFFF_FFFF

  /** The decimal rendering `format!("{n}")` produces. */
  function Decimal(n: nat): (s: string)
    ensures s != "" && AllDigits(s)
  {
    var last := [('0' as int + n % 10) as char];
    if n < 10 then last else Decimal(n / 10) + last
  }

  lemma {:induction false} DecimalValue(n: nat)
    ensures DigitsValue(Decimal(n)) == n
  {
    if n >= 10 {
      DecimalValue(n / 10);
      assert Decimal(n)[..|Decimal(n)| - 1] == Decimal(n / 10);
    } else {
      assert Decimal(n)[..0] == "";
    }
  }

  lemma DecimalParses(n: nat, max: nat)
    requires n <= max
    ensures ParseUnsigned(Decimal(n), max) == Some(n)
  {
    DecimalValue(n);
  }

  /** The value of digits read from the left, after some already read. */
  function ReadOn(value: nat, s: string): nat
    requires AllDigits(s)
    decreases s
  {
    if s == "" then value else ReadOn(10 * value + (s[0] as int - '0' as int), s[1..])
  }

  lemma {:induction false} ReadOnSnoc(value: nat, s: string, c: char)
    requires AllDigits(s) && IsDigit(c)
    ensures ReadOn(value, s + [c]) == 10 * ReadOn(value, s) + (c as int - '0' as int)
    decreases s
  {
    if s == "" {
      assert (s + [c])[1..] == "";
    } else {
      assert (s + [c])[1..] == s[1..] + [c];
      ReadOnSnoc(10 * value + (s[0] as int - '0' as int), s[1..], c);
    }
  }

  /** A digit string has the value it reads as from left to right. */
  lemma {:induction false} DigitsReadOn(s: string)
    requires AllDigits(s)
    ensures DigitsValue(s) == ReadOn(0, s)
  {
    if s != "" {
      DigitsReadOn(s[..|s| - 1]);
      ReadOnSnoc(0, s[..|s| - 1], s[|s| - 1]);
      assert s == s[..|s| - 1] + [s[|s| - 1]];
    }
  }

  /** Digits, perhaps with a plus sign before them, that read as `n`. */
  predicate Numeral(s: string, digits: string, n: nat) {
    digits != "" && AllDigits(digits) && (s == digits || s == "+" + digits) && ReadOn(0, digits) == n
  }

  /** A number up to the maximum is parsed from its numerals, and from nothing else. */
  lemma ParsesNumbers(s: string, max: nat, n: nat)
    ensures ParseUnsigned(s, max) == Some(n) <==> n <= max && exists digits :: Numeral(s, digits, n)
  {
    if ParseUnsigned(s, max) == Some(n) {
      var digits := if s != "" && s[0] == '+' then s[1..] else s;
      DigitsReadOn(digits);
      assert s == digits || s == "+" + digits;
      assert Numeral(s, digits, n);
    }
    if digits :| Numeral(s, digits, n) {
      assert IsDigit(digits[0]) && ("+" + digits)[1..] == digits;
      DigitsReadOn(digits);
    }
  }

  lemma DecimalTight(n: nat)
    ensures Tight(Decimal(n))
  {
    var s := Decimal(n);
    assert IsDigit(s[0]) && IsDigit(s[|s| - 1]);
  }

  /** The position of the first `c` in `s`, or `|s|`. */
  function IndexOf(s: string, c: char): (i: nat)
    ensures i <= |s|
    ensures i < |s| ==> s[i] == c
    ensures forall k :: 0 <= k < i ==> s[k] != c
  {
    if s == "" || s[0] == c then 0 else 1 + IndexOf(s[1..], c)
  }

  lemma IndexOfIs(s: string, c: char, i: nat)
    requires i <= |s| && (i < |s| ==> s[i] == c)
    requires forall k :: 0 <= k < i ==> s[k] != c
    ensures IndexOf(s, c) == i
  {
  }

  /** One trailing carriage return goes with the line feed that follows it. */
  function StripCr(s: string): string {
    if s != "" && s[|s| - 1] == '\r' then s[..|s| - 1] else s
  }

  /** `str::lines`: pieces ended by `\n` or `\r\n`; no empty piece after a final `\n`. */
  function Lines(s: string): seq<string>
    decreases |s|
  {
    if s == "" then []
    else
      var i := IndexOf(s, '\n');
      if i == |s| then [s] else [StripCr(s[..i])] + Lines(s[i + 1..])
  }

  function Join(parts: seq<string>, separator: string): string {
    if parts == [] then ""
    else if |parts| == 1 then parts[0]
    else parts[0] + separator + Join(parts[1..], separator)
  }

  lemma {:induction false} JoinSnoc(parts: seq<string>, separator: string, last: string)
    requires parts != []
    ensures Join(parts + [last], separator) == Join(parts, separator) + separator + last
  {
    if |parts| == 1 {
      assert (parts + [last])[1..] == [last];
    } else {
      assert (parts + [last])[1..] == parts[1..] + [last];
      JoinSnoc(parts[1..], separator, last);
      assert Join(parts + [last], separator)
          == parts[0] + separator + (Join(parts[1..], separator) + separator + last);
    }
  }

  /** A line with neither line feed nor carriage return. */
  predicate Plain(s: string) {
    forall i :: 0 <= i < |s| ==> s[i] != '\n' && s[i] != '\r'
  }

  /** One line split off the front of a text. */
  lemma LinesCons(line: string, rest: string)
    requires forall i :: 0 <= i < |line| ==> line[i] != '\n'
    ensures Lines(line + "\n" + rest) == [StripCr(line)] + Lines(rest)
  {
    var s := line + "\n" + rest;
    IndexOfIs(s, '\n', |line|);
    assert s[..|line|] == line && s[|line| + 1..] == rest;
  }

  lemma LinesLast(line: string)
    requires line != "" && forall i :: 0 <= i < |line| ==> line[i] != '\n'
    ensures Lines(line) == [line]
  {
    IndexOfIs(line, '\n', |line|);
  }

  /** Splitting on every `\n`, with no line-ending rule: `Join`'s inverse. */
  function SplitNewlines(s: string): (parts: seq<string>)
    ensures parts != []
    decreases |s|
  {
    var i := IndexOf(s, '\n');
    if i == |s| then [s] else [s[..i]] + SplitNewlines(s[i + 1..])
  }

  lemma {:induction false} JoinSplitNewlines(s: string)
    ensures Join(SplitNewlines(s), "\n") == s
    ensures forall k :: 0 <= k < |SplitNewlines(s)| ==>
              forall i :: 0 <= i < |SplitNewlines(s)[k]| ==>
                  SplitNewlines(s)[k][i] != '\n' && SplitNewlines(s)[k][i] in s
    decreases |s|
  {
    var i := IndexOf(s, '\n');
    if i < |s| {
      JoinSplitNewlines(s[i + 1..]);
      var rest := SplitNewlines(s[i + 1..]);
      assert SplitNewlines(s)[1..] == rest;
      assert s == s[..i] + "\n" + s[i + 1..];
    }
  }

  // Sequences of anything

  lemma Associate<T>(a: seq<T>, b: seq<T>, c: seq<T>)
    ensures a + b + c == a + (b + c)
  {
  }

  lemma Rejoin<T>(s: seq<T>, m: nat)
    requires m <= |s|
    ensures s[..m] + s[m..] == s
  {
  }

  /** Slices of slices. */
  lemma SliceAgain<T>(s: seq<T>, i: nat, j: nat)
    requires i <= j <= |s|
    ensures s[i..][..j - i] == s[i..j] == s[..j][i..]
    ensures s[i..][j - i..] == s[j..] && s[..j][..i] == s[..i]
  {
  }
}
