/** The AT protocol parsers of `modem/protocol.rs`. Text-mode SMS commands and
    result codes are those of 3GPP TS 27.005, sections 3.4 and 3.5. */
module Protocol {
  import opened Text

  datatype AtResult = Ok | Error | CmsError(code: nat) | CmeError(code: nat) | Timeout

  datatype LineClass = Terminator(result: AtResult) | NonTerminating

  /** A numbered `+CMS`/`+CME` error, plain `Error` when the number does not parse. */
  function NumberedError(rest: string, equipment: bool): AtResult {
    match ParseUnsigned(Trim(rest), U16_MAX)
    case Some(code) => if equipment then CmeError(code) else CmsError(code)
    case None => Error
  }

  function ClassifyLine(line: string): LineClass {
    var trimmed := Trim(line);
    if trimmed == "OK" then Terminator(Ok)
    else if trimmed == "ERROR" then Terminator(Error)
    else if StartsWith(trimmed, "+CMS ERROR:") then Terminator(NumberedError(trimmed[11..], false))
    else if StartsWith(trimmed, "+CME ERROR:") then Terminator(NumberedError(trimmed[11..], true))
    else NonTerminating
  }

  predicate IsTerminator(line: string) {
    ClassifyLine(line).Terminator?
  }

  /** No line ever reads as a timeout: that result is only ever made up by the reader. */
  lemma NoTimeoutLine(line: string)
    ensures ClassifyLine(line) != Terminator(Timeout)
  {
  }

  // Result lines, as printed

  /** `Display` of a result. */
  function Printed(result: AtResult): string {
    match result
    case Ok => "OK"
    case Error => "ERROR"
    case CmsError(code) => "+CMS ERROR: " + Decimal(code)
    case CmeError(code) => "+CME ERROR: " + Decimal(code)
    case Timeout => "TIMEOUT"
  }

  lemma NumberedReads(code: nat, equipment: bool)
    requires code <= U16_MAX
    ensures NumberedError(" " + Decimal(code), equipment) == if equipment then CmeError(code) else CmsError(code)
  {
    DecimalTight(code);
    TrimTight(Decimal(code));
    TrimSpace(Decimal(code));
    DecimalParses(code, U16_MAX);
  }

  /** Each result a modem gives is read back from the line that says it, whatever white
      space is around it. */
  lemma ResultsReadBack(line: string, result: AtResult)
    requires result != Timeout && Trim(line) == Printed(result)
    requires result.CmsError? || result.CmeError? ==> result.code <= U16_MAX
    ensures ClassifyLine(line) == Terminator(result)
  {
    match result
    case Ok =>
    case Error =>
    case CmsError(code) =>
      assert Printed(result)[11..] == " " + Decimal(code);
      NumberedReads(code, false);
    case CmeError(code) =>
      assert Printed(result)[11..] == " " + Decimal(code) && Printed(result)[3] == 'E' && "+CMS ERROR:"[3] == 'S';
      NumberedReads(code, true);
  }

  /** And an error whose number is missing or too large is a plain error. */
  lemma UnnumberedErrors(line: string, detail: string)
    requires Trim(line) in ["+CMS ERROR:" + detail, "+CME ERROR:" + detail]
              && ParseUnsigned(Trim(detail), U16_MAX).None?
    ensures ClassifyLine(line) == Terminator(Error)
  {
    assert Trim(line)[11..] == detail;
  }

  /** No other line ends an answer, and only `OK` says so. */
  lemma OnlyTerminators(line: string)
    ensures ClassifyLine(line) == Terminator(Ok) <==> Trim(line) == "OK"
    ensures IsTerminator(line) <==>
            || Trim(line) in ["OK", "ERROR"]
            || exists detail :: Trim(line) in ["+CMS ERROR:" + detail, "+CME ERROR:" + detail]
  {
    var trimmed := Trim(line);
    if StartsWith(trimmed, "+CMS ERROR:") {
      assert trimmed == "+CMS ERROR:" + trimmed[11..];
    } else if StartsWith(trimmed, "+CME ERROR:") {
      assert trimmed == "+CME ERROR:" + trimmed[11..];
    }
  }

  predicate IsPrompt(line: string) {
    StartsWith(TrimStart(line), ">")
  }

  /** A prompt is a line whose first character that is not white space is `>`. */
  lemma PromptsAre(line: string)
    ensures IsPrompt(line) <==> exists before, rest :: Blank(before) && line == before + (">" + rest)
  {
    if IsPrompt(line) {
      var before, trimmed := StartTrimmed(line);
      assert trimmed == ">" + trimmed[1..];
    }
    if before, rest :| Blank(before) && line == before + (">" + rest) {
      StartsAfterBlank(before, ">" + rest);
    }
  }

  // Send outcomes

  datatype SendOutcome = Sent(reference: nat) | Failed(code: Option<nat>)

  function FormatCmgsResponse(reference: nat): string {
    "+CMGS: " + Decimal(reference)
  }

  function ParseCmgsReference(line: string): Option<nat> {
    var trimmed := Trim(line);
    if StartsWith(trimmed, "+CMGS:") then ParseUnsigned(Trim(trimmed[6..]), U32_MAX) else None
  }

  lemma CmgsReferenceRoundTrip(reference: nat)
    requires reference <= U32_MAX
    ensures ParseCmgsReference(FormatCmgsResponse(reference)) == Some(reference)
  {
    var line, digits := FormatCmgsResponse(reference), Decimal(reference);
    DecimalTight(reference);
    TrimTight(digits);
    DecimalParses(reference, U32_MAX);
    assert IsDigit(digits[|digits| - 1]);
    assert line[|line| - 1] == digits[|digits| - 1] && line[0] == '+';
    TrimTight(line);
    assert line[6..] == " " + digits;
    TrimSpace(digits);
  }

  function ErrorCode(result: AtResult): Option<nat> {
    match result
    case CmsError(code) => Some(code)
    case CmeError(code) => Some(code)
    case _ => None
  }

  /** What a terminator makes of the reference seen so far. */
  function Concluded(reference: Option<nat>, result: AtResult): SendOutcome {
    if result == Ok && reference.Some? then Sent(reference.value) else Failed(ErrorCode(result))
  }

  function OutcomeFrom(lines: seq<string>, reference: Option<nat>): SendOutcome {
    if lines == [] then Failed(None)
    else
      var seen := ParseCmgsReference(lines[0]);
      if seen.Some? then OutcomeFrom(lines[1..], seen)
      else match ClassifyLine(lines[0])
        case Terminator(result) => Concluded(reference, result)
        case NonTerminating => OutcomeFrom(lines[1..], reference)
  }

  function SendOutcomeOf(lines: seq<string>): SendOutcome {
    OutcomeFrom(lines, None)
  }

  /** `parse_send_outcome`. */
  method ParseSendOutcome(lines: seq<string>) returns (outcome: SendOutcome)
    ensures outcome == SendOutcomeOf(lines)
  {
    var reference: Option<nat> := None;
    for i := 0 to |lines|
      invariant OutcomeFrom(lines[i..], reference) == SendOutcomeOf(lines)
    {
      var seen := ParseCmgsReference(lines[i]);
      if seen.Some? {
        reference := seen;
      } else {
        match ClassifyLine(lines[i])
        case Terminator(result) => return Concluded(reference, result);
        case NonTerminating =>
      }
    }
    return Failed(None);
  }

  /** A reference line is never a terminator. */
  lemma ReferenceIsData(line: string)
    ensures ParseCmgsReference(line).Some? ==> !IsTerminator(line)
  {
    var trimmed := Trim(line);
    if StartsWith(trimmed, "+CMGS:") {
      assert trimmed[3] == 'G';
    }
  }

  /** The position of the first terminator, or the number of lines. */
  function FirstTerminator(lines: seq<string>): (k: nat)
    ensures k <= |lines|
    ensures k < |lines| ==> IsTerminator(lines[k])
    ensures forall i :: 0 <= i < k ==> !IsTerminator(lines[i])
  {
    if lines == [] || IsTerminator(lines[0]) then 0 else 1 + FirstTerminator(lines[1..])
  }

  /** The reference the latest reference line carries, `earlier` if there is none. */
  function LatestReference(lines: seq<string>, earlier: Option<nat>): Option<nat> {
    if lines == [] then earlier
    else
      var last := ParseCmgsReference(lines[|lines| - 1]);
      if last.Some? then last else LatestReference(lines[..|lines| - 1], earlier)
  }

  lemma {:induction false} LatestReferenceCons(line: string, lines: seq<string>, earlier: Option<nat>)
    ensures LatestReference([line] + lines, earlier)
         == LatestReference(lines, if ParseCmgsReference(line).Some? then ParseCmgsReference(line) else earlier)
  {
    if lines == [] {
      assert ([line] + lines)[..0] == [];
    } else {
      var all, last := [line] + lines, ParseCmgsReference(lines[|lines| - 1]);
      assert all[|all| - 1] == lines[|lines| - 1];
      if last.None? {
        assert all[..|all| - 1] == [line] + lines[..|lines| - 1];
        LatestReferenceCons(line, lines[..|lines| - 1], earlier);
      }
    }
  }

  lemma FirstOfMany(lines: seq<string>, k: nat)
    requires 0 < k <= |lines|
    ensures lines[..k] == [lines[0]] + lines[1..][..k - 1]
  {
  }

  lemma {:induction false} OutcomeFromMeaning(lines: seq<string>, earlier: Option<nat>)
    ensures var k := FirstTerminator(lines);
              OutcomeFrom(lines, earlier)
              == if k == |lines| then Failed(None)
                 else Concluded(LatestReference(lines[..k], earlier), ClassifyLine(lines[k]).result)
  {
    if lines != [] {
      ReferenceIsData(lines[0]);
      var k := FirstTerminator(lines);
      if k > 0 {
        var seen := ParseCmgsReference(lines[0]);
        OutcomeFromMeaning(lines[1..], if seen.Some? then seen else earlier);
        FirstOfMany(lines, k);
        LatestReferenceCons(lines[0], lines[1..][..k - 1], earlier);
      } else {
        assert lines[..0] == [];
      }
    }
  }

  /** An outcome is settled by the first terminator and, when that is an `OK`, by
      the latest reference line before it. Without a terminator, or without a
      reference, nothing was sent. */
  lemma SendOutcomeMeaning(lines: seq<string>)
    ensures var k := FirstTerminator(lines);
              SendOutcomeOf(lines)
              == if k < |lines| && ClassifyLine(lines[k]) == Terminator(Ok) && LatestReference(lines[..k], None).Some?
                 then Sent(LatestReference(lines[..k], None).value)
                 else Failed(if k < |lines| then ErrorCode(ClassifyLine(lines[k]).result) else None)
  {
    OutcomeFromMeaning(lines, None);
  }

  /** By the lines as a modem prints them: `OK` confirms the latest reference before
      it, a numbered error fails with its number, and anything else fails without. */
  lemma PrintedOutcome(lines: seq<string>, k: nat, result: AtResult)
    requires k == FirstTerminator(lines) < |lines| && result != Timeout && Trim(lines[k]) == Printed(result)
    requires result.CmsError? || result.CmeError? ==> result.code <= U16_MAX
    ensures SendOutcomeOf(lines)
         == match result
            case Ok =>
              (match LatestReference(lines[..k], None)
               case Some(reference) => Sent(reference)
               case None => Failed(None))
            case CmsError(code) => Failed(Some(code))
            case CmeError(code) => Failed(Some(code))
            case _ => Failed(None)
  {
    ResultsReadBack(lines[k], result);
    SendOutcomeMeaning(lines);
  }

  // Quoted comma-separated fields

  /** The fields of `s`, read from a point inside quotes or not. */
  function SplitFrom(s: string, quoted: bool): (fields: seq<string>)
    ensures fields != []
  {
    if s == "" then [""]
    else if s[0] == ',' && !quoted then [""] + SplitFrom(s[1..], false)
    else
      var rest := SplitFrom(s[1..], if s[0] == '"' then !quoted else quoted);
      [[s[0]] + rest[0]] + rest[1..]
  }

  function SplitQuotedCsv(s: string): seq<string> {
    SplitFrom(s, false)
  }

  /** Text already read, put back in front of the first field. */
  function Before(current: string, fields: seq<string>): seq<string>
    requires fields != []
  {
    [current + fields[0]] + fields[1..]
  }

  lemma BeforeNothing(fields: seq<string>)
    requires fields != []
    ensures Before("", fields) == fields
  {
    assert "" + fields[0] == fields[0];
  }

  lemma SplitStep(current: string, s: string, quoted: bool)
    requires s != ""
    ensures Before(current, SplitFrom(s, quoted))
         == if s[0] == ',' && !quoted then [current] + Before("", SplitFrom(s[1..], false))
            else Before(current + [s[0]], SplitFrom(s[1..], if s[0] == '"' then !quoted else quoted))
  {
    if s[0] == ',' && !quoted {
      var rest := SplitFrom(s[1..], false);
      BeforeNothing(rest);
      assert current + "" == current;
    } else {
      var rest := SplitFrom(s[1..], if s[0] == '"' then !quoted else quoted);
      assert current + ([s[0]] + rest[0]) == current + [s[0]] + rest[0];
    }
  }

  lemma SplitMore(fields: seq<string>, current: string, s: string, i: nat, quoted: bool)
    requires i < |s|
    ensures fields + Before(current, SplitFrom(s[i..], quoted))
         == if s[i] == ',' && !quoted then fields + [current] + Before("", SplitFrom(s[i + 1..], false))
            else fields + Before(current + [s[i]], SplitFrom(s[i + 1..], if s[i] == '"' then !quoted else quoted))
  {
    assert s[i..][1..] == s[i + 1..];
    SplitStep(current, s[i..], quoted);
  }

  /** `split_quoted_csv`. */
  method SplitFields(s: string) returns (fields: seq<string>)
    ensures fields == SplitQuotedCsv(s)
  {
    fields := [];
    var current, quoted := "", false;
    assert s[0..] == s;
    BeforeNothing(SplitFrom(s, false));
    for i := 0 to |s|
      invariant fields + Before(current, SplitFrom(s[i..], quoted)) == SplitQuotedCsv(s)
    {
      SplitMore(fields, current, s, i, quoted);
      if s[i] == '"' {
        quoted := !quoted;
        current := current + [s[i]];
      } else if s[i] == ',' && !quoted {
        fields := fields + [current];
        current := "";
      } else {
        current := current + [s[i]];
      }
    }
    assert s[|s|..] == "" && current + "" == current;
    fields := fields + [current];
  }

  /** Whether reading `s` from inside quotes (or not) ends inside quotes. */
  function QuotedAfter(s: string, quoted: bool): bool {
    if s == "" then quoted else QuotedAfter(s[1..], if s[0] == '"' then !quoted else quoted)
  }

  /** `s`, read from inside quotes or not, holds no comma outside quotes. */
  predicate NoBareComma(s: string, quoted: bool) {
    s == "" || ((s[0] == ',' ==> quoted) && NoBareComma(s[1..], if s[0] == '"' then !quoted else quoted))
  }

  /** A list of fields cut exactly at the commas that stand outside quotes. */
  predicate CutAtBareCommas(fields: seq<string>, quoted: bool) {
    && fields != []
    && NoBareComma(fields[0], quoted)
    && (|fields| > 1 ==> !QuotedAfter(fields[0], quoted) && CutAtBareCommas(fields[1..], false))
  }

  lemma {:induction false} SplitFromLossless(s: string, quoted: bool)
    ensures Join(SplitFrom(s, quoted), ",") == s
  {
    if s != "" {
      if s[0] == ',' && !quoted {
        var rest := SplitFrom(s[1..], false);
        SplitFromLossless(s[1..], false);
        assert ([""] + rest)[1..] == rest;
        assert "" + "," + s[1..] == s;
      } else {
        var rest := SplitFrom(s[1..], if s[0] == '"' then !quoted else quoted);
        SplitFromLossless(s[1..], if s[0] == '"' then !quoted else quoted);
        JoinBefore([s[0]], rest);
        assert SplitFrom(s, quoted) == Before([s[0]], rest);
        assert [s[0]] + s[1..] == s;
      }
    }
  }

  lemma JoinBefore(current: string, fields: seq<string>)
    requires fields != []
    ensures Join(Before(current, fields), ",") == current + Join(fields, ",")
  {
    var joined := Before(current, fields);
    assert joined[1..] == fields[1..];
    if |fields| > 1 {
      assert current + fields[0] + "," + Join(fields[1..], ",")
          == current + (fields[0] + "," + Join(fields[1..], ","));
    }
  }

  lemma {:induction false} SplitFromCuts(s: string, quoted: bool)
    ensures CutAtBareCommas(SplitFrom(s, quoted), quoted)
  {
    if s != "" {
      if s[0] == ',' && !quoted {
        SplitFromCuts(s[1..], false);
        assert ([""] + SplitFrom(s[1..], false))[1..] == SplitFrom(s[1..], false);
      } else {
        var quoted' := if s[0] == '"' then !quoted else quoted;
        SplitFromCuts(s[1..], quoted');
        var fields := SplitFrom(s, quoted);
        assert fields[0][1..] == SplitFrom(s[1..], quoted')[0];
        assert fields[1..] == SplitFrom(s[1..], quoted')[1..];
      }
    }
  }

  lemma {:induction false} SplitFromUnique(fields: seq<string>, quoted: bool)
    requires CutAtBareCommas(fields, quoted)
    ensures SplitFrom(Join(fields, ","), quoted) == fields
    decreases |fields|, if fields == [] then 0 else |fields[0]|
  {
    var s := Join(fields, ",");
    if fields[0] == "" {
      if |fields| > 1 {
        SplitFromUnique(fields[1..], false);
        JoinAfterEmpty(fields);
      }
    } else {
      var c := fields[0][0];
      var fields' := FirstShortened(fields);
      JoinShortened(fields);
      SplitFromUnique(fields', if c == '"' then !quoted else quoted);
      assert [c] + fields[0][1..] == fields[0];
    }
  }

  function FirstShortened(fields: seq<string>): (shorter: seq<string>)
    requires fields != [] && fields[0] != ""
    ensures shorter != [] && shorter[0] == fields[0][1..] && shorter[1..] == fields[1..]
  {
    [fields[0][1..]] + fields[1..]
  }

  lemma JoinAfterEmpty(fields: seq<string>)
    requires |fields| > 1 && fields[0] == ""
    ensures var s := Join(fields, ","); s != "" && s[0] == ',' && s[1..] == Join(fields[1..], ",")
  {
  }

  lemma JoinShortened(fields: seq<string>)
    requires fields != [] && fields[0] != ""
    ensures var s := Join(fields, ","); s != "" && s[0] == fields[0][0] && s[1..] == Join(FirstShortened(fields), ",")
  {
    if |fields| > 1 {
      var tail := "," + Join(fields[1..], ",");
      assert Join(fields, ",") == fields[0] + tail;
      assert Join(FirstShortened(fields), ",") == fields[0][1..] + tail;
    }
  }

  /** `split_quoted_csv` is lossless and splits at the unquoted commas and nowhere
      else: its result is the one list of fields with those two properties. */
  lemma SplitIsTheCut(s: string, fields: seq<string>)
    ensures fields == SplitQuotedCsv(s) <==> Join(fields, ",") == s && CutAtBareCommas(fields, false)
  {
    SplitFromLossless(s, false);
    SplitFromCuts(s, false);
    if CutAtBareCommas(fields, false) {
      SplitFromUnique(fields, false);
    }
  }

  // Collected responses

  /** What `collect_until_terminator` keeps of the lines it reads: those before the
      terminator that are not blank, and the terminator. */
  function Gather(lines: seq<string>): seq<string> {
    if lines == [] then []
    else if IsTerminator(lines[0]) then [lines[0]]
    else (if Trim(lines[0]) == "" then [] else [lines[0]]) + Gather(lines[1..])
  }

  // Fields of other responses

  /** The first line with the prefix, trimmed and without it. */
  function FindField(lines: seq<string>, prefix: string): Option<string> {
    if lines == [] then None
    else if StartsWith(Trim(lines[0]), prefix) then Some(Trim(lines[0])[|prefix|..])
    else FindField(lines[1..], prefix)
  }

  datatype SimStatus = Ready | NotReady | Unknown

  function ParseCpin(lines: seq<string>): SimStatus {
    match FindField(lines, "+CPIN:")
    case Some(rest) => if Trim(rest) == "READY" then Ready else NotReady
    case None => Unknown
  }

  function SplitCommas(s: string): (parts: seq<string>)
    ensures parts != []
    decreases |s|
  {
    var i := IndexOf(s, ',');
    if i == |s| then [s] else [s[..i]] + SplitCommas(s[i + 1..])
  }

  function TrimQuotes(s: string): string {
    if s != "" && s[0] == '"' then TrimQuotes(s[1..])
    else if s != "" && s[|s| - 1] == '"' then TrimQuotes(s[..|s| - 1])
    else s
  }

  function ParseCregRegistered(lines: seq<string>): bool {
    match FindField(lines, "+CREG:")
    case Some(rest) =>
      var fields := SplitCommas(rest);
      |fields| > 1 && TrimQuotes(Trim(fields[1])) in ["1", "5"]
    case None => false
  }

  // Status answers

  /** The first line with the prefix is the one read. */
  lemma {:induction false} FirstField(lines: seq<string>, i: nat, prefix: string, rest: string)
    requires i < |lines| && Trim(lines[i]) == prefix + rest
    requires forall k :: 0 <= k < i ==> !StartsWith(Trim(lines[k]), prefix)
    ensures FindField(lines, prefix) == Some(rest)
  {
    if i > 0 {
      FirstField(lines[1..], i - 1, prefix, rest);
    } else {
      assert (prefix + rest)[|prefix|..] == rest;
    }
  }

  lemma {:induction false} NoField(lines: seq<string>, prefix: string)
    requires forall k :: 0 <= k < |lines| ==> !StartsWith(Trim(lines[k]), prefix)
    ensures FindField(lines, prefix) == None
  {
    if lines != [] {
      NoField(lines[1..], prefix);
    }
  }

  lemma DigitsAreNotQuoted(s: string)
    requires s != "" && AllDigits(s)
    ensures TrimQuotes(s) == s
  {
    assert IsDigit(s[0]) && IsDigit(s[|s| - 1]);
  }

  lemma NoComma(digits: string)
    requires AllDigits(digits)
    ensures ',' !in digits
  {
  }

  lemma SecondField(first: string, second: string, tail: string)
    requires ',' !in first && ',' !in second && (tail == "" || tail[0] == ',')
    ensures |SplitCommas(first + "," + second + tail)| > 1 && SplitCommas(first + "," + second + tail)[1] == second
  {
    var all, after := first + "," + second + tail, second + tail;
    IndexOfIs(all, ',', |first|);
    assert all[|first| + 1..] == after;
    IndexOfIs(after, ',', |second|);
    assert after[..|second|] == second;
  }

  lemma OneOrFive(stat: nat)
    ensures Decimal(stat) in ["1", "5"] <==> stat in {1, 5}
  {
    DecimalValue(stat);
    assert "1"[..0] == "" && "5"[..0] == "";
    assert DigitsValue("1") == 1 && DigitsValue("5") == 5;
  }

  /** A `+CREG: <n>,<stat>` line, whatever follows in it, says registered exactly for
      `stat` 1 (home) and 5 (roaming), in 3GPP TS 27.007, section 7.2. */
  lemma RegistrationReads(lines: seq<string>, i: nat, n: nat, stat: nat, tail: string)
    requires i < |lines| && (forall k :: 0 <= k < i ==> !StartsWith(Trim(lines[k]), "+CREG:"))
    requires Trim(lines[i]) == "+CREG:" + (" " + Decimal(n) + "," + Decimal(stat) + tail)
    requires tail == "" || tail[0] == ','
    ensures ParseCregRegistered(lines) <==> stat in {1, 5}
  {
    FirstField(lines, i, "+CREG:", " " + Decimal(n) + "," + Decimal(stat) + tail);
    NoComma(Decimal(n));
    NoComma(Decimal(stat));
    SecondField(" " + Decimal(n), Decimal(stat), tail);
    DecimalTight(stat);
    TrimTight(Decimal(stat));
    DigitsAreNotQuoted(Decimal(stat));
    OneOrFive(stat);
  }

  /** A `+CPIN: <state>` line says ready exactly for `READY`; without one the SIM is
      unknown. */
  lemma SimReads(lines: seq<string>, i: nat, state: string)
    requires i < |lines| && (forall k :: 0 <= k < i ==> !StartsWith(Trim(lines[k]), "+CPIN:"))
    requires Trim(lines[i]) == "+CPIN:" + (" " + state) && Tight(state)
    ensures ParseCpin(lines) == if state == "READY" then Ready else NotReady
  {
    FirstField(lines, i, "+CPIN:", " " + state);
    TrimSpace(state);
    TrimTight(state);
  }

  lemma NothingReported(lines: seq<string>)
    ensures (forall k :: 0 <= k < |lines| ==> !StartsWith(Trim(lines[k]), "+CPIN:")) ==> ParseCpin(lines) == Unknown
    ensures (forall k :: 0 <= k < |lines| ==> !StartsWith(Trim(lines[k]), "+CREG:")) ==> !ParseCregRegistered(lines)
  {
    if forall k :: 0 <= k < |lines| ==> !StartsWith(Trim(lines[k]), "+CPIN:") {
      NoField(lines, "+CPIN:");
    }
    if forall k :: 0 <= k < |lines| ==> !StartsWith(Trim(lines[k]), "+CREG:") {
      NoField(lines, "+CREG:");
    }
  }

  /** `parse_cmti_index`: the number after the last comma of a `+CMTI:` line. */
  function ParseCmtiIndex(line: string): Option<nat> {
    var trimmed := Trim(line);
    if !StartsWith(trimmed, "+CMTI:") then None
    else
      var fields := SplitCommas(trimmed[6..]);
      ParseUnsigned(Trim(fields[|fields| - 1]), U32_MAX)
  }
}
