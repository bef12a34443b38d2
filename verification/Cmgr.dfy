/** The `+CMGR` reader of `modem/protocol.rs` and the two printers it undoes. */
module Cmgr {
  import opened Text
  import opened Protocol
  import Ucs2

  datatype ParsedInbound = ParsedInbound(sender: string, body: string)

  predicate IsHeader(line: string) {
    StartsWith(TrimStart(line), "+CMGR:")
  }

  function HeaderFields(header: string): seq<string>
    requires IsHeader(header)
  {
    SplitQuotedCsv(Trim(TrimStart(header)[6..]))
  }

  function SenderOf(header: string): Option<string>
    requires IsHeader(header)
  {
    var fields := HeaderFields(header);
    if |fields| > 1 then Some(TrimQuotes(Trim(fields[1]))) else None
  }

  /** UCS2: bits 3 and 2 of the data-coding scheme, the eighth field, are 1 and 0. */
  predicate IsUcs2(header: string)
    requires IsHeader(header)
  {
    var fields := HeaderFields(header);
    |fields| > 7 &&
    match ParseUnsigned(TrimQuotes(Trim(fields[7])), U16_MAX)
    case Some(dcs) => dcs / 4 % 4 == 2
    case None => false
  }

  function BodyText(rawBody: string, ucs2: bool): string {
    if !ucs2 then rawBody
    else match Ucs2.Decoded(Trim(rawBody))
      case Some(text) => text
      case None => rawBody
  }

  /** The position of the header line, or the number of lines. */
  function HeaderIndex(lines: seq<string>): (h: nat)
    ensures h <= |lines| && (h < |lines| ==> IsHeader(lines[h]))
    ensures forall i :: 0 <= i < h ==> !IsHeader(lines[i])
  {
    if lines == [] || IsHeader(lines[0]) then 0 else 1 + HeaderIndex(lines[1..])
  }

  function ParseLines(lines: seq<string>): Option<ParsedInbound> {
    var h := HeaderIndex(lines);
    if h == |lines| then None
    else
      var rest := lines[h + 1..];
      match SenderOf(lines[h])
      case None => None
      case Some(sender) =>
        Some(ParsedInbound(sender, BodyText(Join(rest[..FirstTerminator(rest)], "\n"), IsUcs2(lines[h]))))
  }

  function Parsed(response: string): Option<ParsedInbound> {
    ParseLines(Lines(response))
  }

  /** The body lines of `parse_cmgr`: from the header up to a terminator. */
  method BodyLines(lines: seq<string>, h: nat) returns (body: seq<string>)
    requires h < |lines|
    ensures var rest := lines[h + 1..]; body == rest[..FirstTerminator(rest)]
  {
    body := [];
    ghost var rest := lines[h + 1..];
    var i := h + 1;
    while i < |lines| && !IsTerminator(lines[i])
      invariant h < i <= |lines| && body == rest[..i - h - 1]
      invariant forall k :: 0 <= k < i - h - 1 ==> !IsTerminator(rest[k])
    {
      body := body + [lines[i]];
      i := i + 1;
    }
  }

  /** `parse_cmgr`. */
  method ParseCmgr(response: string) returns (parsed: Option<ParsedInbound>)
    ensures parsed == Parsed(response)
  {
    var lines := Lines(response);
    var h := 0;
    while h < |lines| && !IsHeader(lines[h])
      invariant 0 <= h <= |lines|
      invariant forall i :: 0 <= i < h ==> !IsHeader(lines[i])
    {
      h := h + 1;
    }
    if h == |lines| {
      return None;
    }
    var header := lines[h];
    var fields := SplitFields(Trim(TrimStart(header)[6..]));
    if |fields| <= 1 {
      return None;
    }
    var bodyLines := BodyLines(lines, h);
    return Some(ParsedInbound(TrimQuotes(Trim(fields[1])), BodyText(Join(bodyLines, "\n"), IsUcs2(header))));
  }

  lemma OneField(s: string)
    ensures |SplitQuotedCsv(s)| == 1 <==> NoBareComma(s, false)
  {
    SplitIsTheCut(s, SplitQuotedCsv(s));
    SplitIsTheCut(s, [s]);
  }

  /** There is no message to be read exactly when no line is a header, or the first that
      is has no comma outside quotes, and so no sender. */
  lemma NothingToRead(response: string)
    ensures Parsed(response).None? <==>
            var lines := Lines(response);
            var h := HeaderIndex(lines);
              h == |lines| || NoBareComma(Trim(TrimStart(lines[h])[6..]), false)
  {
    var lines := Lines(response);
    var h := HeaderIndex(lines);
    if h < |lines| {
      OneField(Trim(TrimStart(lines[h])[6..]));
    }
  }

  // Headers put together from fields

  predicate QuoteFree(s: string) {
    forall i :: 0 <= i < |s| ==> s[i] != '"'
  }

  function Quoted(s: string): string {
    "\"" + s + "\""
  }

  /** A bare field, or a quoted one whose text may hold commas. */
  ghost predicate Atomic(field: string) {
    || (QuoteFree(field) && ',' !in field)
    || exists s :: field == Quoted(s) && QuoteFree(s)
  }

  lemma {:induction false} InsideQuotes(s: string)
    requires QuoteFree(s)
    ensures NoBareComma(s + "\"", true) && !QuotedAfter(s + "\"", true)
  {
    if s != "" {
      InsideQuotes(s[1..]);
      assert (s + "\"")[1..] == s[1..] + "\"";
    } else {
      assert ("" + "\"")[1..] == "";
    }
  }

  lemma {:induction false} BareField(s: string)
    requires QuoteFree(s) && ',' !in s
    ensures NoBareComma(s, false) && !QuotedAfter(s, false)
  {
    if s != "" {
      BareField(s[1..]);
    }
  }

  lemma AtomicField(field: string)
    requires Atomic(field)
    ensures NoBareComma(field, false) && !QuotedAfter(field, false)
  {
    if QuoteFree(field) && ',' !in field {
      BareField(field);
    } else {
      var s :| field == Quoted(s) && QuoteFree(s);
      InsideQuotes(s);
      assert field[1..] == s + "\"";
    }
  }

  lemma {:induction false} AtomicCut(fields: seq<string>)
    requires fields != [] && forall i :: 0 <= i < |fields| ==> Atomic(fields[i])
    ensures CutAtBareCommas(fields, false)
  {
    AtomicField(fields[0]);
    if |fields| > 1 {
      AtomicCut(fields[1..]);
    }
  }

  /** Fields a modem writes: the first quoted, the last neither empty nor padded. */
  ghost predicate HeaderShape(fields: seq<string>) {
    && |fields| > 1
    && (forall i :: 0 <= i < |fields| ==> Atomic(fields[i]))
    && (exists stat :: fields[0] == Quoted(stat))
    && fields[|fields| - 1] != "" && Tight(fields[|fields| - 1])
  }

  function HeaderLine(fields: seq<string>): string {
    "+CMGR: " + Join(fields, ",")
  }

  lemma {:induction false} JoinEnds(fields: seq<string>)
    requires fields != [] && fields[|fields| - 1] != ""
    ensures Join(fields, ",") != ""
    ensures Join(fields, ",")[|Join(fields, ",")| - 1] == fields[|fields| - 1][|fields[|fields| - 1]| - 1]
    ensures fields[0] != "" ==> Join(fields, ",")[0] == fields[0][0]
  {
    if |fields| > 1 {
      JoinEnds(fields[1..]);
    }
  }

  lemma HeaderReads(fields: seq<string>)
    requires HeaderShape(fields)
    ensures var header := HeaderLine(fields);
              Tight(header) && IsHeader(header) && HeaderFields(header) == fields && !IsTerminator(header)
  {
    var header, joined := HeaderLine(fields), Join(fields, ",");
    JoinEnds(fields);
    assert joined[0] == '"';
    assert header[|header| - 1] == joined[|joined| - 1] && header[0] == '+';
    TrimTight(header);
    TrimTight(joined);
    assert header[6..] == " " + joined;
    TrimSpace(joined);
    AtomicCut(fields);
    SplitFromUnique(fields, false);
    assert header[3] == 'G';
  }

  lemma QuoteFreeIsKept(s: string)
    requires QuoteFree(s)
    ensures TrimQuotes(s) == s
  {
  }

  lemma TrimClosingQuote(s: string)
    requires QuoteFree(s)
    ensures TrimQuotes(s + "\"") == s
  {
    QuoteFreeIsKept(s);
    ClosingQuoteOff(s + "\"", s);
  }

  lemma ClosingQuoteOff(tail: string, s: string)
    requires tail == s + "\"" && TrimQuotes(s) == s && (s == "" || s[0] != '"')
    ensures TrimQuotes(tail) == s
  {
    if s == "" {
      assert tail[1..] == "";
    } else {
      assert tail[..|tail| - 1] == s && tail[0] == s[0];
    }
  }

  lemma TrimQuotesInside(s: string)
    requires QuoteFree(s)
    ensures TrimQuotes(Quoted(s)) == s
  {
    TrimClosingQuote(s);
    assert Quoted(s)[1..] == s + "\"";
  }

  lemma SenderReads(fields: seq<string>, sender: string)
    requires HeaderShape(fields) && fields[1] == Quoted(sender) && QuoteFree(sender)
    ensures IsHeader(HeaderLine(fields)) && SenderOf(HeaderLine(fields)) == Some(sender)
  {
    HeaderReads(fields);
    TrimTight(Quoted(sender));
    TrimQuotesInside(sender);
  }

  // The plain printer and its exact inverse condition

  function FormatFields(sender: string): seq<string> {
    [Quoted("REC UNREAD"), Quoted(sender), "", Quoted("24/01/02,03:04:05+00")]
  }

  /** `format_cmgr_response`. */
  function FormatCmgrResponse(sender: string, body: string): string {
    HeaderLine(FormatFields(sender)) + "\r\n" + body + "\r\nOK"
  }

  lemma FormatShape(sender: string)
    requires QuoteFree(sender)
    ensures HeaderShape(FormatFields(sender))
  {
    var fields := FormatFields(sender);
    assert QuoteFree("REC UNREAD") && QuoteFree("24/01/02,03:04:05+00");
    assert forall i :: 0 <= i < |fields| ==> Atomic(fields[i]);
  }

  /** The source's literal text. */
  lemma FormatText(sender: string, body: string)
    ensures FormatCmgrResponse(sender, body)
         == "+CMGR: \"REC UNREAD\",\"" + sender + "\",,\"24/01/02,03:04:05+00\"\r\n" + body + "\r\nOK"
  {
    FormatJoin(sender);
    FormatEnds();
    Regroup("+CMGR: ", Quoted("REC UNREAD"), sender, Quoted("24/01/02,03:04:05+00"), body + "\r\nOK");
    assert FormatCmgrResponse(sender, body) == HeaderLine(FormatFields(sender)) + ("\r\n" + (body + "\r\nOK"));
    assert "+CMGR: \"REC UNREAD\",\"" + sender + "\",,\"24/01/02,03:04:05+00\"\r\n" + body + "\r\nOK"
        == "+CMGR: \"REC UNREAD\",\"" + sender + "\",,\"24/01/02,03:04:05+00\"\r\n" + (body + "\r\nOK");
  }

  lemma FormatEnds()
    ensures "+CMGR: " + Quoted("REC UNREAD") + "," + "\"" == "+CMGR: \"REC UNREAD\",\""
    ensures "\"" + "," + "," + Quoted("24/01/02,03:04:05+00") + "\r\n" == "\",,\"24/01/02,03:04:05+00\"\r\n"
  {
    FormatStart();
    FormatTail();
  }

  lemma FormatStart()
    ensures "+CMGR: " + Quoted("REC UNREAD") + "," + "\"" == "+CMGR: \"REC UNREAD\",\""
  {
    assert Quoted("REC UNREAD") == "\"REC UNREAD\"";
    assert "+CMGR: " + "\"REC UNREAD\"" == "+CMGR: \"REC UNREAD\"";
  }

  lemma FormatTail()
    ensures "\"" + "," + "," + Quoted("24/01/02,03:04:05+00") + "\r\n" == "\",,\"24/01/02,03:04:05+00\"\r\n"
  {
    QuotedDate();
    assert "\"" + "," + "," == "\",,";
  }

  lemma QuotedDate()
    ensures Quoted("24/01/02,03:04:05+00") == "\"24/01/02,03:04:05+00\""
  {
  }

  lemma Regroup(a: string, b: string, s: string, d: string, rest: string)
    ensures a + (b + "," + (Quoted(s) + "," + ("" + "," + d))) + ("\r\n" + rest)
         == (a + b + "," + "\"") + s + ("\"" + "," + "," + d + "\r\n") + rest
  {
  }

  lemma FormatJoin(sender: string)
    ensures var f := FormatFields(sender); Join(f, ",") == f[0] + "," + (f[1] + "," + (f[2] + "," + f[3]))
  {
    var f := FormatFields(sender);
    assert f[1..] == [f[1], f[2], f[3]] && f[1..][1..] == [f[2], f[3]] && f[1..][1..][1..] == [f[3]];
    assert Join([f[2], f[3]], ",") == f[2] + "," + f[3];
    assert Join([f[1], f[2], f[3]], ",") == f[1] + "," + Join([f[2], f[3]], ",");
  }

  /** Lines as they arrive: each but the last loses a carriage return at its end. */
  function Stripped(lines: seq<string>): (r: seq<string>)
    ensures |r| == |lines|
  {
    if |lines| <= 1 then lines else [StripCr(lines[0])] + Stripped(lines[1..])
  }

  lemma LastResponseLine(line: string)
    requires '\n' !in line
    ensures Lines(line + "\r\nOK") == [line] + ["OK"]
  {
    LinesLast("OK");
    FirstLine(line, "OK");
    assert line + "\r\nOK" == line + "\r" + "\n" + "OK";
  }

  lemma StrippedCons(line: string, rest: seq<string>)
    requires rest != []
    ensures Stripped([line] + rest) == [StripCr(line)] + Stripped(rest)
  {
    assert ([line] + rest)[1..] == rest;
  }

  lemma CutAtNewline(body: string, i: nat, end: string)
    requires i < |body| && body[i] == '\n'
    ensures body + end == body[..i] + "\n" + (body[i + 1..] + end)
  {
  }

  lemma {:induction false} ResponseLines(body: string)
    ensures Lines(body + "\r\nOK") == Stripped(SplitNewlines(body)) + ["OK"]
    decreases |body|
  {
    var i := IndexOf(body, '\n');
    if i == |body| {
      LastResponseLine(body);
    } else {
      var line, rest := body[..i], body[i + 1..];
      CutAtNewline(body, i, "\r\nOK");
      ResponseLines(rest);
      LinesCons(line, rest + "\r\nOK");
      StrippedCons(line, SplitNewlines(rest));
      Associate([StripCr(line)], Stripped(SplitNewlines(rest)), ["OK"]);
    }
  }

  function Total(lines: seq<string>): nat {
    if lines == [] then 0 else |lines[0]| + Total(lines[1..])
  }

  lemma {:induction false} JoinLength(lines: seq<string>)
    ensures |Join(lines, "\n")| == Total(lines) + (if lines == [] then 0 else |lines| - 1)
  {
    if |lines| > 1 {
      JoinLength(lines[1..]);
    }
  }

  /** No line of the body would end the response, and no line feed in it is
      preceded by a carriage return. */
  ghost predicate Transparent(body: string) {
    var lines := SplitNewlines(body);
    Stripped(lines) == lines && forall i :: 0 <= i < |lines| ==> !IsTerminator(lines[i])
  }

  lemma {:induction false} StrippedShrinks(lines: seq<string>, k: nat)
    requires k <= |lines|
    ensures Total(Stripped(lines)[..k]) <= Total(lines)
    ensures k == |lines| && Total(Stripped(lines)[..k]) == Total(lines) ==> Stripped(lines) == lines
  {
    if |lines| <= 1 {
      assert Stripped(lines)[..k] == lines || Stripped(lines)[..k] == [];
    } else if k == 0 {
    } else {
      StrippedShrinks(lines[1..], k - 1);
      assert Stripped(lines)[..k][1..] == Stripped(lines[1..])[..k - 1];
      assert lines == [lines[0]] + lines[1..];
    }
  }

  /** `parse_cmgr` undoes `format_cmgr_response` exactly on transparent bodies, for
      every sender without quotes or line feeds. */
  lemma FormatRoundTrip(sender: string, body: string)
    requires QuoteFree(sender) && '\n' !in sender
    ensures Parsed(FormatCmgrResponse(sender, body)) == Some(ParsedInbound(sender, body)) <==> Transparent(body)
  {
    FormatParses(sender, body);
    BodyRead(body);
  }

  function ReadBody(body: string): string {
    var rest := Stripped(SplitNewlines(body)) + ["OK"];
    Join(rest[..FirstTerminator(rest)], "\n")
  }

  lemma BodyRead(body: string)
    ensures ReadBody(body) == body <==> Transparent(body)
  {
    JoinSplitNewlines(body);
    BodyRecovered(SplitNewlines(body), "OK");
  }

  lemma FormatParses(sender: string, body: string)
    requires QuoteFree(sender) && '\n' !in sender
    ensures Parsed(FormatCmgrResponse(sender, body)) == Some(ParsedInbound(sender, ReadBody(body)))
  {
    FormatLines(sender, body);
    FormattedParses(sender, Stripped(SplitNewlines(body)) + ["OK"]);
  }

  lemma FormattedParses(sender: string, rest: seq<string>)
    requires QuoteFree(sender)
    ensures ParseLines([HeaderLine(FormatFields(sender))] + rest)
              == Some(ParsedInbound(sender, Join(rest[..FirstTerminator(rest)], "\n")))
  {
    FormatShape(sender);
    HeaderReads(FormatFields(sender));
    SenderReads(FormatFields(sender), sender);
    assert ([HeaderLine(FormatFields(sender))] + rest)[1..] == rest;
  }

  lemma FormatLines(sender: string, body: string)
    requires '\n' !in sender
    ensures Lines(FormatCmgrResponse(sender, body))
         == [HeaderLine(FormatFields(sender))] + (Stripped(SplitNewlines(body)) + ["OK"])
  {
    HeaderHasNoNewline(sender);
    FormatIs(sender, body);
    FirstLine(HeaderLine(FormatFields(sender)), body + "\r\nOK");
    ResponseLines(body);
  }

  lemma FormatIs(sender: string, body: string)
    ensures FormatCmgrResponse(sender, body) == HeaderLine(FormatFields(sender)) + "\r" + "\n" + (body + "\r\nOK")
  {
  }

  lemma FirstLine(line: string, rest: string)
    requires '\n' !in line
    ensures Lines(line + "\r" + "\n" + rest) == [line] + Lines(rest)
  {
    LinesCons(line + "\r", rest);
    assert (line + "\r")[..|line|] == line;
  }

  lemma HeaderHasNoNewline(sender: string)
    requires '\n' !in sender
    ensures '\n' !in HeaderLine(FormatFields(sender))
  {
    FormatJoin(sender);
  }

  /** Where reading stops in lines that a terminator follows. */
  lemma StopsAt(kept: seq<string>, end: string)
    requires IsTerminator(end)
    ensures var k := FirstTerminator(kept + [end]);
              && k <= |kept|
              && (kept + [end])[..k] == kept[..k]
              && (k < |kept| ==> IsTerminator(kept[k]))
              && (k == |kept| <==> forall i :: 0 <= i < |kept| ==> !IsTerminator(kept[i]))
  {
    var rest := kept + [end];
    var k := FirstTerminator(rest);
    assert rest[|kept|] == end;
    assert forall i :: 0 <= i < |kept| ==> rest[i] == kept[i];
  }

  lemma BodyRecovered(lines: seq<string>, end: string)
    requires lines != [] && IsTerminator(end)
    ensures var rest := Stripped(lines) + [end];
              Join(rest[..FirstTerminator(rest)], "\n") == Join(lines, "\n")
              <==> Stripped(lines) == lines && forall i :: 0 <= i < |lines| ==> !IsTerminator(lines[i])
  {
    var kept := Stripped(lines);
    StopsAt(kept, end);
    var k := FirstTerminator(kept + [end]);
    if k < |lines| || kept != lines {
      Shorter(lines, k);
    } else {
      assert kept[..k] == lines;
    }
  }

  lemma Shorter(lines: seq<string>, k: nat)
    requires lines != [] && k <= |lines|
    requires k == |lines| ==> Stripped(lines) != lines
    requires k < |lines| ==> IsTerminator(Stripped(lines)[k])
    ensures |Join(Stripped(lines)[..k], "\n")| < |Join(lines, "\n")|
  {
    JoinLength(Stripped(lines)[..k]);
    JoinLength(lines);
    StrippedShrinks(lines, k);
    if k == 0 && |lines| == 1 {
      assert lines[0] != "";
    }
  }

  /** What the reader makes of the lines a read exchange delivers. */
  function ReadMessage(lines: seq<string>): Option<ParsedInbound> {
    Parsed(Join(Gather(lines), "\n"))
  }

  lemma HexIsData(text: string)
    requires text != ""
    ensures var hex := Ucs2.Encoded(text);
              hex != "" && Tight(hex) && Trim(hex) == hex && !IsTerminator(hex) && Plain(hex)
  {
    var hex := Ucs2.Encoded(text);
    assert Ucs2.Utf16(text) != [];
    assert Ucs2.IsHexDigit(hex[0]) && Ucs2.IsHexDigit(hex[1]) && Ucs2.IsHexDigit(hex[|hex| - 1]);
    TrimTight(hex);
    assert forall i :: 0 <= i < |hex| ==> Ucs2.IsHexDigit(hex[i]);
  }

  function NonBlank(lines: seq<string>): seq<string> {
    if lines == [] then []
    else (if Trim(lines[0]) == "" then [] else [lines[0]]) + NonBlank(lines[1..])
  }

  /** Blank lines make no difference, wherever they stand. */
  lemma {:induction false} GatherNonBlank(lines: seq<string>, data: seq<string>, end: string)
    requires NonBlank(lines) == data + [end] && IsTerminator(end)
    requires forall i :: 0 <= i < |data| ==> !IsTerminator(data[i])
    ensures Gather(lines) == data + [end]
  {
    if Trim(lines[0]) == "" {
      GatherNonBlank(lines[1..], data, end);
    } else if data != [] {
      assert NonBlank(lines)[1..] == NonBlank(lines[1..]) && (data + [end])[1..] == data[1..] + [end];
      assert lines[0] == NonBlank(lines)[0] == data[0];
      GatherNonBlank(lines[1..], data[1..], end);
      assert [data[0]] + (data[1..] + [end]) == data + [end];
    } else {
      assert lines[0] == NonBlank(lines)[0] == end;
    }
  }

  // Messages, end to end

  /** A line that joining and splitting leaves whole. */
  predicate Whole(line: string) {
    line != "" && '\n' !in line && line[|line| - 1] != '\r'
  }

  predicate AllWhole(lines: seq<string>) {
    forall i :: 0 <= i < |lines| ==> Whole(lines[i])
  }

  lemma {:induction false} LinesOfJoin(lines: seq<string>)
    requires lines != [] && AllWhole(lines)
    ensures Lines(Join(lines, "\n")) == lines
  {
    if |lines| == 1 {
      LinesLast(lines[0]);
    } else {
      LinesOfJoin(lines[1..]);
      LinesCons(lines[0], Join(lines[1..], "\n"));
      assert Join(lines, "\n") == lines[0] + "\n" + Join(lines[1..], "\n");
      assert [lines[0]] + lines[1..] == lines;
    }
  }

  /** The lines of an answer to a read: a header, body lines and `OK`, with blank ones
      anywhere. */
  ghost predicate AnswerIs(lines: seq<string>, header: string, body: seq<string>) {
    && NonBlank(lines) == [header] + body + ["OK"]
    && Whole(header) && !IsTerminator(header)
    && forall i :: 0 <= i < |body| ==> Whole(body[i]) && !IsTerminator(body[i])
  }

  lemma OkIsTerminator()
    ensures IsTerminator("OK") && ClassifyLine("OK") == Terminator(Ok) && Whole("OK")
  {
    TrimTight("OK");
  }

  lemma AnswerLines(lines: seq<string>, header: string, body: seq<string>)
    requires AnswerIs(lines, header, body)
    ensures ReadMessage(lines) == ParseLines([header] + body + ["OK"])
  {
    var data, all := [header] + body, [header] + body + ["OK"];
    OkIsTerminator();
    GatherNonBlank(lines, data, "OK");
    forall i | 0 <= i < |all|
      ensures Whole(all[i])
    {
      assert i == 0 || i == |all| - 1 || all[i] == body[i - 1];
    }
    LinesOfJoin(all);
  }

  lemma HeaderFirst(header: string, rest: seq<string>)
    requires IsHeader(header) && SenderOf(header).Some?
    ensures ParseLines([header] + rest)
         == Some(ParsedInbound(SenderOf(header).value,
             BodyText(Join(rest[..FirstTerminator(rest)], "\n"), IsUcs2(header))))
  {
    assert ([header] + rest)[1..] == rest;
  }

  lemma BodyStops(body: seq<string>)
    requires forall i :: 0 <= i < |body| ==> !IsTerminator(body[i])
    ensures (body + ["OK"])[..FirstTerminator(body + ["OK"])] == body
  {
    OkIsTerminator();
    StopsAt(body, "OK");
  }

  lemma HeaderThenBody(header: string, body: seq<string>)
    requires IsHeader(header) && SenderOf(header).Some?
    requires forall i :: 0 <= i < |body| ==> !IsTerminator(body[i])
    ensures ParseLines([header] + body + ["OK"])
         == Some(ParsedInbound(SenderOf(header).value, BodyText(Join(body, "\n"), IsUcs2(header))))
  {
    Associate([header], body, ["OK"]);
    HeaderFirst(header, body + ["OK"]);
    BodyStops(body);
  }

  /** The sender, and the body lines as they stand or, if the header says UCS2 and they
      decode, decoded. */
  lemma MessageReads(fields: seq<string>, sender: string, body: seq<string>, lines: seq<string>)
    requires HeaderShape(fields) && fields[1] == Quoted(sender) && QuoteFree(sender)
    requires AnswerIs(lines, HeaderLine(fields), body)
    ensures IsHeader(HeaderLine(fields))
    ensures ReadMessage(lines) == Some(ParsedInbound(sender, BodyText(Join(body, "\n"), IsUcs2(HeaderLine(fields)))))
  {
    HeaderReads(fields);
    SenderReads(fields, sender);
    AnswerLines(lines, HeaderLine(fields), body);
    HeaderThenBody(HeaderLine(fields), body);
  }

  /** A data-coding scheme whose bits 3 and 2 are 1 and 0. */
  predicate CodesUcs2(dcs: nat) {
    dcs / 8 % 2 == 1 && dcs / 4 % 2 == 0
  }

  lemma BitsTwoAndThree(dcs: nat)
    ensures dcs / 4 % 4 == 2 <==> CodesUcs2(dcs)
  {
    assert dcs / 8 == dcs / 4 / 2;
  }

  /** The eighth field says whether the body is in UCS2. */
  lemma CodingRead(fields: seq<string>, dcs: nat)
    requires HeaderShape(fields) && (|fields| > 7 ==> fields[7] == Decimal(dcs))
    ensures IsHeader(HeaderLine(fields))
    ensures IsUcs2(HeaderLine(fields)) <==> |fields| > 7 && dcs <= U16_MAX && CodesUcs2(dcs)
  {
    HeaderReads(fields);
    if |fields| > 7 {
      DecimalTight(dcs);
      TrimTight(fields[7]);
      DigitsAreNotQuoted(fields[7]);
      DecimalValue(dcs);
      BitsTwoAndThree(dcs);
    }
  }

  /** A message that is not in UCS2 is read back line for line: in the short header
      format, or in the detailed one with any data-coding scheme but those. */
  lemma PlainMessageReads(fields: seq<string>, sender: string, dcs: nat, body: seq<string>, lines: seq<string>)
    requires HeaderShape(fields) && fields[1] == Quoted(sender) && QuoteFree(sender)
    requires |fields| > 7 ==> fields[7] == Decimal(dcs) && !(dcs <= U16_MAX && CodesUcs2(dcs))
    requires AnswerIs(lines, HeaderLine(fields), body)
    ensures ReadMessage(lines) == Some(ParsedInbound(sender, Join(body, "\n")))
  {
    MessageReads(fields, sender, body, lines);
    CodingRead(fields, dcs);
  }

  /** An inbound UCS2 message read back whole: for every sender without quotes or
      line feeds, every data-coding scheme that says UCS2 and every text, the empty
      one included, whose hexadecimal line is then blank and dropped, and whatever
      other blank lines come between. */
  lemma Ucs2MessageReads(fields: seq<string>, sender: string, dcs: nat, text: string, lines: seq<string>)
    requires HeaderShape(fields) && '\n' !in HeaderLine(fields)
    requires fields[1] == Quoted(sender) && QuoteFree(sender)
    requires |fields| > 7 && fields[7] == Decimal(dcs) && dcs <= U16_MAX && CodesUcs2(dcs)
    requires NonBlank(lines) == [HeaderLine(fields)] + (if text == "" then [] else [Ucs2.Encoded(text)]) + ["OK"]
    ensures ReadMessage(lines) == Some(ParsedInbound(sender, text))
  {
    var body := if text == "" then [] else [Ucs2.Encoded(text)];
    HeaderReads(fields);
    if text != "" {
      HexIsData(text);
      Ucs2.DecodeEncode(text);
    }
    MessageReads(fields, sender, body, lines);
    CodingRead(fields, dcs);
  }

  /** What says it is in UCS2 and does not decode is kept as it stands. */
  lemma UndecodableReads(fields: seq<string>, sender: string, dcs: nat, body: seq<string>, lines: seq<string>)
    requires HeaderShape(fields) && fields[1] == Quoted(sender) && QuoteFree(sender)
    requires |fields| > 7 ==> fields[7] == Decimal(dcs)
    requires AnswerIs(lines, HeaderLine(fields), body) && Ucs2.Decoded(Trim(Join(body, "\n"))).None?
    ensures ReadMessage(lines) == Some(ParsedInbound(sender, Join(body, "\n")))
  {
    MessageReads(fields, sender, body, lines);
  }
}
