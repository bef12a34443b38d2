/** The modem's side of the line: what the bytes it is sent ask of it, read by the
    syntax of the commands (3GPP TS 27.005, sections 3.2 to 3.5, and TS 27.007,
    section 5.5), and the settings they leave it in. */
module ModemSide {
  import opened Text
  import opened Segmentation
  import opened Utf8
  import Ucs2
  import opened Framing
  import opened Frames

  // Reading bytes

  /** What a modem is asked to do. A line it makes nothing of is `Other`. */
  datatype Order =
    | ReadStored(index: nat)
    | DeleteStored(index: nat)
    | UseCharset(name: string)
    | UseParameters(params: string)
    | Submit(address: string)
    | Other(text: string)
    | Content(payload: seq<Byte>)
    | Abandon
    | Noise

  function NumberIn(s: string): Option<nat> {
    if s != "" && AllDigits(s) then Some(DigitsValue(s)) else None
  }

  function QuotedIn(s: string): Option<string> {
    if |s| >= 2 && s[0] == '"' && s[|s| - 1] == '"' then Some(s[1..|s| - 1]) else None
  }

  /** A command line: the verb in any case, and its argument. */
  function OrderOf(text: string): Order {
    var upper := UpperCase(text);
    if |text| < 8 then Other(text)
    else
      var verb, argument := upper[..8], text[8..];
      if verb == "AT+CMGR=" && NumberIn(argument).Some? then ReadStored(NumberIn(argument).value)
      else if verb == "AT+CMGD=" && NumberIn(argument).Some? then DeleteStored(NumberIn(argument).value)
      else if verb == "AT+CSCS=" && QuotedIn(argument).Some? then UseCharset(QuotedIn(argument).value)
      else if verb == "AT+CSMP=" then UseParameters(argument)
      else if verb == "AT+CMGS=" && QuotedIn(argument).Some? then Submit(QuotedIn(argument).value)
      else Other(text)
  }

  /** What a run of bytes asks: a line ended by a carriage return, a text ended by
      Ctrl-Z, or ESC. */
  function Understood(bytes: seq<Byte>): Order {
    if bytes == [] then Noise
    else
      var front, last := bytes[..|bytes| - 1], bytes[|bytes| - 1];
      if last == CR then (match Decode(front) case Some(text) => OrderOf(text) case None => Noise)
      else if last == CTRL_Z then Content(front)
      else if bytes == [ESC] then Abandon
      else Noise
  }

  // The driver is understood

  /** What the driver means by a frame. */
  function Meaning(f: Frame): Order {
    match f
    case Command(text) => Other(text)
    case PassedOn(text) => Other(text)
    case ReadMessage(index) => ReadStored(index)
    case DeleteMessage(index) => DeleteStored(index)
    case SelectCharset(name) => UseCharset(name)
    case SetParameters(params) => UseParameters(params)
    case Header(to, encoding) => Submit(Address(to, encoding))
    case Body(text, encoding) => Content(CmgsBody(text, encoding)[..|CmgsBody(text, encoding)| - 1])
    case Escape => Abandon
  }

  lemma LineUnderstood(text: string)
    ensures Understood(Encode(text) + [CR]) == OrderOf(text)
  {
    RoundTrip(text);
    var bytes := Encode(text) + [CR];
    assert bytes[..|bytes| - 1] == Encode(text);
  }

  lemma PlainIsOther(text: string)
    requires Unprivileged(text)
    ensures OrderOf(text) == Other(text)
  {
    var upper := UpperCase(text);
    if |text| >= 8 {
      assert forall verb: string :: |verb| == 8 ==> (StartsWith(upper, verb) <==> upper[..8] == verb);
    }
  }

  lemma VerbRead(verb: string, argument: string)
    requires |verb| == 8 && forall i :: 0 <= i < 8 ==> !('a' <= verb[i] <= 'z')
    ensures |verb + argument| >= 8 && UpperCase(verb + argument)[..8] == verb && (verb + argument)[8..] == argument
  {
  }

  lemma NumberRead(index: nat)
    ensures NumberIn(Decimal(index)) == Some(index)
  {
    DecimalValue(index);
  }

  lemma QuotedRead(s: string)
    ensures QuotedIn("\"" + s + "\"") == Some(s)
  {
    var quoted := "\"" + s + "\"";
    assert quoted[1..|quoted| - 1] == s;
  }

  lemma VerbsDiffer()
    ensures "AT+CMGR=" != "AT+CMGD=" && "AT+CMGR=" != "AT+CSCS=" && "AT+CMGR=" != "AT+CSMP=" && "AT+CMGR=" != "AT+CMGS="
    ensures "AT+CMGD=" != "AT+CSCS=" && "AT+CMGD=" != "AT+CSMP=" && "AT+CMGD=" != "AT+CMGS="
    ensures "AT+CSCS=" != "AT+CSMP=" && "AT+CSCS=" != "AT+CMGS=" && "AT+CSMP=" != "AT+CMGS="
  {
    var read, delete, charset, params, send := "AT+CMGR=", "AT+CMGD=", "AT+CSCS=", "AT+CSMP=", "AT+CMGS=";
    assert read[6] == 'R' && delete[6] == 'D' && charset[5] == 'C' && params[6] == 'P' && send[5] == 'G'
           && send[6] == 'S';
    assert charset[6] == 'S' && read[5] == 'G' && delete[5] == 'G' && params[5] == 'M';
  }

  lemma ReadUnderstood(index: nat)
    ensures OrderOf("AT+CMGR=" + Decimal(index)) == ReadStored(index)
  {
    VerbRead("AT+CMGR=", Decimal(index));
    NumberRead(index);
  }

  lemma DeleteUnderstood(index: nat)
    ensures OrderOf("AT+CMGD=" + Decimal(index)) == DeleteStored(index)
  {
    VerbsDiffer();
    VerbRead("AT+CMGD=", Decimal(index));
    NumberRead(index);
  }

  lemma CharsetUnderstood(name: string)
    ensures OrderOf("AT+CSCS=\"" + name + "\"") == UseCharset(name)
  {
    VerbsDiffer();
    VerbRead("AT+CSCS=", "\"" + name + "\"");
    QuotedRead(name);
    assert "AT+CSCS=\"" + name + "\"" == "AT+CSCS=" + ("\"" + name + "\"");
  }

  lemma ParametersUnderstood(params: string)
    ensures OrderOf("AT+CSMP=" + params) == UseParameters(params)
  {
    VerbsDiffer();
    VerbRead("AT+CSMP=", params);
  }

  lemma SubmitUnderstood(address: string)
    ensures OrderOf("AT+CMGS=\"" + address + "\"") == Submit(address)
  {
    VerbsDiffer();
    VerbRead("AT+CMGS=", "\"" + address + "\"");
    QuotedRead(address);
    assert "AT+CMGS=\"" + address + "\"" == "AT+CMGS=" + ("\"" + address + "\"");
  }

  lemma HeaderUnderstood(to: string, encoding: Encoding)
    ensures Understood(CmgsHeader(to, encoding)) == Submit(Address(to, encoding))
  {
    var text := "AT+CMGS=\"" + Address(to, encoding) + "\"";
    SubmitUnderstood(Address(to, encoding));
    ReturnEnds(text);
    assert "AT+CMGS=\"" + Address(to, encoding) + "\"\r" == text + "\r";
    LineUnderstood(text);
  }

  lemma ReturnEnds(text: string)
    ensures Encode(text + "\r") == Encode(text) + [CR]
  {
    EncodeConcat(text, "\r");
    assert Encode("\r") == [CR];
  }

  lemma CommandUnderstood(f: Frame)
    requires Allowed(f) && IsCommand(f)
    ensures OrderOf(CommandText(f)) == Meaning(f)
  {
    if IsPlain(f) {
      PlainIsUnprivileged(f);
      PlainIsOther(f.text);
    } else {
      match f
      case ReadMessage(index) => ReadUnderstood(index);
      case DeleteMessage(index) => DeleteUnderstood(index);
      case SelectCharset(name) => CharsetUnderstood(name);
      case SetParameters(params) => ParametersUnderstood(params);
    }
  }

  /** The modem makes of the bytes of a frame what the driver means by it: the verb and
      the argument, and nothing but those commands for a command of that kind. */
  lemma FramesAreUnderstood(f: Frame)
    requires Allowed(f)
    ensures Understood(Render(f)) == Meaning(f)
  {
    if f.Header? {
      HeaderUnderstood(f.to, f.encoding);
    } else if f.Body? {
      OneTerminator(f.text, f.encoding);
    } else if !f.Escape? {
      LineUnderstood(CommandText(f));
      CommandUnderstood(f);
    }
  }

  /** Only a delete, and that of the same index, is understood as one. */
  lemma DeletesAreDeletes(f: Frame, index: nat)
    requires Allowed(f) && Understood(Render(f)) == DeleteStored(index)
    ensures f == DeleteMessage(index)
  {
    FramesAreUnderstood(f);
  }

  /** The bytes on the line say which frame was written, though not on whose behalf;
      of a submission they say which half it is. */
  lemma FramesReadBack(f: Frame, g: Frame)
    requires Allowed(f) && Allowed(g) && Render(f) == Render(g)
    ensures || f == g || (f.Header? && g.Header?) || (f.Body? && g.Body?)
            || (IsPlain(f) && IsPlain(g) && f.text == g.text)
  {
    FramesAreUnderstood(f);
    FramesAreUnderstood(g);
  }

  // What the modem is set to

  /** What an order sets, and to what. */
  function Assignment(order: Order): Option<(string, string)> {
    match order
    case UseCharset(name) => Some(("AT+CSCS", name))
    case UseParameters(params) => Some(("AT+CSMP", params))
    case Other(text) =>
      var i := IndexOf(text, '=');
      if i == |text| then None else Some((UpperCase(text[..i]), text[i + 1..]))
    case _ => None
  }

  /** What some frames leave it set to, by their bytes. */
  function Configured(frames: seq<Frame>): map<string, string> {
    if frames == [] then map[]
    else
      var before := Configured(frames[..|frames| - 1]);
      match Assignment(Understood(Render(frames[|frames| - 1])))
      case Some((name, value)) => before[name := value]
      case None => before
  }

  predicate Sets(f: Frame, setting: (string, string)) {
    Allowed(f) && Assignment(Meaning(f)) == Some(setting)
  }

  function AllSet(settings: seq<(string, string)>): map<string, string> {
    if settings == [] then map[]
    else
      var last := settings[|settings| - 1];
      AllSet(settings[..|settings| - 1])[last.0 := last.1]
  }

  /** Frames that each set something leave the modem set to all of it. */
  lemma {:induction false} AllConfigured(frames: seq<Frame>, settings: seq<(string, string)>)
    requires |frames| == |settings| && forall i :: 0 <= i < |frames| ==> Sets(frames[i], settings[i])
    ensures Configured(frames) == AllSet(settings)
  {
    if frames != [] {
      var n := |frames| - 1;
      AllConfigured(frames[..n], settings[..n]);
      assert Sets(frames[n], settings[n]);
      FramesAreUnderstood(frames[n]);
    }
  }

  lemma AssignmentIs(name: string, value: string)
    requires (forall i :: 0 <= i < |name| ==> name[i] != '=' && !('a' <= name[i] <= 'z'))
    ensures Assignment(Other(name + "=" + value)) == Some((name, value))
  {
    var text := name + "=" + value;
    IndexOfIs(text, '=', |name|);
    assert text[..|name|] == name && text[|name| + 1..] == value;
    assert UpperCase(name) == name;
  }

  // Settings, and what a submission comes to under them

  /** The settings the modem was last given. */
  datatype Settings = Settings(charset: string, params: string)

  function Obey(settings: Settings, order: Order): Settings {
    match order
    case UseCharset(name) => settings.(charset := name)
    case UseParameters(params) => settings.(params := params)
    case _ => settings
  }

  /** How a string in the character set selected is read. */
  function InCharset(text: string, charset: string): Option<string> {
    if charset == "UCS2" then Ucs2.Decoded(text) else Some(text)
  }

  /** The fourth of the parameters, the data-coding scheme. */
  function CodingOf(params: string): Option<nat> {
    var fields := Fields(params);
    if |fields| == 4 then NumberIn(fields[3]) else None
  }

  function Fields(s: string): (fields: seq<string>)
    ensures fields != []
    decreases |s|
  {
    var i := IndexOf(s, ',');
    if i == |s| then [s] else [s[..i]] + Fields(s[i + 1..])
  }

  /** A short message as it leaves the modem. */
  datatype Sms = Sms(to: string, text: string, coding: nat)

  /** What the modem sends for a header and a body, under some settings. */
  function Sent(settings: Settings, header: seq<Byte>, body: seq<Byte>): Option<Sms> {
    SentFor(settings, Understood(header), Understood(body))
  }

  function SentFor(settings: Settings, header: Order, body: Order): Option<Sms> {
    if !header.Submit? || !body.Content? || CodingOf(settings.params).None? then None
    else
      match (InCharset(header.address, settings.charset), TextOf(settings, body.payload))
      case (Some(to), Some(text)) => Some(Sms(to, text, CodingOf(settings.params).value))
      case _ => None
  }

  function TextOf(settings: Settings, payload: seq<Byte>): Option<string> {
    match Decode(payload) case Some(typed) => InCharset(typed, settings.charset) case None => None
  }

  /** Settings under which text in an encoding is understood. */
  predicate SetFor(settings: Settings, encoding: Encoding) {
    match encoding
    case Gsm7 => settings.charset == "IRA" && CodingOf(settings.params) == Some(0)
    case Wide => settings.charset == "UCS2" && CodingOf(settings.params) == Some(8)
  }

  lemma NotUcs2()
    ensures "IRA" != "UCS2"
  {
    assert |"IRA"| == 3;
  }

  lemma AddressRead(settings: Settings, to: string, encoding: Encoding)
    requires SetFor(settings, encoding)
    ensures InCharset(Address(to, encoding), settings.charset)
         == if encoding == Wide && Sanitized(to) == "" then None else Some(Sanitized(to))
  {
    NotUcs2();
    if encoding == Wide && Sanitized(to) != "" {
      Ucs2.DecodeEncode(Sanitized(to));
    }
  }

  lemma BodyRead(settings: Settings, part: string, encoding: Encoding)
    requires SetFor(settings, encoding)
    requires match encoding case Gsm7 => IsGsm7(part) case Wide => part != ""
    ensures var payload := CmgsBody(part, encoding)[..|CmgsBody(part, encoding)| - 1];
              TextOf(settings, payload) == Some(part)
  {
    NotUcs2();
    PayloadCarries(part, encoding);
  }

  /** Under the settings for its encoding a part is sent to the recipient's digits and
      plus signs as it stands, and told to be in that encoding; except that under
      UCS2 a recipient without any is not read. */
  lemma SubmissionMeans(settings: Settings, to: string, part: string, encoding: Encoding)
    requires SetFor(settings, encoding)
    requires match encoding case Gsm7 => IsGsm7(part) case Wide => part != ""
    ensures Sent(settings, Render(Header(to, encoding)), Render(Body(part, encoding)))
         == if encoding == Wide && Sanitized(to) == "" then None
            else Some(Sms(Sanitized(to), part, if encoding == Gsm7 then 0 else 8))
  {
    SubmissionOrders(to, part, encoding);
    AddressRead(settings, to, encoding);
    BodyRead(settings, part, encoding);
  }

  lemma SubmissionOrders(to: string, part: string, encoding: Encoding)
    ensures Understood(Render(Header(to, encoding))) == Submit(Address(to, encoding))
    ensures Understood(Render(Body(part, encoding)))
         == Content(CmgsBody(part, encoding)[..|CmgsBody(part, encoding)| - 1])
  {
    FramesAreUnderstood(Header(to, encoding));
    FramesAreUnderstood(Body(part, encoding));
  }
}
