/** What the driver writes on the line, and the bytes of it. */
module Frames {
  import opened Text
  import opened Segmentation
  import opened Utf8
  import Framing

  /** Everything the driver ever writes: its own plain commands, those passed through
      for callers, the commands that matter to what follows, and submissions. */
  datatype Frame =
    | Command(text: string)
    | PassedOn(text: string)
    | ReadMessage(index: nat)
    | DeleteMessage(index: nat)
    | SelectCharset(name: string)
    | SetParameters(params: string)
    | Header(to: string, encoding: Encoding)
    | Body(text: string, encoding: Encoding)
    | Escape

  predicate IsCommand(f: Frame) {
    !f.Header? && !f.Body? && !f.Escape?
  }

  predicate IsPlain(f: Frame) {
    f.Command? || f.PassedOn?
  }

  function CommandText(f: Frame): string
    requires IsCommand(f)
  {
    match f
    case Command(text) => text
    case PassedOn(text) => text
    case ReadMessage(index) => "AT+CMGR=" + Decimal(index)
    case DeleteMessage(index) => "AT+CMGD=" + Decimal(index)
    case SelectCharset(name) => "AT+CSCS=\"" + name + "\""
    case SetParameters(params) => "AT+CSMP=" + params
  }

  function Render(f: Frame): seq<Byte> {
    match f
    case Header(to, encoding) => Framing.CmgsHeader(to, encoding)
    case Body(text, encoding) => Framing.CmgsBody(text, encoding)
    case Escape => [Framing.ESC]
    case _ => Encode(CommandText(f)) + [CR]
  }

  // Plain commands

  /** What opens text entry, reads or deletes a stored message, selects a character set,
      or resets the modem and the character set with it. */
  const PRIVILEGED: seq<string> :=
    ["+CMGS", "+CMGW", "+CMGC", "+CMGR", "+CMGD", "+CSCS", "+CSMP", "ATZ", "&F", "+CFUN", "+CRESET"]

  function UpperCase(s: string): (r: string)
    ensures |r| == |s|
    ensures forall i :: 0 <= i < |s| ==> r[i] == if 'a' <= s[i] <= 'z' then (s[i] as int - 32) as char else s[i]
  {
    seq(|s|, i requires 0 <= i < |s| => if 'a' <= s[i] <= 'z' then (s[i] as int - 32) as char else s[i])
  }

  /** Not one of the commands with a frame of their own, in any case. */
  predicate Unprivileged(text: string) {
    var upper := UpperCase(text);
    && !StartsWith(upper, "AT+CMGS=") && !StartsWith(upper, "AT+CMGR=") && !StartsWith(upper, "AT+CMGD=")
    && !StartsWith(upper, "AT+CSCS=") && !StartsWith(upper, "AT+CSMP=")
  }

  predicate MentionsAt(text: string, i: int, verb: string) {
    0 <= i <= |text| - |verb| && text[i..i + |verb|] == verb
  }

  predicate Mentions(text: string, verb: string) {
    exists i :: 0 <= i <= |text| && MentionsAt(text, i, verb)
  }

  /** All that callers may pass through: one line, and no such verb in it, whatever
      its case and wherever it stands among chained commands. */
  predicate Ordinary(text: string) {
    && (forall i :: 0 <= i < |text| ==> text[i] >= ' ')
    && (forall verb :: verb in PRIVILEGED ==> !Mentions(UpperCase(text), verb))
  }

  lemma NotVerb(text: string, verb: string)
    requires |verb| == 8 && (|text| < 8 || text[5] != verb[5] || text[6] != verb[6])
    ensures !StartsWith(text, verb)
  {
  }

  lemma OtherVerb(text: string)
    requires |text| < 8 || !('a' <= text[5] <= 'z' || 'a' <= text[6] <= 'z')
    requires |text| < 8 || (text[5], text[6]) !in {('G', 'S'), ('G', 'R'), ('G', 'D'), ('C', 'S'), ('M', 'P')}
    ensures Unprivileged(text)
  {
    var upper := UpperCase(text);
    NotVerb(upper, "AT+CMGS=");
    NotVerb(upper, "AT+CMGR=");
    NotVerb(upper, "AT+CMGD=");
    NotVerb(upper, "AT+CSCS=");
    NotVerb(upper, "AT+CSMP=");
  }

  lemma OrdinaryStart(text: string, verb: string)
    requires Ordinary(text) && |verb| == 8 && verb[2..7] in PRIVILEGED
    ensures !StartsWith(UpperCase(text), verb)
  {
    var upper := UpperCase(text);
    if StartsWith(upper, verb) {
      StartMentions(upper, verb);
    }
  }

  lemma StartMentions(text: string, verb: string)
    requires |verb| == 8 && StartsWith(text, verb)
    ensures Mentions(text, verb[2..7])
  {
    assert MentionsAt(text, 2, verb[2..7]);
  }

  lemma PrivilegedAt(verb: string, i: nat)
    requires |verb| == 8 && i < 7 && verb[2..7] == PRIVILEGED[i]
    ensures verb[2..7] in PRIVILEGED
  {
  }

  lemma OrdinaryIsUnprivileged(text: string)
    requires Ordinary(text)
    ensures Unprivileged(text)
  {
    var send, read, delete, charset, params := "AT+CMGS=", "AT+CMGR=", "AT+CMGD=", "AT+CSCS=", "AT+CSMP=";
    PrivilegedAt(send, 0);
    PrivilegedAt(read, 3);
    PrivilegedAt(delete, 4);
    PrivilegedAt(charset, 5);
    PrivilegedAt(params, 6);
    OrdinaryStart(text, send);
    OrdinaryStart(text, read);
    OrdinaryStart(text, delete);
    OrdinaryStart(text, charset);
    OrdinaryStart(text, params);
  }

  const STATUS_QUERIES: seq<string> := ["AT+CPIN?", "AT+CREG?", "AT+CSQ", "AT+COPS?"]

  /** The driver's own plain commands are plain. */
  lemma OwnCommands()
    ensures Unprivileged("AT+CMGF=1") && Unprivileged("AT+CSDH=1")
    ensures forall query :: query in STATUS_QUERIES ==> Unprivileged(query)
  {
    var format, detail, sim, network, operator := "AT+CMGF=1", "AT+CSDH=1", "AT+CPIN?", "AT+CREG?", "AT+COPS?";
    assert format[6] == 'F' && detail[6] == 'H' && sim[6] == 'N' && network[5] == 'E' && operator[5] == 'P';
    OtherVerb(format);
    OtherVerb(detail);
    OtherVerb(sim);
    OtherVerb(network);
    OtherVerb(operator);
    OtherVerb("AT+CSQ");
  }

  predicate Allowed(f: Frame) {
    (f.Command? ==> Unprivileged(f.text)) && (f.PassedOn? ==> Ordinary(f.text))
  }

  lemma PlainIsUnprivileged(f: Frame)
    requires Allowed(f) && IsPlain(f)
    ensures Unprivileged(f.text)
  {
    if f.PassedOn? {
      OrdinaryIsUnprivileged(f.text);
    }
  }
}
