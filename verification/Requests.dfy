/** Serving callers' requests (`handle_request` of `modem/session.rs`). */
module Requests {
  import opened Protocol
  import opened Frames
  import opened LineTrace
  import opened Announcements
  import opened Readiness
  import opened SideTrace
  import opened Transport
  import opened Sending
  import opened Inbound
  import opened Setup

  datatype Request = Raw(command: string) | SendSms(to: string, body: string)

  datatype Response = RawReply(lines: seq<string>, result: AtResult) | SmsReply(sent: SendResult) | NoReply

  /** Callers pass through ordinary commands only. */
  predicate Admissible(request: Request) {
    request.Raw? ==> Ordinary(request.command)
  }

  /** A request served: what was answered, what it submitted, and the trace before
      and after. */
  datatype Served = Served(request: Request, response: Response, tries: seq<Attempt>, before: seq<Op>, after: seq<Op>)

  function ReplyOf(response: Response): Reply {
    if response.SmsReply? then Answer(response.sent) else Disconnected
  }

  /** A raw command's answer is the one the trace shows; a send is attempted exactly
      when the last refresh the trace shows completed found the modem ready, and its
      submissions are those the trace shows. */
  ghost predicate ServedRight(served: Served, max: nat) {
    && served.before <= served.after
    && Observe(START, served.after).sends == Observe(START, served.before).sends + served.tries
    && match served.request
       case Raw(command) =>
         && served.tries == [] && !served.response.SmsReply?
         && (served.response.RawReply? ==>
               AnsweredOn(served.before, served.after, PassedOn(command),
                   Exchanged(served.response.lines, served.response.result)))
       case SendSms(to, body) =>
         && !served.response.RawReply?
         && SendHandled(Deliverable(served.before), to, body, max, ReplyOf(served.response), served.tries)
  }

  /** What the monitors know is what the trace shows. */
  lemma SideOf(wire: Wire)
    requires wire.Valid()
    ensures wire.seen == Observe(START, wire.log) && wire.side == SideAll(NO_SIDE, wire.log)
    ensures wire.side.view.deliverable == Deliverable(wire.log)
    ensures wire.side.heed == HeedAll(NO_HEED, wire.log)
  {
    SideIs(wire.log);
  }

  /** A raw command, scanned for announcements. */
  method PassThrough(wire: Wire, command: string, snapshot: Snapshot, pending: PendingIndices)
    returns (response: Response)
    requires Sound(wire) && Abreast(wire, pending) && Current(wire, snapshot) && Ordinary(command)
    modifies wire, snapshot`responsive, pending
    ensures Sound(wire) && wire.seen == old(wire.seen) && (old(wire.dead) ==> wire.dead)
              && |wire.script| <= |old(wire.script)|
    ensures Abreast(wire, pending) && pending.taken == old(pending.taken) && Current(wire, snapshot)
    ensures old(wire.log) <= wire.log && !response.SmsReply?
    ensures response.NoReply? ==> wire.dead && unchanged(pending) && unchanged(snapshot)
    ensures response.RawReply? ==>
              && (snapshot.responsive <==> response.result != Timeout)
              && wire.side.written == old(wire.side).written + [PassedOn(command)]
              && AnsweredOn(old(wire.log), wire.log, PassedOn(command), Exchanged(response.lines, response.result))
  {
    var r := wire.Exchange(PassedOn(command));
    PlainCommand(old(wire.seen), wire.seen, PassedOn(command), r);
    if r.Lost? {
      return NoReply;
    }
    pending.Scan(r.lines);
    snapshot.responsive := r.result != Timeout;
    response := RawReply(r.lines, r.result);
  }

  lemma RawServed(command: string, response: Response, before: seq<Op>, after: seq<Op>, max: nat)
    requires before <= after && Observe(START, after) == Observe(START, before) && !response.SmsReply?
    requires response.RawReply? ==>
              AnsweredOn(before, after, PassedOn(command), Exchanged(response.lines, response.result))
    ensures ServedRight(Served(Raw(command), response, [], before, after), max)
  {
    assert Observe(START, before).sends + [] == Observe(START, before).sends;
  }

  method ServeRaw(wire: Wire, command: string, config: Config, snapshot: Snapshot, pending: PendingIndices)
    returns (response: Response, ghost served: Served)
    requires Sound(wire) && Abreast(wire, pending) && Current(wire, snapshot) && Ordinary(command)
    modifies wire, snapshot, pending
    ensures Sound(wire) && (old(wire.dead) ==> wire.dead) && |wire.script| <= |old(wire.script)|
    ensures Abreast(wire, pending) && pending.taken == old(pending.taken) && Current(wire, snapshot)
    ensures (response.NoReply? ==> wire.dead) && wire.seen == old(wire.seen)
    ensures served == Served(Raw(command), response, [], old(wire.log), wire.log)
    ensures ServedRight(served, Max1(config.maxAttempts))
  {
    SideOf(wire);
    response := PassThrough(wire, command, snapshot, pending);
    SideOf(wire);
    RawServed(command, response, old(wire.log), wire.log, Max1(config.maxAttempts));
    served := Served(Raw(command), response, [], old(wire.log), wire.log);
  }

  function ResponseFor(reply: Reply): Response {
    if reply.Answer? then SmsReply(reply.result) else NoReply
  }

  lemma SmsServed(to: string, body: string, reply: Reply, tries: seq<Attempt>, before: seq<Op>, after: seq<Op>,
                  max: nat)
    requires before <= after && Observe(START, after).sends == Observe(START, before).sends + tries
    requires SendHandled(Deliverable(before), to, body, max, reply, tries)
    ensures ServedRight(Served(SendSms(to, body), ResponseFor(reply), tries, before, after), max)
  {
  }

  method ServeSms(wire: Wire, to: string, body: string, config: Config, deliverable: bool)
    returns (response: Response, ghost served: Served)
    requires Sound(wire) && deliverable == wire.side.view.deliverable
    modifies wire
    ensures Sound(wire) && (old(wire.dead) ==> wire.dead) && |wire.script| <= |old(wire.script)|
    ensures response.NoReply? ==> wire.dead
    ensures OnlySent(old(wire.seen), old(wire.side), wire.seen, wire.side, served.tries)
    ensures served == Served(SendSms(to, body), response, served.tries, old(wire.log), wire.log)
    ensures ServedRight(served, Max1(config.maxAttempts))
  {
    SideOf(wire);
    var reply, tries := HandleSend(wire, config.maxAttempts, deliverable, to, body);
    SideOf(wire);
    SmsServed(to, body, reply, tries, old(wire.log), wire.log, Max1(config.maxAttempts));
    response := ResponseFor(reply);
    served := Served(SendSms(to, body), response, tries, old(wire.log), wire.log);
  }

  /** `handle_request`; no response when the port goes before there is one. */
  method HandleRequest(wire: Wire, request: Request, config: Config, snapshot: Snapshot, pending: PendingIndices)
    returns (response: Response, ghost served: Served)
    requires Sound(wire) && Abreast(wire, pending) && Current(wire, snapshot) && Admissible(request)
    modifies wire, snapshot, pending
    ensures Sound(wire) && (old(wire.dead) ==> wire.dead) && |wire.script| <= |old(wire.script)|
    ensures Abreast(wire, pending) && pending.taken == old(pending.taken) && Current(wire, snapshot)
    ensures response.NoReply? ==> wire.dead
    ensures wire.seen.sends == old(wire.seen).sends + served.tries && wire.seen.inbound == old(wire.seen).inbound
    ensures served == Served(request, response, served.tries, old(wire.log), wire.log)
    ensures ServedRight(served, Max1(config.maxAttempts))
  {
    match request
    case Raw(command) =>
      assert wire.seen.sends + [] == wire.seen.sends;
      response, served := ServeRaw(wire, command, config, snapshot, pending);
    case SendSms(to, body) =>
      response, served := ServeSms(wire, to, body, config, snapshot.Deliverable());
  }
}
