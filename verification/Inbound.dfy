/** The inbound pipeline of `modem/session.rs`: the indices the modem announces queue
    up; each message is read, stored and only then deleted from the modem. */
module Inbound {
  import opened Text
  import opened Protocol
  import opened Cmgr
  import opened Frames
  import opened LineTrace
  import opened Transport
  import opened Sending
  import opened Announcements
  import opened SideTrace
  import opened Readiness

  // The queue of announced indices

  lemma ScanNext(announced: seq<nat>, lines: seq<string>, i: nat)
    requires i < |lines|
    ensures announced + CmtiIndices(lines[..i]) + Announced(lines[i]) == announced + CmtiIndices(lines[..i + 1])
  {
    assert lines[..i + 1] == lines[..i] + [lines[i]];
    CmtiSnoc(lines[..i], lines[i]);
    Associate(announced, CmtiIndices(lines[..i]), Announced(lines[i]));
  }

  /** `pending`: of all the indices announced, those before this queue was made, those
      taken from it, and those still in it, in order. */
  class PendingIndices {
    var queue: seq<nat>
    ghost const before: seq<nat>
    ghost var taken: seq<nat>
    ghost var announced: seq<nat>

    ghost predicate Valid()
      reads this
    {
      before + taken + queue == announced
    }

    constructor (ghost before: seq<nat>)
      ensures Valid() && queue == [] && taken == [] && announced == before == this.before
    {
      this.before, queue, taken, announced := before, [], [], before;
    }

    /** One line looked through. */
    method ScanLine(line: string)
      requires Valid()
      modifies this
      ensures Valid() && taken == old(taken) && announced == old(announced) + Announced(line)
    {
      Associate(before + taken, queue, Announced(line));
      var index := ParseCmtiIndex(line);
      if index.Some? {
        queue := queue + [index.value];
      }
      announced := announced + Announced(line);
    }

    /** `scan_cmti`. */
    method Scan(lines: seq<string>)
      requires Valid()
      modifies this
      ensures Valid() && taken == old(taken) && announced == old(announced) + CmtiIndices(lines)
    {
      assert announced + CmtiIndices(lines[..0]) == announced;
      for i := 0 to |lines|
        invariant Valid() && taken == old(taken) && announced == old(announced) + CmtiIndices(lines[..i])
      {
        ScanNext(old(announced), lines, i);
        ScanLine(lines[i]);
      }
      assert lines[..|lines|] == lines;
    }

    method Pop() returns (index: nat)
      requires Valid() && queue != []
      modifies this
      ensures Valid() && announced == old(announced)
      ensures index == old(queue[0]) && queue == old(queue[1..]) && taken == old(taken) + [index]
    {
      index := queue[0];
      PopKeeps(before, taken, queue);
      queue, taken := queue[1..], taken + [index];
    }
  }

  lemma PopKeeps(before: seq<nat>, taken: seq<nat>, queue: seq<nat>)
    requires queue != []
    ensures before + (taken + [queue[0]]) + queue[1..] == before + taken + queue
  {
  }

  /** The queue has taken up every announcement heeded so far. */
  ghost predicate Abreast(wire: Wire, pending: PendingIndices)
    reads wire, pending
  {
    pending.Valid() && pending.announced == wire.side.heed.announced
  }

  // The database beside the line

  datatype Audit =
    | ReadGaveUp(index: nat)
    | NotPersisted(index: nat)
    | NotDeleted(index: nat, result: AtResult)
    | SetupRefused
    | ReopenExhausted(attempts: nat)

  /** The inbound messages and the audit log; `faults` says which inserts fail. */
  class MessageStore {
    ghost const earlier: seq<ParsedInbound>
    var rows: seq<ParsedInbound>
    var audits: seq<Audit>
    var faults: seq<bool>

    constructor (rows: seq<ParsedInbound>, faults: seq<bool>)
      ensures this.rows == rows && earlier == rows && audits == []
    {
      earlier, this.rows, audits, this.faults := rows, rows, [], faults;
    }

    /** `create_inbound_message`. */
    method CreateInbound(message: ParsedInbound) returns (ok: bool)
      modifies this`rows, this`faults
      ensures rows == if ok then old(rows) + [message] else old(rows)
    {
      ok := faults == [] || !faults[0];
      faults := if faults == [] then [] else faults[1..];
      if ok {
        rows := rows + [message];
      }
    }

    method Record(audit: Audit)
      modifies this`audits
      ensures audits == old(audits) + [audit]
    {
      audits := audits + [audit];
    }
  }

  function Messages(stored: seq<Saved>): seq<ParsedInbound> {
    if stored == [] then [] else Messages(stored[..|stored| - 1]) + [stored[|stored| - 1].message]
  }

  /** The rows are those there before and what the line has seen stored. */
  ghost predicate Tied(wire: Wire, store: MessageStore)
    reads wire, store
  {
    store.rows == store.earlier + Messages(wire.seen.inbound.stored)
  }

  // One message

  /** How the handling of one index ended; `Interrupted` is a port lost while reading. */
  datatype Handled = Interrupted | Unreadable | NotStored | Kept(message: ParsedInbound, deleted: Exchange)

  function Fetches(index: nat, n: nat): seq<Touch> {
    seq(n, _ => Fetch(index))
  }

  /** What handling an index does on the modem: up to three reads, and, once the
      message is stored, one delete of that index. */
  predicate Handling(touches: seq<Touch>, index: nat, tries: nat, handled: Handled) {
    && tries <= 3
    && match handled
       case Interrupted => touches == Fetches(index, tries)
       case Unreadable => tries == 3 && touches == Fetches(index, tries)
       case NotStored => tries >= 1 && touches == Fetches(index, tries)
       case Kept(message, _) => tries >= 1 && touches == Fetches(index, tries) + [Keep(message), Delete(index)]
  }

  function RowsOf(handled: Handled): seq<ParsedInbound> {
    if handled.Kept? then [handled.message] else []
  }

  function AuditsOf(handled: Handled, index: nat): seq<Audit> {
    match handled
    case Interrupted => []
    case Unreadable => [ReadGaveUp(index)]
    case NotStored => [NotPersisted(index)]
    case Kept(_, deleted) => if deleted.Exchanged? && deleted.result != Ok then [NotDeleted(index, deleted.result)]
        else []
  }

  /** Everything but the inbound phase and the reads made is as it was. */
  ghost predicate OnlyRead(before: Monitor, after: Monitor, index: nat, tries: nat) {
    after == before.(inbound := before.inbound.(phase := after.inbound.phase,
                                                touches := before.inbound.touches + Fetches(index, tries)))
  }

  lemma ReadAgain(before: Monitor, between: Monitor, after: Monitor, index: nat, tries: nat, r: Exchange)
    requires OnlyRead(before, between, index, tries) && MessageRequested(between, after, index, r)
    ensures r.Exchanged? ==> OnlyRead(before, after, index, tries + 1)
    ensures r.Lost? ==> OnlyRead(before, after, index, tries) || OnlyRead(before, after, index, tries + 1)
  {
    assert Fetches(index, tries + 1) == Fetches(index, tries) + [Fetch(index)];
    Associate(before.inbound.touches, Fetches(index, tries), [Fetch(index)]);
  }

  /** An answer with no message to be read in it. */
  predicate Unread(answer: Exchange) {
    answer.Exchanged? && (answer.result != Ok || Parsed(Join(answer.lines, "\n")).None?)
  }

  predicate AllUnread(answers: seq<Exchange>) {
    forall i :: 0 <= i < |answers| ==> Unread(answers[i])
  }

  /** Unread answers, then the one the message was read from. */
  predicate ReadAtLast(answers: seq<Exchange>, message: ParsedInbound) {
    && answers != [] && AllUnread(answers[..|answers| - 1])
    && var last := answers[|answers| - 1];
       last.Exchanged? && last.result == Ok && Parsed(Join(last.lines, "\n")) == Some(message)
  }

  predicate Reading3(answers: seq<Exchange>, parsed: Option<ParsedInbound>) {
    match parsed
    case Some(message) => |answers| <= 3 && ReadAtLast(answers, message)
    case None => |answers| == 3 && AllUnread(answers)
  }

  /** The answers are those the trace shows to reads of the index, one after another. */
  ghost predicate AnsweredInTurn(before: seq<Op>, after: seq<Op>, index: nat, answers: seq<Exchange>)
    decreases |answers|
  {
    if answers == [] then before == after
    else exists between ::
           && AnsweredOn(before, between, ReadMessage(index), answers[0])
           && AnsweredInTurn(between, after, index, answers[1..])
  }

  lemma {:induction false} AnsweredNext(before: seq<Op>, between: seq<Op>, after: seq<Op>, index: nat,
                                        answers: seq<Exchange>, answer: Exchange)
    requires AnsweredInTurn(before, between, index, answers) && AnsweredOn(between, after, ReadMessage(index), answer)
    ensures AnsweredInTurn(before, after, index, answers + [answer])
    decreases |answers|
  {
    var all := answers + [answer];
    if answers == [] {
      assert AnsweredOn(before, after, ReadMessage(index), all[0]) && AnsweredInTurn(after, after, index, all[1..]);
    } else {
      var first :| AnsweredOn(before, first, ReadMessage(index), answers[0])
          && AnsweredInTurn(first, between, index, answers[1..]);
      AnsweredNext(first, between, after, index, answers[1..], answer);
      assert all[1..] == answers[1..] + [answer];
      assert AnsweredOn(before, first, ReadMessage(index), all[0]);
    }
  }

  lemma AnswerMore(answers: seq<Exchange>, answer: Exchange, before: seq<Op>, between: seq<Op>, after: seq<Op>,
                   index: nat)
    requires AllUnread(answers) && answer.Exchanged?
    requires AnsweredInTurn(before, between, index, answers) && AnsweredOn(between, after, ReadMessage(index), answer)
    ensures AnsweredInTurn(before, after, index, answers + [answer])
    ensures if Unread(answer) then AllUnread(answers + [answer])
            else ReadAtLast(answers + [answer], Parsed(Join(answer.lines, "\n")).value)
  {
    AnsweredNext(before, between, after, index, answers, answer);
    assert (answers + [answer])[..|answers|] == answers;
  }

  /** The reads so far: each was answered with nothing to be read in it. `seen` and `log`
      are from before the first. */
  ghost predicate StillUnread(wire: Wire, seen: Monitor, log: seq<Op>, index: nat, answers: seq<Exchange>)
    reads wire
  {
    && AllUnread(answers) && OnlyRead(seen, wire.seen, index, |answers|)
    && AnsweredInTurn(log, wire.log, index, answers) && log <= wire.log
  }

  /** One read more, its answer scanned for announcements; `parsed` is the message, if
      the answer is `OK` and holds one. */
  method ReadOnce(wire: Wire, index: nat, pending: PendingIndices, ghost seen: Monitor, ghost log: seq<Op>,
                  ghost answers: seq<Exchange>)
    returns (r: Exchange, parsed: Option<ParsedInbound>, ghost tries: nat)
    requires Sound(wire) && Abreast(wire, pending) && StillUnread(wire, seen, log, index, answers)
    modifies wire, pending
    ensures Sound(wire) && r.Lost? == wire.dead && (old(wire.dead) ==> wire.dead)
    ensures |wire.script| <= |old(wire.script)| && (r.Exchanged? ==> |wire.script| < |old(wire.script)|)
    ensures Abreast(wire, pending) && pending.taken == old(pending.taken) && wire.side.view == old(wire.side).view
    ensures old(wire.log) <= wire.log && log <= wire.log
    ensures r.Lost? ==> OnlyRead(seen, wire.seen, index, tries) && |answers| <= tries <= |answers| + 1
    ensures r.Exchanged? && parsed.None? ==> StillUnread(wire, seen, log, index, answers + [r])
    ensures r.Exchanged? && parsed.Some? ==> NowRead(wire, seen, log, index, answers + [r], parsed.value)
  {
    ghost var between := wire.seen;
    r := wire.Exchange(ReadMessage(index));
    ReadAgain(seen, between, wire.seen, index, |answers|, r);
    tries := if OnlyRead(seen, wire.seen, index, |answers|) then |answers| else |answers| + 1;
    parsed := None;
    if r.Exchanged? {
      AnswerMore(answers, r, log, old(wire.log), wire.log, index);
      pending.Scan(r.lines);
      if r.result == Ok {
        parsed := ParseCmgr(Join(r.lines, "\n"));
      }
    }
  }

  /** The reads, the last of which got the message. */
  ghost predicate NowRead(wire: Wire, seen: Monitor, log: seq<Op>, index: nat, answers: seq<Exchange>,
                          message: ParsedInbound)
    reads wire
  {
    && ReadAtLast(answers, message) && OnlyRead(seen, wire.seen, index, |answers|)
    && AnsweredInTurn(log, wire.log, index, answers) && wire.seen.inbound.phase == Fetched(index, message)
  }

  /** The reads of `handle_inbound_inner`: up to three, until one is answered `OK`
      with something that parses; each answer is scanned for announcements. `done` is
      the trace when the last of the answers was complete. */
  method ReadInbound(wire: Wire, index: nat, pending: PendingIndices)
    returns (ok: bool, parsed: Option<ParsedInbound>, ghost tries: nat, ghost answers: seq<Exchange>,
             ghost done: seq<Op>)
    requires Sound(wire) && Abreast(wire, pending)
    modifies wire, pending
    ensures Sound(wire) && ok == !wire.dead && (old(wire.dead) ==> wire.dead)
    ensures |wire.script| <= |old(wire.script)| && (ok ==> |wire.script| < |old(wire.script)|)
    ensures Abreast(wire, pending) && pending.taken == old(pending.taken) && wire.side.view == old(wire.side).view
    ensures OnlyRead(old(wire.seen), wire.seen, index, tries) && tries <= 3
    ensures if ok then tries == |answers| && Reading3(answers, parsed)
            else tries - 1 <= |answers| <= tries && AllUnread(answers)
    ensures AnsweredInTurn(old(wire.log), done, index, answers)
    ensures old(wire.log) <= done <= wire.log && (ok ==> done == wire.log)
    ensures ok && parsed.Some? ==> wire.seen.inbound.phase == Fetched(index, parsed.value)
  {
    NoReadsYet(old(wire.seen), index);
    parsed, tries, answers, done := None, 0, [], wire.log;
    var r, attempt := Exchanged([], Ok), 0;
    while attempt < 3 && r.Exchanged? && parsed.None?
      invariant ReadsSoFar(wire, pending, old(wire.seen), old(wire.side).view, old(wire.log), old(pending.taken), index,
                           attempt, r, parsed, answers, tries, done)
      invariant |wire.script| <= |old(wire.script)| && (old(wire.dead) ==> wire.dead)
      invariant attempt > 0 && r.Exchanged? ==> !wire.dead && |wire.script| < |old(wire.script)|
      invariant r.Lost? ==> wire.dead
    {
      done := wire.log;
      r, parsed, tries := ReadOnce(wire, index, pending, old(wire.seen), old(wire.log), answers);
      attempt := attempt + 1;
      if r.Exchanged? {
        answers, done, tries := answers + [r], wire.log, attempt;
      }
    }
    ok := r.Exchanged?;
  }

  /** Where the reads stand: `attempt` have been tried, and `tries` reached the modem. */
  ghost predicate ReadsSoFar(wire: Wire, pending: PendingIndices, seen: Monitor, view: View, log: seq<Op>,
                             taken: seq<nat>,
                             index: nat, attempt: nat, r: Exchange, parsed: Option<ParsedInbound>,
                             answers: seq<Exchange>, tries: nat, done: seq<Op>)
    reads wire, pending
  {
    && Sound(wire) && Abreast(wire, pending) && pending.taken == taken && wire.side.view == view
    && attempt <= 3 && log <= done <= wire.log && AnsweredInTurn(log, done, index, answers)
    && match (r, parsed)
       case (Lost, _) =>
         |answers| == attempt - 1 && AllUnread(answers) && |answers| <= tries <= attempt
             && OnlyRead(seen, wire.seen, index, tries)
       case (Exchanged(_, _), None) =>
         |answers| == attempt == tries && done == wire.log && StillUnread(wire, seen, log, index, answers)
       case (Exchanged(_, _), Some(message)) =>
         |answers| == attempt == tries && done == wire.log && NowRead(wire, seen, log, index, answers, message)
  }

  lemma NoReadsYet(seen: Monitor, index: nat)
    ensures OnlyRead(seen, seen, index, 0)
  {
    assert seen.inbound.touches + Fetches(index, 0) == seen.inbound.touches;
  }

  lemma RowsGrow(earlier: seq<ParsedInbound>, stored: seq<Saved>, saved: Saved)
    ensures earlier + Messages(stored + [saved]) == earlier + Messages(stored) + [saved.message]
  {
    MessagesSnoc(stored, saved);
    Associate(earlier, Messages(stored), [saved.message]);
  }

  lemma MessagesSnoc(stored: seq<Saved>, saved: Saved)
    ensures Messages(stored + [saved]) == Messages(stored) + [saved.message]
  {
    assert (stored + [saved])[..|stored|] == stored;
  }

  /** What the line has seen once a fetched message was stored and its deletion tried. */
  ghost predicate OnlyKept(before: Monitor, after: Monitor, index: nat, message: ParsedInbound) {
    after == before.(inbound := InboundState(Free, before.inbound.stored + [Saved(index, message)],
                                             before.inbound.touches + [Keep(message), Delete(index)],
                                                 before.inbound.unsafe))
  }

  lemma KeptThenDeleted(before: Monitor, after: Monitor, index: nat, message: ParsedInbound, r: Exchange)
    requires Quiet(before) && before.inbound.phase == Fetched(index, message) && before.line.mode == CommandMode
    requires Commanded(Step(before, Stored(message)), after, DeleteMessage(index), r)
    ensures OnlyKept(before, after, index, message)
  {
    Associate(before.inbound.touches, [Keep(message)], [Delete(index)]);
    assert [Keep(message)] + [Delete(index)] == [Keep(message), Delete(index)];
  }

  /** The message is in the database: `AT+CMGD`. */
  method DeleteStored(wire: Wire, index: nat, message: ParsedInbound, pending: PendingIndices) returns (r: Exchange)
    requires Sound(wire) && !wire.dead && Abreast(wire, pending) && wire.seen.inbound.phase == Fetched(index, message)
    modifies wire, pending
    ensures Sound(wire) && r.Lost? == wire.dead && |wire.script| <= |old(wire.script)|
    ensures OnlyKept(old(wire.seen), wire.seen, index, message)
    ensures Abreast(wire, pending) && pending.taken == old(pending.taken) && wire.side.view == old(wire.side).view
    ensures old(wire.log) + [Stored(message)] <= wire.log
    ensures r.Exchanged? ==> AnsweredOn(old(wire.log) + [Stored(message)], wire.log, DeleteMessage(index), r)
  {
    ghost var before := wire.seen;
    wire.Note(Stored(message));
    StoredBeside(old(wire.side), message);
    r := wire.Exchange(DeleteMessage(index));
    KeptThenDeleted(before, wire.seen, index, message, r);
    if r.Exchanged? {
      pending.Scan(r.lines);
    }
  }

  lemma StoredBeside(side: Side, message: ParsedInbound)
    ensures SideStep(side, Stored(message)) == side
  {
    assert side.written + [] == side.written;
  }

  /** How a delete answered is shown to have been asked for and answered. */
  ghost predicate DeletedOn(before: seq<Op>, after: seq<Op>, index: nat, handled: Handled) {
    handled.Kept? && handled.deleted.Exchanged? ==>
      AnsweredOn(before + [Stored(handled.message)], after, DeleteMessage(index), handled.deleted)
  }

  /** The deletion, with its audit if it is refused. */
  method DeleteKept(wire: Wire, store: MessageStore, index: nat, message: ParsedInbound, pending: PendingIndices)
    returns (r: Exchange)
    requires Sound(wire) && !wire.dead && Abreast(wire, pending) && wire.seen.inbound.phase == Fetched(index, message)
    modifies wire, store`audits, pending
    ensures Sound(wire) && r.Lost? == wire.dead && |wire.script| <= |old(wire.script)|
    ensures OnlyKept(old(wire.seen), wire.seen, index, message)
    ensures Abreast(wire, pending) && pending.taken == old(pending.taken) && wire.side.view == old(wire.side).view
    ensures old(wire.log) <= wire.log && DeletedOn(old(wire.log), wire.log, index, Kept(message, r))
    ensures store.audits == old(store.audits) + AuditsOf(Kept(message, r), index)
  {
    r := DeleteStored(wire, index, message, pending);
    if r.Exchanged? && r.result != Ok {
      store.Record(NotDeleted(index, r.result));
    }
  }

  /** The rest of `handle_inbound_inner`: the fetched message is stored, and deleted
      from the modem only if that went well. */
  method StoreInbound(wire: Wire, store: MessageStore, index: nat, message: ParsedInbound, pending: PendingIndices)
    returns (ok: bool, ghost handled: Handled)
    requires Sound(wire) && !wire.dead && Tied(wire, store) && Abreast(wire, pending)
    requires wire.seen.inbound.phase == Fetched(index, message)
    modifies wire, store, pending
    ensures Sound(wire) && ok == !wire.dead && |wire.script| <= |old(wire.script)|
    ensures Tied(wire, store) && store.rows == old(store.rows) + RowsOf(handled)
    ensures store.audits == old(store.audits) + AuditsOf(handled, index)
    ensures Abreast(wire, pending) && pending.taken == old(pending.taken) && wire.side.view == old(wire.side).view
    ensures handled == NotStored || (handled.Kept? && handled.message == message)
    ensures ok == (handled == NotStored || handled.deleted.Exchanged?)
    ensures if handled.Kept? then OnlyKept(old(wire.seen), wire.seen, index, message)
            else wire.seen == old(wire.seen) && wire.log == old(wire.log)
    ensures old(wire.log) <= wire.log && DeletedOn(old(wire.log), wire.log, index, handled)
  {
    var stored := store.CreateInbound(message);
    if !stored {
      store.Record(NotPersisted(index));
      return true, NotStored;
    }
    RowsGrow(store.earlier, wire.seen.inbound.stored, Saved(index, message));
    var r := DeleteKept(wire, store, index, message, pending);
    handled := Kept(message, r);
    ok := r.Exchanged?;
  }

  /** `handle_inbound_inner`. `tries` and `handled` say how it went: the rows, the audit
      log and what was done on the modem follow from them. */
  method HandleInbound(wire: Wire, store: MessageStore, index: nat, pending: PendingIndices)
    returns (ok: bool, ghost visit: Visit)
    requires Sound(wire) && Tied(wire, store) && Abreast(wire, pending)
    modifies wire, store, pending
    ensures Sound(wire) && ok == !wire.dead && (old(wire.dead) ==> wire.dead)
    ensures |wire.script| <= |old(wire.script)| && (ok ==> |wire.script| < |old(wire.script)|)
    ensures Tied(wire, store) && store.rows == old(store.rows) + RowsOf(visit.handled)
    ensures store.audits == old(store.audits) + AuditsOf(visit.handled, index)
    ensures Abreast(wire, pending) && pending.taken == old(pending.taken) && wire.side.view == old(wire.side).view
    ensures wire.seen.sends == old(wire.seen).sends && visit.index == index
    ensures wire.seen.inbound.touches == old(wire.seen).inbound.touches + visit.touches
    ensures VisitedOn(old(wire.log), wire.log, visit)
    ensures visit.handled == Interrupted || (visit.handled.Kept? && visit.handled.deleted.Lost?) <==> !ok
  {
    var parsed;
    ghost var tries, answers, done;
    ok, parsed, tries, answers, done := ReadInbound(wire, index, pending);
    if ok && parsed.Some? {
      ok, visit :=
          FinishInbound(wire, store, index, parsed.value, pending, old(wire.seen), old(wire.log), tries, answers);
    } else {
      visit := Visit(index, Fetches(index, tries), tries, if ok then Unreadable else Interrupted, answers);
      if ok {
        store.Record(ReadGaveUp(index));
      }
    }
  }

  /** What follows a message read: `seen` and `log` are from before the first read. */
  method FinishInbound(wire: Wire, store: MessageStore, index: nat, message: ParsedInbound, pending: PendingIndices,
                       ghost seen: Monitor, ghost log: seq<Op>, ghost tries: nat, ghost answers: seq<Exchange>)
    returns (ok: bool, ghost visit: Visit)
    requires Sound(wire) && !wire.dead && Tied(wire, store) && Abreast(wire, pending)
    requires wire.seen.inbound.phase == Fetched(index, message) && OnlyRead(seen, wire.seen, index, tries)
    requires 1 <= tries <= 3 && ReadAtLast(answers, message) && log <= wire.log
              && AnsweredInTurn(log, wire.log, index, answers)
    modifies wire, store, pending
    ensures Sound(wire) && ok == !wire.dead && |wire.script| <= |old(wire.script)|
    ensures Tied(wire, store) && store.rows == old(store.rows) + RowsOf(visit.handled)
    ensures store.audits == old(store.audits) + AuditsOf(visit.handled, index)
    ensures Abreast(wire, pending) && pending.taken == old(pending.taken) && wire.side.view == old(wire.side).view
    ensures wire.seen.sends == seen.sends && visit.index == index
    ensures wire.seen.inbound.touches == seen.inbound.touches + visit.touches
    ensures VisitedOn(log, wire.log, visit)
    ensures ok == (visit.handled == NotStored || (visit.handled.Kept? && visit.handled.deleted.Exchanged?))
    ensures visit.handled == NotStored || visit.handled.Kept?
  {
    ghost var handled;
    ok, handled := StoreInbound(wire, store, index, message, pending);
    visit := Visit(index, Fetches(index, tries) + TouchesAfter(handled, index), tries, handled, answers);
    Associate(seen.inbound.touches, Fetches(index, tries), TouchesAfter(handled, index));
    FinishedVisit(log, old(wire.log), wire.log, visit);
  }

  function TouchesAfter(handled: Handled, index: nat): seq<Touch> {
    if handled.Kept? then [Keep(handled.message), Delete(index)] else []
  }

  lemma FinishedVisit(before: seq<Op>, done: seq<Op>, after: seq<Op>, visit: Visit)
    requires before <= done <= after && 1 <= visit.tries <= 3
              && AnsweredInTurn(before, done, visit.index, visit.answers)
    requires visit.touches == Fetches(visit.index, visit.tries) + TouchesAfter(visit.handled, visit.index)
    requires visit.handled == NotStored || (visit.handled.Kept? && ReadAtLast(visit.answers, visit.handled.message))
    requires visit.handled.Kept? ==> DeletedOn(done, after, visit.index, visit.handled)
    requires visit.handled == NotStored ==> done == after
    ensures VisitedOn(before, after, visit)
  {
  }

  /** One announced index handled: what was done on the modem, and the answers. */
  datatype Visit = Visit(index: nat, touches: seq<Touch>, tries: nat, handled: Handled, answers: seq<Exchange>)

  /** A visit as the trace shows it: the reads answered in turn, none readable but the
      one the message is from, and after the store the delete. */
  ghost predicate VisitedOn(before: seq<Op>, after: seq<Op>, visit: Visit) {
    && before <= after && Handling(visit.touches, visit.index, visit.tries, visit.handled)
    && match visit.handled
       case Interrupted => AllUnread(visit.answers)
       case Unreadable => AllUnread(visit.answers) && AnsweredInTurn(before, after, visit.index, visit.answers)
       case NotStored => AnsweredInTurn(before, after, visit.index, visit.answers)
       case Kept(message, _) =>
         && ReadAtLast(visit.answers, message)
         && exists done ::
             AnsweredInTurn(before, done, visit.index, visit.answers)
             && DeletedOn(done, after, visit.index, visit.handled)
  }
}
