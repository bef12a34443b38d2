/** The life of an outbound message (`api/v1.rs`, `lib.rs`, `db.rs`): foreground
    dispatch tasks and the background reaper interleave over the same rows. Each
    action below is one step of a task between two points where others may run.
    Times are in seconds. */
module Lifecycle {
  import opened Text
  import opened Models

  datatype Row = Row(status: MessageStatus, createdAt: int)

  /** Where the task that dispatches a message stands. */
  datatype Phase =
    | Ready                       // row created, send not yet requested
    | Sending                     // the modem has the message
    | Resolved(result: MessageStatus)    // the modem answered
    | Written(result: MessageStatus)     // row updated, event not yet published
    | Finished

  /** Where the reaper stands: between cycles, or with the rest of a batch. */
  datatype Reaper =
    | Idle
    | Batch(rest: seq<nat>)
    | Reaping(id: nat, phase: Phase, rest: seq<nat>)

  datatype Event = Event(id: nat, status: MessageStatus)

  datatype State = State(now: int, rows: map<nat, Row>, dispatch: map<nat, Phase>, reaper: Reaper, events: seq<Event>)

  datatype Action =
    | Tick(now: int)
    | Accept(id: nat)
    | DispatchSend(id: nat)
    | DispatchReply(id: nat, result: MessageStatus)
    | DispatchWrite(id: nat, ok: bool)
    | DispatchPublish(id: nat)
    | ReapQuery(batch: seq<nat>)
    | ReapSend
    | ReapReply(result: MessageStatus)
    | ReapWrite(ok: bool)
    | ReapPublish

  const GRACE: int := 300
  const REAP_BATCH: nat := 200

  ghost predicate Distinct(ids: seq<nat>) {
    forall i, j :: 0 <= i < j < |ids| ==> ids[i] != ids[j]
  }

  predicate Stuck(s: State, id: nat) {
    id in s.rows && s.rows[id].status == Queued && s.rows[id].createdAt < s.now - GRACE
  }

  /** `queued_outbound_messages`: the oldest stuck rows, up to the batch size. */
  ghost predicate QueryResult(s: State, batch: seq<nat>) {
    && |batch| <= REAP_BATCH && Distinct(batch)
    && (forall i :: 0 <= i < |batch| ==> Stuck(s, batch[i]))
    && (forall i, j :: 0 <= i < j < |batch| ==> s.rows[batch[i]].createdAt <= s.rows[batch[j]].createdAt)
    && (forall id :: Stuck(s, id) && id !in batch ==>
          |batch| == REAP_BATCH && s.rows[id].createdAt >= s.rows[batch[|batch| - 1]].createdAt)
  }

  ghost predicate Enabled(s: State, a: Action) {
    match a
    case Tick(now) => s.now <= now
    case Accept(id) => id !in s.rows
    case DispatchSend(id) => id in s.dispatch && s.dispatch[id] == Ready
    case DispatchReply(id, _) => id in s.dispatch && s.dispatch[id] == Sending
    case DispatchWrite(id, _) => id in s.dispatch && s.dispatch[id].Resolved?
    case DispatchPublish(id) => id in s.dispatch && s.dispatch[id].Written?
    case ReapQuery(batch) => s.reaper == Idle && QueryResult(s, batch)
    case ReapSend => s.reaper.Batch? && s.reaper.rest != []
    case ReapReply(_) => s.reaper.Reaping? && s.reaper.phase == Sending
    case ReapWrite(_) => s.reaper.Reaping? && s.reaper.phase.Resolved?
    case ReapPublish => s.reaper.Reaping? && s.reaper.phase.Written?
  }

  /** A batch that has been worked through ends the cycle. */
  function Remaining(rest: seq<nat>): Reaper {
    if rest == [] then Idle else Batch(rest)
  }

  /** `set_outbound_status`, whose failure both tasks ignore. */
  function SetStatus(rows: map<nat, Row>, id: nat, status: MessageStatus, ok: bool): map<nat, Row> {
    if ok && id in rows then rows[id := rows[id].(status := status)] else rows
  }

  function Apply(s: State, a: Action): State
    requires Enabled(s, a)
  {
    match a
    case Tick(now) => s.(now := now)
    case Accept(id) => s.(rows := s.rows[id := Row(Queued, s.now)], dispatch := s.dispatch[id := Ready])
    case DispatchSend(id) => s.(dispatch := s.dispatch[id := Sending])
    case DispatchReply(id, result) => s.(dispatch := s.dispatch[id := Resolved(result)])
    case DispatchWrite(id, ok) =>
      var result := s.dispatch[id].result;
      if result == Queued then s.(dispatch := s.dispatch[id := Finished])
      else s.(rows := SetStatus(s.rows, id, result, ok), dispatch := s.dispatch[id := Written(result)])
    case DispatchPublish(id) =>
      s.(events := s.events + [Event(id, s.dispatch[id].result)], dispatch := s.dispatch[id := Finished])
    case ReapQuery(batch) => s.(reaper := Remaining(batch))
    case ReapSend => s.(reaper := Reaping(s.reaper.rest[0], Sending, s.reaper.rest[1..]))
    case ReapReply(result) => s.(reaper := s.reaper.(phase := Resolved(result)))
    case ReapWrite(ok) =>
      var Reaping(id, phase, rest) := s.reaper;
      if phase.result == Queued then s.(reaper := Remaining(rest))
      else s.(rows := SetStatus(s.rows, id, phase.result, ok), reaper := Reaping(id, Written(phase.result), rest))
    case ReapPublish =>
      var Reaping(id, phase, rest) := s.reaper;
      s.(events := s.events + [Event(id, phase.result)], reaper := Remaining(rest))
  }

  /** What the source takes for granted: a dispatch is over within the grace
      period of its row's creation, and status writes succeed. */
  ghost predicate Assumed(s: State, a: Action) {
    match a
    case Tick(now) =>
      forall id :: id in s.rows && id in s.dispatch && s.dispatch[id] != Finished ==>
          now <= s.rows[id].createdAt + GRACE
    case DispatchWrite(_, ok) => ok
    case ReapWrite(ok) => ok
    case _ => true
  }

  // The invariant

  function EventsOf(events: seq<Event>, id: nat): seq<MessageStatus> {
    if events == [] then []
    else
      var last := events[|events| - 1];
      EventsOf(events[..|events| - 1], id) + if last.id == id then [last.status] else []
  }

  lemma EventsOfAppend(events: seq<Event>, e: Event, id: nat)
    ensures EventsOf(events + [e], id) == EventsOf(events, id) + if e.id == id then [e.status] else []
  {
    assert (events + [e])[..|events|] == events;
  }

  /** The messages a reaper cycle has still to finish. */
  function Held(reaper: Reaper): seq<nat> {
    match reaper
    case Idle => []
    case Batch(rest) => rest
    case Reaping(id, _, rest) => [id] + rest
  }

  predicate BeingReaped(s: State, id: nat) {
    s.reaper.Reaping? && s.reaper.id == id
  }

  /** The phase of whichever task has the message in hand. */
  function PhaseOf(s: State, id: nat): Phase {
    if BeingReaped(s, id) then s.reaper.phase
    else if id in s.dispatch then s.dispatch[id]
    else Finished
  }

  /** One message: its row and the events published for it, by phase. */
  ghost predicate Settled(status: MessageStatus, published: seq<MessageStatus>, phase: Phase) {
    match phase
    case Written(result) => result != Queued && status == result && published == []
    case Finished => published == if status == Queued then [] else [status]
    case _ => status == Queued && published == []
  }

  ghost predicate MessageOk(s: State, id: nat)
    requires s.rows.Keys == s.dispatch.Keys && id in s.rows
  {
    && s.rows[id].createdAt <= s.now
    && (s.dispatch[id] != Finished ==> s.now <= s.rows[id].createdAt + GRACE && id !in Held(s.reaper))
    && Settled(s.rows[id].status, EventsOf(s.events, id), PhaseOf(s, id))
  }

  ghost predicate ReaperOk(s: State) {
    && Distinct(Held(s.reaper))
    && (forall i :: 0 <= i < |Held(s.reaper)| ==> Held(s.reaper)[i] in s.rows)
    && (s.reaper.Reaping? ==> s.reaper.phase != Ready && s.reaper.phase != Finished)
    && (forall id :: id in Held(s.reaper) && id in s.rows && !BeingReaped(s, id) ==> s.rows[id].status == Queued)
  }

  ghost predicate Inv(s: State) {
    && s.rows.Keys == s.dispatch.Keys
    && ReaperOk(s)
    && (forall id :: id in s.rows ==> MessageOk(s, id))
    && (forall id :: id !in s.rows ==> EventsOf(s.events, id) == [])
  }

  const START := State(0, map[], map[], Idle, [])

  lemma InvStart()
    ensures Inv(START)
  {
  }

  lemma TickKeeps(s: State, now: int)
    requires Inv(s) && Enabled(s, Tick(now)) && Assumed(s, Tick(now))
    ensures Inv(Apply(s, Tick(now)))
  {
    var s' := Apply(s, Tick(now));
    forall id | id in s'.rows
      ensures MessageOk(s', id)
    {
      assert MessageOk(s, id);
    }
  }

  lemma AcceptKeeps(s: State, id: nat)
    requires Inv(s) && Enabled(s, Accept(id))
    ensures Inv(Apply(s, Accept(id)))
  {
    var s' := Apply(s, Accept(id));
    assert id !in Held(s.reaper);
    forall other | other in s'.rows
      ensures MessageOk(s', other)
    {
      if other != id {
        assert MessageOk(s, other);
      }
    }
  }

  /** A dispatch step that publishes nothing. */
  lemma DispatchKeeps(s: State, id: nat, status: MessageStatus, phase: Phase)
    requires Inv(s) && id in s.rows && s.dispatch[id] != Finished
    requires Settled(status, [], phase) && EventsOf(s.events, id) == []
    ensures Inv(s.(rows := s.rows[id := s.rows[id].(status := status)], dispatch := s.dispatch[id := phase]))
  {
    var s' := s.(rows := s.rows[id := s.rows[id].(status := status)], dispatch := s.dispatch[id := phase]);
    assert MessageOk(s, id);
    forall other | other in s'.rows
      ensures MessageOk(s', other)
    {
      assert MessageOk(s, other);
      if BeingReaped(s, other) {
        assert Held(s.reaper)[0] == other;
      }
    }
  }

  /** The row and events of one message after a task that had it publishes. */
  lemma PublishSettles(s: State, s': State, id: nat, result: MessageStatus, other: nat)
    requires other in s.rows && Settled(s.rows[other].status, EventsOf(s.events, other), PhaseOf(s, other))
    requires s'.rows == s.rows && s'.events == s.events + [Event(id, result)]
    requires other == id ==> PhaseOf(s, id) == Written(result) && PhaseOf(s', id) == Finished
    requires other != id ==> PhaseOf(s', other) == PhaseOf(s, other)
    ensures Settled(s'.rows[other].status, EventsOf(s'.events, other), PhaseOf(s', other))
  {
    EventsOfAppend(s.events, Event(id, result), other);
  }

  /** No dispatch that is not over has its message in the reaper's hands. */
  lemma NotReaped(s: State, id: nat)
    requires Inv(s) && id in s.rows && s.dispatch[id] != Finished
    ensures !BeingReaped(s, id)
  {
    assert MessageOk(s, id);
    assert s.reaper.Reaping? ==> Held(s.reaper)[0] == s.reaper.id;
  }

  lemma DispatchPublishKeeps(s: State, id: nat)
    requires Inv(s) && Enabled(s, DispatchPublish(id))
    ensures Inv(Apply(s, DispatchPublish(id)))
  {
    var s' := Apply(s, DispatchPublish(id));
    NotReaped(s, id);
    forall other | other in s'.rows
      ensures MessageOk(s', other)
    {
      assert MessageOk(s, other);
      PublishSettles(s, s', id, s.dispatch[id].result, other);
    }
    forall other | other !in s'.rows
      ensures EventsOf(s'.events, other) == []
    {
      EventsOfAppend(s.events, Event(id, s.dispatch[id].result), other);
    }
  }

  lemma QueryKeeps(s: State, batch: seq<nat>)
    requires Inv(s) && Enabled(s, ReapQuery(batch))
    ensures Inv(Apply(s, ReapQuery(batch)))
  {
    var s' := Apply(s, ReapQuery(batch));
    assert Held(s'.reaper) == batch;
    forall id | id in s'.rows
      ensures MessageOk(s', id)
    {
      assert MessageOk(s, id);
    }
  }

  /** A reaper step that publishes nothing and keeps hold of the message. */
  lemma ReapKeeps(s: State, id: nat, status: MessageStatus, reaper: Reaper)
    requires Inv(s) && id in s.rows && Held(s.reaper) != [] && Held(s.reaper)[0] == id
    requires Held(reaper) == Held(s.reaper) && reaper.Reaping?
    requires reaper.phase != Ready && reaper.phase != Finished
    requires Settled(status, [], reaper.phase) && EventsOf(s.events, id) == []
    ensures Inv(s.(rows := s.rows[id := s.rows[id].(status := status)], reaper := reaper))
  {
    var s' := s.(rows := s.rows[id := s.rows[id].(status := status)], reaper := reaper);
    assert reaper.id == id;
    assert MessageOk(s, id);
    forall other | other in s'.rows
      ensures MessageOk(s', other)
    {
      assert MessageOk(s, other);
      assert BeingReaped(s, other) ==> other == id by {
        if BeingReaped(s, other) {
          assert Held(s.reaper)[0] == other;
        }
      }
    }
  }

  lemma ReleaseFacts(s: State)
    requires Inv(s) && s.reaper.Reaping?
    ensures var Reaping(id, phase, rest) := s.reaper;
              && id in s.rows && s.dispatch[id] == Finished && id !in rest
              && Held(s.reaper) == [id] + rest && Held(Remaining(rest)) == rest
              && Distinct(rest)
  {
    var Reaping(id, phase, rest) := s.reaper;
    assert Held(s.reaper)[0] == id && MessageOk(s, id);
    assert forall i :: 0 <= i < |rest| ==> Held(s.reaper)[i + 1] == rest[i];
  }

  lemma ReleaseReaper(s: State, events: seq<Event>)
    requires Inv(s) && s.reaper.Reaping?
    ensures ReaperOk(s.(events := events, reaper := Remaining(s.reaper.rest)))
  {
    ReleaseFacts(s);
    var rest := s.reaper.rest;
    assert forall i :: 0 <= i < |rest| ==> Held(s.reaper)[i + 1] == rest[i];
    assert forall id :: id in rest ==> id in Held(s.reaper);
  }

  /** Letting go of a message that is still not deliverable. */
  lemma ReleaseKeeps(s: State)
    requires Inv(s) && s.reaper.Reaping? && s.reaper.phase == Resolved(Queued)
    ensures Inv(s.(reaper := Remaining(s.reaper.rest)))
  {
    var s' := s.(reaper := Remaining(s.reaper.rest));
    ReleaseFacts(s);
    ReleaseReaper(s, s.events);
    forall other | other in s'.rows
      ensures MessageOk(s', other)
    {
      assert MessageOk(s, other);
    }
  }

  lemma ReapPublishKeeps(s: State)
    requires Inv(s) && Enabled(s, ReapPublish)
    ensures Inv(Apply(s, ReapPublish))
  {
    var Reaping(id, phase, rest) := s.reaper;
    var s' := Apply(s, ReapPublish);
    ReleaseFacts(s);
    ReleaseReaper(s, s'.events);
    forall other | other in s'.rows
      ensures MessageOk(s', other)
    {
      assert MessageOk(s, other);
      PublishSettles(s, s', id, phase.result, other);
    }
    forall other | other !in s'.rows
      ensures EventsOf(s'.events, other) == []
    {
      EventsOfAppend(s.events, Event(id, phase.result), other);
    }
  }

  lemma StepKeeps(s: State, a: Action)
    requires Inv(s) && Enabled(s, a) && Assumed(s, a)
    ensures Inv(Apply(s, a))
  {
    match a
    case Tick(now) => TickKeeps(s, now);
    case Accept(id) => AcceptKeeps(s, id);
    case DispatchSend(id) => DispatchMoves(s, a, id);
    case DispatchReply(id, _) => DispatchMoves(s, a, id);
    case DispatchWrite(id, _) => DispatchMoves(s, a, id);
    case DispatchPublish(id) => DispatchPublishKeeps(s, id);
    case ReapQuery(batch) => QueryKeeps(s, batch);
    case ReapSend => ReapMoves(s, a);
    case ReapReply(_) => ReapMoves(s, a);
    case ReapWrite(_) => ReapMoves(s, a);
    case ReapPublish => ReapPublishKeeps(s);
  }

  lemma DispatchMoves(s: State, a: Action, id: nat)
    requires Inv(s) && Enabled(s, a) && Assumed(s, a)
    requires a == DispatchSend(id) || (a.DispatchReply? && a.id == id) || (a.DispatchWrite? && a.id == id)
    ensures Inv(Apply(s, a))
  {
    assert MessageOk(s, id);
    var s' := Apply(s, a);
    DispatchKeeps(s, id, s'.rows[id].status, s'.dispatch[id]);
    assert s.rows == s.rows[id := s.rows[id]];
    assert s' == s.(rows := s.rows[id := s.rows[id].(status := s'.rows[id].status)],
           dispatch := s.dispatch[id := s'.dispatch[id]]);
  }

  lemma ReapMoves(s: State, a: Action)
    requires Inv(s) && Enabled(s, a) && Assumed(s, a)
    requires a.ReapSend? || a.ReapReply? || a.ReapWrite?
    ensures Inv(Apply(s, a))
  {
    var id := Held(s.reaper)[0];
    assert id in s.rows && id in Held(s.reaper) && MessageOk(s, id);
    var s' := Apply(s, a);
    if a.ReapWrite? && s.reaper.phase.result == Queued {
      ReleaseKeeps(s);
    } else {
      assert Held(s'.reaper) == Held(s.reaper);
      assert s.rows == s.rows[id := s.rows[id]];
      ReapKeeps(s, id, s'.rows[id].status, s'.reaper);
      assert s' == s.(rows := s.rows[id := s.rows[id].(status := s'.rows[id].status)], reaper := s'.reaper);
    }
  }

  // Runs

  /** `states` is a run of the system through `actions`. */
  ghost predicate IsRun(states: seq<State>, actions: seq<Action>) {
    && |states| == |actions| + 1 && states[0] == START
    && forall i :: 0 <= i < |actions| ==>
        Enabled(states[i], actions[i]) && states[i + 1] == Apply(states[i], actions[i])
  }

  ghost predicate AllAssumed(states: seq<State>, actions: seq<Action>) {
    |states| == |actions| + 1 && forall i :: 0 <= i < |actions| ==> Assumed(states[i], actions[i])
  }

  lemma {:induction false} RunInv(states: seq<State>, actions: seq<Action>, n: nat)
    requires IsRun(states, actions) && AllAssumed(states, actions) && n < |states|
    ensures Inv(states[n])
  {
    if n == 0 {
      InvStart();
    } else {
      RunInv(states, actions, n - 1);
      StepKeeps(states[n - 1], actions[n - 1]);
    }
  }

  /** How many sends of the message the modem has in hand. */
  function InFlight(s: State, id: nat): nat {
    (if id in s.dispatch && s.dispatch[id] == Sending then 1 else 0)
    + (if s.reaper.Reaping? && s.reaper.id == id && s.reaper.phase == Sending then 1 else 0)
  }

  lemma StatusStep(s: State, a: Action, id: nat)
    requires Inv(s) && Enabled(s, a) && Assumed(s, a) && id in s.rows
    ensures id in Apply(s, a).rows
    ensures s.rows[id].status != Queued ==> Apply(s, a).rows[id].status == s.rows[id].status
  {
    assert MessageOk(s, id);
    if a.ReapWrite? {
      assert Held(s.reaper)[0] == s.reaper.id;
    }
    if BeingReaped(s, id) {
      assert Held(s.reaper)[0] == id;
    }
  }

  lemma {:induction false} StatusStable(states: seq<State>, actions: seq<Action>, i: nat, j: nat, id: nat)
    requires IsRun(states, actions) && AllAssumed(states, actions) && i <= j < |states|
    requires id in states[i].rows && states[i].rows[id].status != Queued
    ensures id in states[j].rows && states[j].rows[id] .status == states[i].rows[id].status
  {
    if i < j {
      StatusStable(states, actions, i, j - 1, id);
      RunInv(states, actions, j - 1);
      StatusStep(states[j - 1], actions[j - 1], id);
    }
  }

  /** In every run the assumptions hold of: never two sends of a message at once;
      a status once terminal never changes; at most one event per message, with the
      row's terminal status; and exactly that event once nobody is about to
      publish it. */
  lemma OutboundSafety(states: seq<State>, actions: seq<Action>, n: nat, id: nat)
    requires IsRun(states, actions) && AllAssumed(states, actions) && n < |states|
    requires id in states[n].rows
    ensures InFlight(states[n], id) <= 1
    ensures forall m :: n <= m < |states| && states[n].rows[id].status != Queued ==>
              id in states[m].rows && states[m].rows[id].status == states[n].rows[id].status
    ensures states[n].rows[id].status == Queued ==> EventsOf(states[n].events, id) == []
    ensures states[n].rows[id].status != Queued ==>
              EventsOf(states[n].events, id)
              == if PhaseOf(states[n], id).Written? then [] else [states[n].rows[id].status]
  {
    RunInv(states, actions, n);
    assert MessageOk(states[n], id);
    if BeingReaped(states[n], id) {
      assert Held(states[n].reaper)[0] == id;
    }
    forall m | n <= m < |states| && states[n].rows[id].status != Queued
      ensures id in states[m].rows && states[m].rows[id].status == states[n].rows[id].status
    {
      StatusStable(states, actions, n, m, id);
    }
  }

  // What the modem answered

  /** Which message the reaper has sent last, and which it has still to send, by the
      queries and sends alone. */
  datatype Cycle = Cycle(current: Option<nat>, rest: seq<nat>)

  function CycleAfter(actions: seq<Action>): Cycle {
    if actions == [] then Cycle(None, [])
    else
      var before := CycleAfter(actions[..|actions| - 1]);
      match actions[|actions| - 1]
      case ReapQuery(batch) => Cycle(None, batch)
      case ReapSend => if before.rest == [] then before else Cycle(Some(before.rest[0]), before.rest[1..])
      case _ => before
  }

  /** What one step answers for a message. */
  function ReplyTo(cycle: Cycle, a: Action, id: nat): Option<MessageStatus> {
    match a
    case DispatchReply(other, result) => if other == id then Some(result) else None
    case ReapReply(result) => if cycle.current == Some(id) then Some(result) else None
    case _ => None
  }

  /** The last answer the modem gave for a message. */
  function LastReply(actions: seq<Action>, id: nat): Option<MessageStatus> {
    if actions == [] then None
    else
      var front := actions[..|actions| - 1];
      var reply := ReplyTo(CycleAfter(front), actions[|actions| - 1], id);
      if reply.Some? then reply else LastReply(front, id)
  }

  /** The status an answer comes to, none being as good as queued. */
  function Recorded(reply: Option<MessageStatus>): MessageStatus {
    match reply case Some(status) => status case None => Queued
  }

  /** The reaper stands where its queries and sends put it. */
  predicate InStep(reaper: Reaper, cycle: Cycle) {
    match reaper
    case Idle => cycle.rest == []
    case Batch(rest) => cycle.rest == rest
    case Reaping(id, _, rest) => cycle == Cycle(Some(id), rest)
  }

  /** Where a message stands, the answers agree with it. */
  ghost predicate AnsweredAs(s: State, id: nat, reply: Option<MessageStatus>)
    requires id in s.rows
  {
    match PhaseOf(s, id)
    case Resolved(result) => reply == Some(result)
    case Written(result) => reply == Some(result)
    case Finished => s.rows[id].status == Recorded(reply)
    case _ => true
  }

  lemma CycleStep(s: State, a: Action, actions: seq<Action>)
    requires Enabled(s, a) && InStep(s.reaper, CycleAfter(actions))
    ensures InStep(Apply(s, a).reaper, CycleAfter(actions + [a]))
  {
    assert (actions + [a])[..|actions|] == actions;
  }

  lemma ReplySnoc(actions: seq<Action>, a: Action, id: nat)
    ensures LastReply(actions + [a], id)
         == if ReplyTo(CycleAfter(actions), a, id).Some? then ReplyTo(CycleAfter(actions), a, id)
             else LastReply(actions, id)
  {
    assert (actions + [a])[..|actions|] == actions;
  }

  predicate OfReaper(a: Action) {
    a.ReapQuery? || a.ReapSend? || a.ReapReply? || a.ReapWrite? || a.ReapPublish?
  }

  lemma ReaperAnswered(s: State, a: Action, cycle: Cycle, id: nat, reply: Option<MessageStatus>)
    requires OfReaper(a)
    requires Inv(s) && Enabled(s, a) && Assumed(s, a) && InStep(s.reaper, cycle)
    requires id in s.rows && AnsweredAs(s, id, reply)
    ensures var next := ReplyTo(cycle, a, id);
              id in Apply(s, a).rows && AnsweredAs(Apply(s, a), id, if next.Some? then next else reply)
  {
    assert MessageOk(s, id);
    if s.reaper.Reaping? {
      assert Held(s.reaper)[0] == s.reaper.id;
    }
  }

  lemma DispatchAnswered(s: State, a: Action, cycle: Cycle, id: nat, reply: Option<MessageStatus>)
    requires !OfReaper(a)
    requires Inv(s) && Enabled(s, a) && Assumed(s, a) && InStep(s.reaper, cycle)
    requires id in s.rows && AnsweredAs(s, id, reply)
    ensures var next := ReplyTo(cycle, a, id);
              id in Apply(s, a).rows && AnsweredAs(Apply(s, a), id, if next.Some? then next else reply)
  {
    assert MessageOk(s, id);
    if BeingReaped(s, id) {
      assert Held(s.reaper)[0] == id;
    }
  }

  /** One step more: a message's own step brings its answer with it, and no other step
      changes anything for it. */
  lemma AnsweredStep(s: State, a: Action, cycle: Cycle, id: nat, reply: Option<MessageStatus>)
    requires Inv(s) && Enabled(s, a) && Assumed(s, a) && InStep(s.reaper, cycle)
    requires id in s.rows && AnsweredAs(s, id, reply)
    ensures var next := ReplyTo(cycle, a, id);
              id in Apply(s, a).rows && AnsweredAs(Apply(s, a), id, if next.Some? then next else reply)
  {
    if OfReaper(a) {
      ReaperAnswered(s, a, cycle, id, reply);
    } else {
      DispatchAnswered(s, a, cycle, id, reply);
    }
  }

  ghost predicate AllAnswered(s: State, actions: seq<Action>) {
    && InStep(s.reaper, CycleAfter(actions))
    && forall id :: id in s.rows ==> AnsweredAs(s, id, LastReply(actions, id))
  }

  lemma AllAnsweredStep(s: State, a: Action, actions: seq<Action>)
    requires Inv(s) && Enabled(s, a) && Assumed(s, a) && AllAnswered(s, actions)
    ensures AllAnswered(Apply(s, a), actions + [a])
  {
    CycleStep(s, a, actions);
    forall id | id in Apply(s, a).rows
      ensures AnsweredAs(Apply(s, a), id, LastReply(actions + [a], id))
    {
      ReplySnoc(actions, a, id);
      if id in s.rows {
        AnsweredStep(s, a, CycleAfter(actions), id, LastReply(actions, id));
      } else {
        JustAccepted(s, a, id);
      }
    }
  }

  lemma JustAccepted(s: State, a: Action, id: nat)
    requires Inv(s) && Enabled(s, a) && id !in s.rows && id in Apply(s, a).rows
    ensures PhaseOf(Apply(s, a), id) == Ready
  {
    if s.reaper.Reaping? {
      assert Held(s.reaper)[0] == s.reaper.id;
    }
  }

  lemma RunStep(states: seq<State>, actions: seq<Action>, i: nat)
    requires IsRun(states, actions) && AllAssumed(states, actions) && i < |actions|
    ensures Enabled(states[i], actions[i]) && Assumed(states[i], actions[i])
    ensures states[i + 1] == Apply(states[i], actions[i]) && actions[..i + 1] == actions[..i] + [actions[i]]
  {
  }

  lemma NoneAnswered()
    ensures AllAnswered(START, [])
  {
  }

  lemma {:induction false} RunAnswered(states: seq<State>, actions: seq<Action>, n: nat)
    requires IsRun(states, actions) && AllAssumed(states, actions) && n < |states|
    ensures AllAnswered(states[n], actions[..n])
  {
    if n == 0 {
      NoneAnswered();
    } else {
      RunAnswered(states, actions, n - 1);
      RunInv(states, actions, n - 1);
      RunStep(states, actions, n - 1);
      AllAnsweredStep(states[n - 1], actions[n - 1], actions[..n - 1]);
    }
  }

  /** In every run the assumptions hold of, a status recorded, and every event
      published, is what the modem last answered for that message; with no answer, or
      a queued one, the message is queued and nothing is published; and once its
      dispatch is over and the reaper idle, what was answered is recorded. */
  lemma OutcomeIsTheReply(states: seq<State>, actions: seq<Action>, n: nat, id: nat)
    requires IsRun(states, actions) && AllAssumed(states, actions) && n < |states| && id in states[n].rows
    ensures states[n].rows[id].status in {Queued, Recorded(LastReply(actions[..n], id))}
    ensures forall e :: e in EventsOf(states[n].events, id) ==> LastReply(actions[..n], id) == Some(e)
    ensures Recorded(LastReply(actions[..n], id)) == Queued ==>
              states[n].rows[id].status == Queued && EventsOf(states[n].events, id) == []
    ensures id in states[n].dispatch && states[n].dispatch[id] == Finished && states[n].reaper == Idle ==>
              states[n].rows[id].status == Recorded(LastReply(actions[..n], id))
  {
    RunInv(states, actions, n);
    RunAnswered(states, actions, n);
    assert MessageOk(states[n], id) && AnsweredAs(states[n], id, LastReply(actions[..n], id));
  }

  // Both assumptions are needed

  ghost predicate Reachable(s: State) {
    exists states, actions :: IsRun(states, actions) && states[|states| - 1] == s
  }

  lemma Reach(s: State, a: Action)
    requires Reachable(s) && Enabled(s, a)
    ensures Reachable(Apply(s, a))
  {
    var states, actions :| IsRun(states, actions) && states[|states| - 1] == s;
    assert IsRun(states + [Apply(s, a)], actions + [a]);
  }

  lemma ReachDispatched(result: MessageStatus, ok: bool)
    requires result != Queued
    ensures Reachable(State(0, map[1 := Row(if ok then result else Queued, 0)], map[1 := Written(result)], Idle, []))
  {
    assert IsRun([START], []);
    Reach(START, Accept(1));
    var s := State(0, map[1 := Row(Queued, 0)], map[1 := Ready], Idle, []);
    assert Apply(START, Accept(1)) == s;
    Reach(s, DispatchSend(1));
    Reach(s.(dispatch := map[1 := Sending]), DispatchReply(1, result));
    Reach(s.(dispatch := map[1 := Resolved(result)]), DispatchWrite(1, ok));
  }

  lemma ReachReaped(s: State)
    requires Reachable(s) && s.rows == map[1 := Row(Queued, 0)] && s.now == 0 && s.reaper == Idle
    ensures Reachable(s.(now := 301, reaper := Reaping(1, Sending, [])))
  {
    Reach(s, Tick(301));
    Reach(s.(now := 301), ReapQuery([1]));
    Reach(s.(now := 301, reaper := Batch([1])), ReapSend);
    assert [1][1..] == [];
  }

  /** A reaped message whose status write fails is announced once more. */
  lemma ReapedUnwritten(s: State)
    requires Reachable(s) && s.reaper == Reaping(1, Sending, [])
    ensures Reachable(s.(reaper := Idle, events := s.events + [Event(1, Sent)]))
  {
    Reach(s, ReapReply(Sent));
    Reach(s.(reaper := Reaping(1, Resolved(Sent), [])), ReapWrite(false));
    Reach(s.(reaper := Reaping(1, Written(Sent), [])), ReapPublish);
  }

  lemma TwoEvents()
    ensures EventsOf([Event(1, Sent)] + [Event(1, Sent)], 1) == [Sent, Sent]
  {
    EventsOfAppend([Event(1, Sent)], Event(1, Sent), 1);
    EventsOfAppend([], Event(1, Sent), 1);
    assert [] + [Event(1, Sent)] == [Event(1, Sent)];
  }

  lemma PublishedUnwritten()
    ensures Reachable(State(0, map[1 := Row(Queued, 0)], map[1 := Finished], Idle, [Event(1, Sent)]))
  {
    ReachDispatched(Sent, false);
    Reach(State(0, map[1 := Row(Queued, 0)], map[1 := Written(Sent)], Idle, []), DispatchPublish(1));
  }

  /** If a status write fails, its event goes out all the same, the row stays
      queued, and the reaper delivers the message again. */
  lemma FailedWriteSendsTwice()
    ensures exists s :: Reachable(s) && EventsOf(s.events, 1) == [Sent, Sent]
  {
    var s := State(0, map[1 := Row(Queued, 0)], map[1 := Finished], Idle, [Event(1, Sent)]);
    PublishedUnwritten();
    ReachReaped(s);
    var again := s.(now := 301, reaper := Reaping(1, Sending, []));
    ReapedUnwritten(again);
    TwoEvents();
    assert again.events + [Event(1, Sent)] == [Event(1, Sent)] + [Event(1, Sent)];
  }

  /** If a dispatch outlasts the grace period, the reaper sends beside it. */
  lemma SlowDispatchSendsTwice()
    ensures exists s :: Reachable(s) && InFlight(s, 1) == 2
  {
    assert IsRun([START], []);
    Reach(START, Accept(1));
    var s := State(0, map[1 := Row(Queued, 0)], map[1 := Ready], Idle, []);
    assert Apply(START, Accept(1)) == s;
    Reach(s, DispatchSend(1));
    ReachReaped(s.(dispatch := map[1 := Sending]));
    var both := s.(dispatch := map[1 := Sending], now := 301, reaper := Reaping(1, Sending, []));
    assert Reachable(both) && InFlight(both, 1) == 2;
  }

  // What is reaped

  /** The reaper holds a bounded batch of rows created more than five minutes ago. */
  ghost predicate HeldAreOld(s: State) {
    && |Held(s.reaper)| <= 200
    && forall id :: id in Held(s.reaper) ==> id in s.rows && s.rows[id].createdAt + 300 < s.now
  }

  lemma HeldRemaining(rest: seq<nat>)
    ensures Held(Remaining(rest)) == rest
  {
  }

  /** What a step leaves in the reaper's hands it had, unless it has just asked. */
  lemma HeldStep(s: State, a: Action)
    requires Enabled(s, a) && !a.ReapQuery?
    ensures |Held(Apply(s, a).reaper)| <= |Held(s.reaper)|
    ensures forall id :: id in Held(Apply(s, a).reaper) ==> id in Held(s.reaper)
  {
    if s.reaper.Reaping? {
      HeldRemaining(s.reaper.rest);
    } else if a.ReapSend? {
      assert [s.reaper.rest[0]] + s.reaper.rest[1..] == s.reaper.rest;
    }
  }

  lemma RowsStay(s: State, a: Action, id: nat)
    requires Enabled(s, a) && id in s.rows
    ensures id in Apply(s, a).rows && Apply(s, a).rows[id].createdAt == s.rows[id].createdAt && s.now <= Apply(s, a).now
  {
  }

  lemma HeldStayOld(s: State, a: Action)
    requires Enabled(s, a) && HeldAreOld(s)
    ensures HeldAreOld(Apply(s, a))
  {
    if a.ReapQuery? {
      HeldRemaining(a.batch);
    } else {
      HeldStep(s, a);
      forall id | id in Held(Apply(s, a).reaper)
        ensures id in Apply(s, a).rows && Apply(s, a).rows[id].createdAt + 300 < Apply(s, a).now
      {
        RowsStay(s, a, id);
      }
    }
  }

  /** In any run whatever, no message is reaped within five minutes of its creation. */
  lemma {:induction false} ReapedAreOld(states: seq<State>, actions: seq<Action>, n: nat)
    requires IsRun(states, actions) && n < |states|
    ensures HeldAreOld(states[n])
  {
    if n > 0 {
      ReapedAreOld(states, actions, n - 1);
      assert Enabled(states[n - 1], actions[n - 1]) && states[n] == Apply(states[n - 1], actions[n - 1]);
      HeldStayOld(states[n - 1], actions[n - 1]);
    }
  }
}
