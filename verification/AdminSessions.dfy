/** The admin session store of `admin/session.rs`: sessions slide with use, expire
    when idle, and are swept in the background. */
module AdminSessions {
  import opened Text
  import opened Timeline

  const SESSION_IDLE_TIMEOUT: nat := 30 * 60 * SECOND

  datatype Session = Session(adminId: int, lastActivity: int, csrfToken: string)

  type Table = map<string, Session>

  predicate SessionValid(session: Session, now: int) {
    now - session.lastActivity < SESSION_IDLE_TIMEOUT
  }

  /** The operations on the store. Tokens are drawn at random by the caller's
      generator and are opaque here. */
  datatype Op =
    | Create(adminId: int, token: string, csrfToken: string, now: int)
    | Csrf(token: string, now: int)
    | Validate(token: string, now: int)
    | Remove(token: string, now: int)
    | Sweep(now: int)

  datatype Answer = Nothing | AdminId(id: Option<int>) | CsrfToken(csrfToken: Option<string>)

  function Without(sessions: Table, token: string): Table {
    map t | t in sessions && t != token :: sessions[t]
  }

  function Swept(sessions: Table, now: int): Table {
    map t | t in sessions && SessionValid(sessions[t], now) :: sessions[t]
  }

  function Step(sessions: Table, op: Op): (Table, Answer) {
    match op
    case Create(adminId, token, csrfToken, now) =>
      (sessions[token := Session(adminId, now, csrfToken)], Nothing)
    case Csrf(token, now) =>
      (sessions, CsrfToken(if token in sessions && SessionValid(sessions[token], now)
                           then Some(sessions[token].csrfToken) else None))
    case Validate(token, now) =>
      if token in sessions && SessionValid(sessions[token], now) then
        (sessions[token := sessions[token].(lastActivity := now)], AdminId(Some(sessions[token].adminId)))
      else (Without(sessions, token), AdminId(None))
    case Remove(token, now) => (Without(sessions, token), Nothing)
    case Sweep(now) => (Swept(sessions, now), Nothing)
  }

  // What a history of operations makes of a token

  function TimeOf(op: Op): int {
    op.now
  }

  /** The session of a token if no sweep had ever run. */
  function Unswept(ops: seq<Op>, token: string): Option<Session> {
    if ops == [] then None
    else
      var before := Unswept(ops[..|ops| - 1], token);
      match ops[|ops| - 1]
      case Create(adminId, t, csrfToken, now) => if t == token then Some(Session(adminId, now, csrfToken)) else before
      case Validate(t, now) =>
        if t != token then before
        else if before.Some? && SessionValid(before.value, now) then Some(before.value.(lastActivity := now))
        else None
      case Remove(t, _) => if t == token then None else before
      case _ => before
  }

  predicate LiveAt(ops: seq<Op>, token: string, now: int) {
    var session := Unswept(ops, token);
    session.Some? && SessionValid(session.value, now)
  }

  /** Operations that show a session is in use. */
  predicate Uses(op: Op, token: string) {
    (op.Create? || op.Validate?) && op.token == token
  }

  /** The session was created at `c`, and the token neither created again nor
      removed since. */
  predicate CreatedAt(ops: seq<Op>, c: int, token: string) {
    && 0 <= c < |ops| && ops[c].Create? && ops[c].token == token
    && forall j :: c < j < |ops| ==> !((ops[j].Create? || ops[j].Remove?) && ops[j].token == token)
  }

  /** At `now`, before the `n`-th operation, the session had been in use within the
      last half hour. */
  predicate InUse(ops: seq<Op>, c: int, n: int, token: string, now: int) {
    0 <= c && n <= |ops| && exists i :: c <= i < n && Uses(ops[i], token) && now - ops[i].now < 1800 * SECOND
  }

  predicate NeverIdle(ops: seq<Op>, c: int, token: string) {
    0 <= c && forall j :: c < j < |ops| && Uses(ops[j], token) ==> InUse(ops, c, j, token, ops[j].now)
  }

  /** The last use of a live session, and when it was. */
  predicate LastUsed(ops: seq<Op>, i: int, token: string, at: int) {
    && 0 <= i < |ops| && Uses(ops[i], token) && ops[i].now == at
    && forall j :: i < j < |ops| ==> !Uses(ops[j], token)
  }

  lemma NeverIdleSnoc(ops: seq<Op>, op: Op, c: int, token: string)
    requires 0 <= c < |ops| && NeverIdle(ops, c, token)
    requires Uses(op, token) ==> InUse(ops, c, |ops|, token, op.now)
    ensures NeverIdle(ops + [op], c, token)
  {
    var all := ops + [op];
    forall j | c < j < |all| && Uses(all[j], token)
      ensures InUse(all, c, j, token, all[j].now)
    {
      assert InUse(ops, c, j, token, all[j].now);
      var i :| 0 <= c <= i < j && Uses(ops[i], token) && all[j].now - ops[i].now < SESSION_IDLE_TIMEOUT;
      assert all[i] == ops[i];
    }
  }

  lemma {:induction false} UnsweptHasOrigin(ops: seq<Op>, token: string) returns (c: int, i: int)
    requires Unswept(ops, token).Some?
    ensures CreatedAt(ops, c, token) && NeverIdle(ops, c, token) && c <= i
    ensures LastUsed(ops, i, token, Unswept(ops, token).value.lastActivity)
    ensures Unswept(ops, token).value.csrfToken == ops[c].csrfToken
    ensures Unswept(ops, token).value.adminId == ops[c].adminId
  {
    var front, op := ops[..|ops| - 1], ops[|ops| - 1];
    assert ops == front + [op];
    if op.Create? && op.token == token {
      return |ops| - 1, |ops| - 1;
    }
    c, i := UnsweptHasOrigin(front, token);
    if Uses(op, token) {
      assert InUse(front, c, |front|, token, op.now);
      NeverIdleSnoc(front, op, c, token);
      i := |ops| - 1;
    } else {
      NeverIdleSnoc(front, op, c, token);
    }
  }

  lemma NeverIdleFront(ops: seq<Op>, c: int, token: string)
    requires 0 <= c < |ops| - 1 && NeverIdle(ops, c, token)
    ensures NeverIdle(ops[..|ops| - 1], c, token)
  {
    var front := ops[..|ops| - 1];
    forall j | c < j < |front| && Uses(front[j], token)
      ensures InUse(front, c, j, token, front[j].now)
    {
      assert InUse(ops, c, j, token, ops[j].now);
      var i :| 0 <= c <= i < j && Uses(ops[i], token) && ops[j].now - ops[i].now < SESSION_IDLE_TIMEOUT;
      assert front[i] == ops[i];
    }
  }

  /** A session in use within the timeout is valid by its last use. */
  lemma InUseIsValid(ops: seq<Op>, c: int, token: string, now: int)
    requires InOrder(ops, TimeOf) && InUse(ops, c, |ops|, token, now) && Unswept(ops, token).Some?
    ensures LiveAt(ops, token, now)
  {
    var c', last := UnsweptHasOrigin(ops, token);
    var i :| 0 <= c <= i < |ops| && Uses(ops[i], token) && now - ops[i].now < SESSION_IDLE_TIMEOUT;
    assert i <= last;
    assert TimeOf(ops[i]) <= TimeOf(ops[last]);
  }

  lemma {:induction false} OriginKeepsSession(ops: seq<Op>, c: int, token: string)
    requires InOrder(ops, TimeOf) && CreatedAt(ops, c, token) && NeverIdle(ops, c, token)
    ensures Unswept(ops, token).Some?
    decreases |ops|
  {
    if c < |ops| - 1 {
      var front, op := ops[..|ops| - 1], ops[|ops| - 1];
      NeverIdleFront(ops, c, token);
      OriginKeepsSession(front, c, token);
      if Uses(op, token) {
        InUsePrefix(ops, c, token, op.now);
        InUseIsValid(front, c, token, op.now);
      }
    }
  }

  lemma InUsePrefix(ops: seq<Op>, c: int, token: string, now: int)
    requires ops != [] && InUse(ops, c, |ops| - 1, token, now)
    ensures InUse(ops[..|ops| - 1], c, |ops| - 1, token, now)
  {
    var i :| 0 <= c <= i < |ops| - 1 && Uses(ops[i], token) && now - ops[i].now < SESSION_IDLE_TIMEOUT;
    assert ops[..|ops| - 1][i] == ops[i];
  }

  /** A token is live exactly when it was created, not removed or created again
      since, and never left unused for the timeout, until now. */
  lemma LiveMeansInUse(ops: seq<Op>, token: string, now: int)
    requires InOrder(ops, TimeOf)
    ensures LiveAt(ops, token, now)
            <==> exists c :: CreatedAt(ops, c, token) && NeverIdle(ops, c, token) && InUse(ops, c, |ops|, token, now)
  {
    if LiveAt(ops, token, now) {
      var c, i := UnsweptHasOrigin(ops, token);
      assert InUse(ops, c, |ops|, token, now);
    }
    if c :| CreatedAt(ops, c, token) && NeverIdle(ops, c, token) && InUse(ops, c, |ops|, token, now) {
      OriginKeepsSession(ops, c, token);
      InUseIsValid(ops, c, token, now);
    }
  }

  /** The table holds the history's sessions, and lacks none that is live. */
  ghost predicate Backed(sessions: Table, ops: seq<Op>, clock: int) {
    && (forall t :: t in sessions ==> Unswept(ops, t) == Some(sessions[t]))
    && (forall t :: LiveAt(ops, t, clock) ==> t in sessions)
  }

  lemma UnsweptSnoc(ops: seq<Op>, op: Op)
    ensures (ops + [op])[..|ops|] == ops && (ops + [op])[|ops|] == op
  {
  }

  lemma BackedLater(sessions: Table, ops: seq<Op>, clock: int, now: int)
    requires Backed(sessions, ops, clock) && clock <= now
    ensures Backed(sessions, ops, now)
  {
    forall t | LiveAt(ops, t, now)
      ensures t in sessions
    {
      assert LiveAt(ops, t, clock);
    }
  }

  /** Every operation keeps the table backed by the history it extends. */
  lemma BackedStep(sessions: Table, ops: seq<Op>, op: Op)
    requires Backed(sessions, ops, op.now)
    ensures Backed(Step(sessions, op).0, ops + [op], op.now)
  {
    UnsweptSnoc(ops, op);
    var after := Step(sessions, op).0;
    forall t
      ensures t in after ==> Unswept(ops + [op], t) == Some(after[t])
      ensures LiveAt(ops + [op], t, op.now) ==> t in after
    {
      assert LiveAt(ops, t, op.now) ==> t in sessions;
    }
  }

  class SessionStore {
    var sessions: Table
    ghost var history: seq<Op>
    ghost var clock: int

    ghost predicate Valid()
      reads this
    {
      && Backed(sessions, history, clock) && InOrder(history, TimeOf)
      && forall i :: 0 <= i < |history| ==> history[i].now <= clock
    }

    constructor (now: int)
      ensures Valid() && sessions == map[] && history == [] && clock == now
    {
      sessions, history, clock := map[], [], now;
    }

    ghost method Note(op: Op)
      requires InOrder(history, TimeOf) && (forall i :: 0 <= i < |history| ==> history[i].now <= clock)
                && clock <= op.now
      requires Backed(sessions, history + [op], op.now)
      modifies this`history, this`clock
      ensures Valid() && history == old(history) + [op] && clock == op.now
    {
      history, clock := history + [op], op.now;
    }

    method CreateSession(adminId: int, token: string, csrfToken: string, now: int)
      requires Valid() && clock <= now
      modifies this
      ensures Valid() && history == old(history) + [Create(adminId, token, csrfToken, now)] && clock == now
      ensures LiveAt(history, token, now)
    {
      ghost var op := Create(adminId, token, csrfToken, now);
      BackedLater(sessions, history, clock, now);
      BackedStep(sessions, history, op);
      UnsweptSnoc(history, op);
      sessions := sessions[token := Session(adminId, now, csrfToken)];
      Note(op);
    }

    /** `csrf_token`: answered for live sessions only, with the token each was
        created with; looking changes nothing. */
    method CsrfFor(token: string, now: int) returns (csrfToken: Option<string>)
      requires Valid() && clock <= now
      ensures csrfToken.Some? <==> LiveAt(history, token, now)
      ensures csrfToken.Some? ==> exists c :: CreatedAt(history, c, token) && history[c].csrfToken == csrfToken.value
    {
      BackedLater(sessions, history, clock, now);
      assert LiveAt(history, token, now) ==> token in sessions;
      if token in sessions && SessionValid(sessions[token], now) {
        ghost var c, i := UnsweptHasOrigin(history, token);
        return Some(sessions[token].csrfToken);
      }
      return None;
    }

    /** `validate`: live sessions are told to whom they belong, and slide. */
    method ValidateToken(token: string, now: int) returns (adminId: Option<int>)
      requires Valid() && clock <= now
      modifies this
      ensures Valid() && history == old(history) + [Validate(token, now)] && clock == now
      ensures adminId.Some? <==> LiveAt(old(history), token, now)
      ensures adminId.Some? ==>
                exists c :: CreatedAt(old(history), c, token) && old(history)[c].adminId == adminId.value
      ensures token in sessions <==> adminId.Some?
    {
      BackedLater(sessions, history, clock, now);
      BackedStep(sessions, history, Validate(token, now));
      assert LiveAt(history, token, now) ==> token in sessions;
      if token in sessions && SessionValid(sessions[token], now) {
        ghost var c, i := UnsweptHasOrigin(history, token);
        adminId := Some(sessions[token].adminId);
        sessions := sessions[token := sessions[token].(lastActivity := now)];
      } else {
        adminId := None;
        sessions := Without(sessions, token);
      }
      Note(Validate(token, now));
    }

    method RemoveToken(token: string, now: int)
      requires Valid() && clock <= now
      modifies this
      ensures Valid() && history == old(history) + [Remove(token, now)] && clock == now
      ensures !LiveAt(history, token, now) && token !in sessions
    {
      BackedLater(sessions, history, clock, now);
      BackedStep(sessions, history, Remove(token, now));
      UnsweptSnoc(history, Remove(token, now));
      sessions := Without(sessions, token);
      Note(Remove(token, now));
    }

    /** `sweep_expired`: what is left is what is live, each session as its history
        has it. */
    method SweepExpired(now: int)
      requires Valid() && clock <= now
      modifies this
      ensures Valid() && history == old(history) + [Sweep(now)] && clock == now
      ensures forall t :: t in sessions <==> LiveAt(old(history), t, now)
      ensures forall t :: t in sessions ==> Unswept(old(history), t) == Some(sessions[t])
    {
      BackedLater(sessions, history, clock, now);
      BackedStep(sessions, history, Sweep(now));
      sessions := Swept(sessions, now);
      Note(Sweep(now));
    }
  }

  // Sweeping is invisible

  datatype Run = Run(sessions: Table, answers: seq<Answer>)

  /** The answers of a run's own operations; sweeps answer nothing, and are left
      out altogether when `sweeping` is off. */
  function RunOf(ops: seq<Op>, sweeping: bool): Run {
    if ops == [] then Run(map[], [])
    else
      var before, op := RunOf(ops[..|ops| - 1], sweeping), ops[|ops| - 1];
      if op.Sweep? && !sweeping then before
      else
        var (sessions, answer) := Step(before.sessions, op);
        Run(sessions, if op.Sweep? then before.answers else before.answers + [answer])
  }

  /** The swept table lacks nothing but sessions that have expired by `now`. */
  ghost predicate LacksExpired(swept: Table, full: Table, now: int) {
    && (forall t :: t in swept ==> t in full && full[t] == swept[t])
    && (forall t :: t in full && t !in swept ==> !SessionValid(full[t], now))
  }

  lemma LacksExpiredLater(swept: Table, full: Table, now: int, later: int)
    requires LacksExpired(swept, full, now) && now <= later
    ensures LacksExpired(swept, full, later)
  {
  }

  lemma StepAgrees(swept: Table, full: Table, op: Op)
    requires LacksExpired(swept, full, op.now) && !op.Sweep?
    ensures Step(swept, op).1 == Step(full, op).1
    ensures LacksExpired(Step(swept, op).0, Step(full, op).0, op.now)
  {
  }

  lemma SweepAgrees(swept: Table, full: Table, now: int)
    requires LacksExpired(swept, full, now)
    ensures LacksExpired(Swept(swept, now), full, now)
  {
  }

  lemma {:induction false} SweepingAgrees(ops: seq<Op>, now: int)
    requires InOrder(ops, TimeOf) && (ops != [] ==> ops[|ops| - 1].now <= now)
    ensures RunOf(ops, true).answers == RunOf(ops, false).answers
    ensures LacksExpired(RunOf(ops, true).sessions, RunOf(ops, false).sessions, now)
  {
    if ops != [] {
      var front, op := ops[..|ops| - 1], ops[|ops| - 1];
      SweepingAgrees(front, op.now);
      var swept, full := RunOf(front, true).sessions, RunOf(front, false).sessions;
      if op.Sweep? {
        SweepAgrees(swept, full, op.now);
      } else {
        StepAgrees(swept, full, op);
      }
      LacksExpiredLater(RunOf(ops, true).sessions, RunOf(ops, false).sessions, op.now, now);
    }
  }

  /** Wherever sweeps are inserted in a run, no other operation answers differently. */
  lemma SweepingIsInvisible(ops: seq<Op>)
    requires InOrder(ops, TimeOf)
    ensures RunOf(ops, true).answers == RunOf(ops, false).answers
  {
    SweepingAgrees(ops, if ops == [] then 0 else ops[|ops| - 1].now);
  }
}
