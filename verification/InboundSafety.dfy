/** No inbound message is lost: over any run, whatever left the modem's storage had
    been written to the database first. */
module InboundSafety {
  import opened Text
  import opened Cmgr
  import opened LineTrace
  import opened Inbound
  import opened LineSafety
  import opened ModemSafety

  type Sim = map<nat, ParsedInbound>

  /** What is assumed of the modem at one step: it forgets a message only when the bytes
      it is sent ask it to delete that index, and what it answers a read with is
      what it holds at the index it was asked for, again by the bytes it was sent. New
      messages may arrive at any time. */
  predicate HonestStep(op: Op, asked: Option<nat>, before: Phase, after: Phase, sim: Sim, sim': Sim) {
    && (forall i :: i in sim && DeletedIndex(op) != Some(i) ==> i in sim' && sim'[i] == sim[i])
    && (before.Reading? && after.Fetched? && asked.Some? ==> asked.value in sim' && sim'[asked.value] == after.message)
  }

  ghost predicate Honest(log: seq<Op>, sims: seq<Sim>) {
    && |sims| == |log| + 1
    && forall k :: 0 <= k < |log| ==> HonestAt(log, k, sims[k], sims[k + 1])
  }

  ghost predicate HonestAt(log: seq<Op>, k: nat, sim: Sim, sim': Sim)
    requires k < |log|
  {
    HonestStep(log[k], AskedFor(log[..k]), MonitorAt(log, k).inbound.phase, MonitorAt(log, k + 1).inbound.phase, sim,
        sim')
  }

  /** What one step took from the modem's storage. */
  function Gone(op: Op, sim: Sim, sim': Sim): multiset<Saved> {
    match DeletedIndex(op)
    case Some(i) => if i in sim && !(i in sim' && sim'[i] == sim[i]) then multiset{Saved(i, sim[i])} else multiset{}
    case None => multiset{}
  }

  /** What all steps so far took. */
  ghost function Removed(log: seq<Op>, sims: seq<Sim>, n: nat): multiset<Saved>
    requires |sims| == |log| + 1 && n <= |log|
  {
    if n == 0 then multiset{} else Removed(log, sims, n - 1) + Gone(log[n - 1], sims[n - 1], sims[n])
  }

  /** A stored message not yet deleted. */
  function Undeleted(phase: Phase): multiset<Saved> {
    if phase.Persisted? then multiset{Saved(phase.index, phase.message)} else multiset{}
  }

  /** The message in hand is still on the modem. */
  predicate InHand(phase: Phase, sim: Sim) {
    phase.Fetched? || phase.Persisted? ==> phase.index in sim && sim[phase.index] == phase.message
  }

  lemma InHandStep(s: InboundState, op: Op, asked: Option<nat>, sim: Sim, sim': Sim)
    requires InHand(s.phase, sim) && HonestStep(op, asked, s.phase, InboundStep(s, op).phase, sim, sim')
    requires OpAllowed(op) && (s.phase.Reading? ==> asked == Some(s.phase.index))
    ensures InHand(InboundStep(s, op).phase, sim')
  {
    DeletedIs(op);
  }

  lemma StoreStep(s: InboundState, message: ParsedInbound)
    requires s.phase.Fetched? && s.phase.message == message
    ensures var s' := InboundStep(s, Stored(message));
              multiset(s'.stored) == multiset(s.stored) + Undeleted(s'.phase)
  {
  }

  /** Without a store, what is taken was stored and not yet deleted. */
  lemma TakeStep(s: InboundState, op: Op, asked: Option<nat>, sim: Sim, sim': Sim)
    requires InHand(s.phase, sim) && HonestStep(op, asked, s.phase, InboundStep(s, op).phase, sim, sim')
    requires OpAllowed(op) && !InboundStep(s, op).unsafe && !op.Stored?
    ensures InboundStep(s, op).stored == s.stored
    ensures Gone(op, sim, sim') + Undeleted(InboundStep(s, op).phase) <= Undeleted(s.phase)
  {
    DeletedIs(op);
    if DeletedIndex(op).Some? {
      assert s.phase.Persisted? && s.phase.index == DeletedIndex(op).value;
      assert InboundStep(s, op).phase == Free;
    } else {
      var phase := InboundStep(s, op).phase;
      assert phase.Persisted? ==> phase == s.phase;
    }
  }

  lemma AccountStep(s: InboundState, op: Op, asked: Option<nat>, sim: Sim, sim': Sim, removed: multiset<Saved>)
    requires InHand(s.phase, sim) && HonestStep(op, asked, s.phase, InboundStep(s, op).phase, sim, sim')
    requires OpAllowed(op) && !InboundStep(s, op).unsafe
    requires removed + Undeleted(s.phase) <= multiset(s.stored)
    ensures removed + Gone(op, sim, sim') + Undeleted(InboundStep(s, op).phase) <= multiset(InboundStep(s, op).stored)
  {
    match op
    case Stored(message) => StoreStep(s, message);
    case _ => TakeStep(s, op, asked, sim, sim');
  }

  /** Every message that left the modem is in the database, one row for each. */
  lemma {:induction false} RemovedWasStored(log: seq<Op>, sims: seq<Sim>, n: nat)
    requires Clean(Observe(START, log)) && AllAllowed(log) && Honest(log, sims) && n <= |log|
    ensures InHand(MonitorAt(log, n).inbound.phase, sims[n])
    ensures Removed(log, sims, n) + Undeleted(MonitorAt(log, n).inbound.phase)
              <= multiset(MonitorAt(log, n).inbound.stored)
  {
    if n > 0 {
      RemovedWasStored(log, sims, n - 1);
      CleanBefore(log, n);
      Advance(log, n - 1);
      AllowedAt(log, n - 1);
      AllowedBefore(log[..n - 1], log);
      ReadingIsAsked(log[..n - 1]);
      assert HonestAt(log, n - 1, sims[n - 1], sims[n]);
      OneMoreRemoved(MonitorAt(log, n - 1).inbound, log[n - 1], AskedFor(log[..n - 1]), sims[n - 1], sims[n],
                     Removed(log, sims, n - 1));
    }
  }

  lemma OneMoreRemoved(s: InboundState, op: Op, asked: Option<nat>, sim: Sim, sim': Sim, removed: multiset<Saved>)
    requires InHand(s.phase, sim) && HonestStep(op, asked, s.phase, InboundStep(s, op).phase, sim, sim')
    requires OpAllowed(op) && !InboundStep(s, op).unsafe && (s.phase.Reading? ==> asked == Some(s.phase.index))
    requires removed + Undeleted(s.phase) <= multiset(s.stored)
    ensures InHand(InboundStep(s, op).phase, sim')
    ensures removed + Gone(op, sim, sim') + Undeleted(InboundStep(s, op).phase) <= multiset(InboundStep(s, op).stored)
  {
    InHandStep(s, op, asked, sim, sim');
    AccountStep(s, op, asked, sim, sim', removed);
  }

  lemma KeptOrGone(log: seq<Op>, k: nat, sim: Sim, sim': Sim, index: nat)
    requires k < |log| && HonestAt(log, k, sim, sim') && index in sim
    ensures (index in sim' && sim'[index] == sim[index]) || Saved(index, sim[index]) in Gone(log[k], sim, sim')
  {
  }

  lemma {:induction false} HeldOrRemoved(log: seq<Op>, sims: seq<Sim>, k: nat, n: nat, index: nat)
    requires Honest(log, sims) && k <= n <= |log| && index in sims[k]
    ensures || (index in sims[n] && sims[n][index] == sims[k][index])
            || Saved(index, sims[k][index]) in Removed(log, sims, n)
    decreases n
  {
    if k < n {
      HeldOrRemoved(log, sims, k, n - 1, index);
      if index in sims[n - 1] {
        KeptOrGone(log, n - 1, sims[n - 1], sims[n], index);
      }
    }
  }

  lemma {:induction false} StoredIsARow(stored: seq<Saved>, saved: Saved)
    requires saved in stored
    ensures saved.message in Messages(stored)
  {
    if saved != stored[|stored| - 1] {
      StoredIsARow(stored[..|stored| - 1], saved);
    }
  }

  /** At every moment of a faultless run, whatever fails in it, a message that was
      ever on the modem is still there, unchanged, or among the messages stored. */
  lemma NoInboundLoss(log: seq<Op>, sims: seq<Sim>, k: nat, n: nat, index: nat)
    requires Clean(Observe(START, log)) && AllAllowed(log) && Honest(log, sims) && k <= n <= |log| && index in sims[k]
    ensures || (index in sims[n] && sims[n][index] == sims[k][index])
            || sims[k][index] in Messages(MonitorAt(log, n).inbound.stored)
  {
    HeldOrRemoved(log, sims, k, n, index);
    RemovedWasStored(log, sims, n);
    var stored, saved := MonitorAt(log, n).inbound.stored, Saved(index, sims[k][index]);
    if saved in Removed(log, sims, n) {
      assert saved in multiset(stored);
      StoredIsARow(stored, saved);
    }
  }
}
