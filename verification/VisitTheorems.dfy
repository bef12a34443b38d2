/** Which announcements a session visits. */
module VisitTheorems {
  import opened LineTrace
  import opened Announcements
  import opened AnnouncementTheorems
  import opened Session

  /** The announcements the trace heeds after a moment at rest, in order. */
  lemma AnnouncedSince(log: seq<Op>, longer: seq<Op>) returns (positions: seq<nat>)
    requires log <= longer && AttentionAt(log) == AtRest
    ensures AnnouncedIn(longer) == AnnouncedIn(log) + IndicesAt(longer, positions)
    ensures Ascending(positions, |log|, |longer|)
    ensures forall k :: k in positions <==> |log| <= k < |longer| && Heeds(longer, k)
  {
    positions := HeededSince(log, longer);
    AnnouncedIsAt(log);
    AnnouncedIsAt(longer);
    IndicesConcat(longer, HeededAt(log), positions);
    HeldInRange(log);
    IndicesOfPrefix(log, longer, HeededAt(log));
    var split := HeededInOrder(longer);
    OrderedTail(HeededAt(log), positions, split, |log|, |longer|);
    forall k: nat
      ensures k in positions <==> |log| <= k < |longer| && Heeds(longer, k)
    {
      HeededIsHeeds(longer, k);
      assert forall i :: 0 <= i < |HeededAt(log)| ==> HeededAt(log)[i] < |log|;
    }
  }

  lemma {:induction false} IndicesOfPrefix(log: seq<Op>, longer: seq<Op>, positions: seq<nat>)
    requires log <= longer && forall i :: 0 <= i < |positions| ==> positions[i] < |log|
    ensures IndicesAt(longer, positions) == IndicesAt(log, positions)
  {
    if positions != [] {
      IndicesOfPrefix(log, longer, positions[..|positions| - 1]);
    }
  }

  lemma OrderedTail(a: seq<nat>, b: seq<nat>, split: nat, from: nat, to: nat)
    requires Ascending(a + b, 0, split) && split <= to && forall i :: 0 <= i < |b| ==> b[i] >= from
    ensures Ascending(b, from, to)
  {
    forall i | 0 <= i < |b|
      ensures b[i] < to
    {
      assert (a + b)[|a| + i] == b[i];
    }
    forall i, j | 0 <= i < j < |b|
      ensures b[i] < b[j]
    {
      assert (a + b)[|a| + i] == b[i] && (a + b)[|a| + j] == b[j];
    }
  }

  /** In a session the announcement received at position `k` of the trace is due a visit
      exactly when it was polled at rest or stands in a completed answer to a read, a
      delete or a raw command. The visits are of those announcements, in order and
      one for each, and of all of them if the channel closed. */
  lemma VisitedExactlyHeeded(r: SessionRecord, max: nat) returns (positions: seq<nat>)
    requires Faithful(r, max)
    ensures Ascending(positions, |r.start.log|, |r.end.log|)
    ensures forall k :: k in positions
              <==> |r.start.log| <= k < |r.end.log| && Heeds(r.end.log, k) && Announced(LineAt(r.end.log, k)) != []
    ensures |r.visits| <= |positions| && (r.outcome == ChannelClosed ==> |r.visits| == |positions|)
    ensures forall j :: 0 <= j < |r.visits| ==> Announced(LineAt(r.end.log, positions[j])) == [r.visits[j].visit.index]
  {
    var log := r.end.log;
    var heeded := AnnouncedSince(r.start.log, log);
    positions := Announcing(log, heeded);
    AnnouncingOrdered(log, heeded, |r.start.log|, |log|);
    AnnouncingMatches(log, heeded);
    IndicesVisited(r.visits);
    PrefixAfter(AnnouncedIn(r.start.log), IndicesOf(r.visits), IndicesAt(log, heeded));
    forall k: nat
      ensures k in positions <==> |r.start.log| <= k < |log| && Heeds(log, k) && Announced(LineAt(log, k)) != []
    {
      AnnouncingMembers(log, heeded, k);
    }
  }

  lemma PrefixAfter(before: seq<nat>, a: seq<nat>, b: seq<nat>)
    requires before + a <= before + b
    ensures a <= b
    ensures before + a == before + b ==> a == b
  {
    assert (before + b)[|before|..] == b && (before + a)[|before|..] == a;
    assert forall i :: 0 <= i < |a| ==> (before + a)[|before| + i] == a[i] && (before + b)[|before| + i] == b[i];
  }

  lemma {:induction false} IndicesVisited(visits: seq<VisitAt>)
    ensures |IndicesOf(visits)| == |visits|
    ensures forall j :: 0 <= j < |visits| ==> IndicesOf(visits)[j] == visits[j].visit.index
  {
    if visits != [] {
      IndicesVisited(visits[..|visits| - 1]);
    }
  }
}
