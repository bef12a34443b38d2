/** Greedy splitting of a text into parts of bounded weight, for any
    per-character cost, and the proof that no other split needs fewer parts. */
module Greedy {
  import opened Text

  function Weight(s: string, cost: char -> nat): nat {
    if s == "" then 0 else Weight(s[..|s| - 1], cost) + cost(s[|s| - 1])
  }

  lemma {:induction false} WeightConcat(a: string, b: string, cost: char -> nat)
    ensures Weight(a + b, cost) == Weight(a, cost) + Weight(b, cost)
  {
    if b == "" {
      assert a + b == a;
    } else {
      assert (a + b)[..|a + b| - 1] == a + b[..|b| - 1];
      WeightConcat(a, b[..|b| - 1], cost);
    }
  }

  lemma WeightSplit(s: string, m: nat, cost: char -> nat)
    requires m <= |s|
    ensures Weight(s, cost) == Weight(s[..m], cost) + Weight(s[m..], cost)
  {
    WeightConcat(s[..m], s[m..], cost);
    Rejoin(s, m);
  }

  lemma WeightMore(s: string, m: nat, cost: char -> nat)
    requires m < |s|
    ensures Weight(s[..m + 1], cost) == Weight(s[..m], cost) + cost(s[m])
  {
    SliceAgain(s, m, m + 1);
  }

  /** A slice weighs at most what the text does. */
  lemma WeightSlice(s: string, i: nat, j: nat, cost: char -> nat)
    requires i <= j <= |s|
    ensures Weight(s[i..j], cost) <= Weight(s, cost)
  {
    WeightSplit(s, i, cost);
    WeightSplit(s[i..], j - i, cost);
    SliceAgain(s, i, j);
  }

  /** Every single character fits a part. */
  ghost predicate Bounded(cost: char -> nat, max: nat) {
    forall c :: cost(c) <= max
  }

  /** `m` characters of `s` fit one part, and one more would not. */
  ghost predicate Fills(s: string, m: nat, cost: char -> nat, max: nat) {
    && m <= |s|
    && Weight(s[..m], cost) <= max
    && (m < |s| ==> Weight(s[..m + 1], cost) > max)
  }

  function FillFrom(s: string, n: nat, cost: char -> nat, max: nat): (m: nat)
    requires n <= |s| && Weight(s[..n], cost) <= max
    ensures n <= m && Fills(s, m, cost, max)
    decreases |s| - n
  {
    if n < |s| && Weight(s[..n + 1], cost) <= max then FillFrom(s, n + 1, cost, max) else n
  }

  /** The length of the longest prefix that fits one part. */
  function Fill(s: string, cost: char -> nat, max: nat): (m: nat)
    requires Bounded(cost, max)
    ensures Fills(s, m, cost, max)
    ensures s != "" ==> m > 0
  {
    var m := FillFrom(s, 0, cost, max);
    assert s != "" ==> Weight(s[..1], cost) == cost(s[0]) by {
      if s != "" {
        assert s[..1][..0] == "";
      }
    }
    m
  }

  /** A prefix that fits is never longer than one that fills. */
  lemma FillsBounds(s: string, a: nat, m: nat, cost: char -> nat, max: nat)
    requires Fills(s, m, cost, max)
    requires a <= |s| && Weight(s[..a], cost) <= max
    ensures a <= m
  {
    if m < a {
      assert s[..a][0..m + 1] == s[..m + 1];
      WeightSlice(s[..a], 0, m + 1, cost);
    }
  }

  function Parts(s: string, cost: char -> nat, max: nat): seq<string>
    requires Bounded(cost, max)
    decreases |s|
  {
    if s == "" then []
    else var m := Fill(s, cost, max); [s[..m]] + Parts(s[m..], cost, max)
  }

  function Concat(parts: seq<string>): string {
    if parts == [] then "" else parts[0] + Concat(parts[1..])
  }

  lemma ConcatOne(s: string)
    ensures Concat([s]) == s
  {
    assert [s][1..] == [] && s + "" == s;
  }

  ghost predicate Fit(parts: seq<string>, cost: char -> nat, max: nat) {
    forall i :: 0 <= i < |parts| ==> Weight(parts[i], cost) <= max
  }

  /** Any way of cutting `s` at character boundaries into parts that fit. */
  ghost predicate Split(parts: seq<string>, s: string, cost: char -> nat, max: nat) {
    Concat(parts) == s && Fit(parts, cost, max)
  }

  lemma {:induction false} PartsSplit(s: string, cost: char -> nat, max: nat)
    requires Bounded(cost, max)
    ensures Split(Parts(s, cost, max), s, cost, max)
    decreases |s|
  {
    if s != "" {
      var m := Fill(s, cost, max);
      var rest := Parts(s[m..], cost, max);
      PartsSplit(s[m..], cost, max);
      assert ([s[..m]] + rest)[1..] == rest;
      assert s[..m] + s[m..] == s;
    }
  }

  lemma {:induction false} PartsNonEmpty(s: string, i: nat, cost: char -> nat, max: nat)
    requires Bounded(cost, max) && i < |Parts(s, cost, max)|
    ensures Parts(s, cost, max)[i] != ""
    decreases |s|
  {
    if i > 0 {
      PartsNonEmpty(s[Fill(s, cost, max)..], i - 1, cost, max);
    }
  }

  /** A part begun inside the first greedy one reaches at least as far. */
  lemma LaterFill(s: string, k: nat, cost: char -> nat, max: nat) returns (m: nat)
    requires Bounded(cost, max) && k < Fill(s, cost, max)
    ensures m == k + Fill(s[k..], cost, max) <= |s| && m >= Fill(s, cost, max)
    ensures s[Fill(s, cost, max)..][m - Fill(s, cost, max)..] == s[k..][m - k..]
  {
    var n := Fill(s, cost, max);
    m := k + Fill(s[k..], cost, max);
    SliceAgain(s, k, n);
    WeightSplit(s[..n], k, cost);
    FillsBounds(s[k..], n - k, m - k, cost, max);
    SliceAgain(s, n, m);
    SliceAgain(s, k, m);
  }

  /** Dropping a prefix never makes the greedy split longer. */
  lemma {:induction false} PartsMonotone(s: string, k: nat, cost: char -> nat, max: nat)
    requires Bounded(cost, max) && k <= |s|
    ensures |Parts(s[k..], cost, max)| <= |Parts(s, cost, max)|
    decreases |s|
  {
    if k == 0 {
      assert s[k..] == s;
    } else if k < |s| {
      var n := Fill(s, cost, max);
      if k >= n {
        SliceAgain(s, n, k);
        PartsMonotone(s[n..], k - n, cost, max);
      } else {
        var m := LaterFill(s, k, cost, max);
        PartsMonotone(s[n..], m - n, cost, max);
      }
    }
  }

  lemma SplitTail(parts: seq<string>, s: string, cost: char -> nat, max: nat)
    requires Split(parts, s, cost, max) && s != ""
    ensures parts != [] && |parts[0]| <= |s| && Weight(s[..|parts[0]|], cost) <= max
    ensures Split(parts[1..], s[|parts[0]|..], cost, max)
  {
    var head, tail := parts[0], Concat(parts[1..]);
    assert s == head + tail;
    assert s[..|head|] == head;
    assert s[|head|..] == tail;
  }

  /** Any first part that fits leaves at least as much to be cut as the greedy one. */
  lemma PartsAfter(s: string, a: nat, cost: char -> nat, max: nat)
    requires Bounded(cost, max) && s != "" && a <= |s| && Weight(s[..a], cost) <= max
    ensures |Parts(s, cost, max)| <= 1 + |Parts(s[a..], cost, max)|
  {
    var n := Fill(s, cost, max);
    FillsBounds(s, a, n, cost, max);
    PartsMonotone(s[a..], n - a, cost, max);
    SliceAgain(s, a, n);
  }

  /** Greedy is optimal: no split of `s` into fitting parts has fewer of them. */
  lemma {:induction false} PartsLeast(s: string, parts: seq<string>, cost: char -> nat, max: nat)
    requires Bounded(cost, max) && Split(parts, s, cost, max)
    ensures |Parts(s, cost, max)| <= |parts|
    decreases |parts|
  {
    if s != "" {
      SplitTail(parts, s, cost, max);
      PartsAfter(s, |parts[0]|, cost, max);
      PartsLeast(s[|parts[0]|..], parts[1..], cost, max);
    }
  }

  /** `n` is the least number of fitting parts `s` can be cut into. */
  ghost predicate Least(n: nat, s: string, cost: char -> nat, max: nat) {
    && (exists parts :: Split(parts, s, cost, max) && |parts| == n)
    && (forall parts :: Split(parts, s, cost, max) ==> n <= |parts|)
  }

  lemma PartsAreLeast(s: string, n: nat, cost: char -> nat, max: nat)
    requires Bounded(cost, max)
    ensures Least(n, s, cost, max) <==> n == |Parts(s, cost, max)|
  {
    PartsSplit(s, cost, max);
    forall parts | Split(parts, s, cost, max)
      ensures |Parts(s, cost, max)| <= |parts|
    {
      PartsLeast(s, parts, cost, max);
    }
  }

  /** The cut a left-to-right scan makes once the next character no longer fits. */
  lemma Cut(s: string, start: nat, i: nat, cost: char -> nat, max: nat)
    requires Bounded(cost, max) && start < i <= |s|
    requires Weight(s[start..i], cost) <= max
    requires i < |s| ==> Weight(s[start..i + 1], cost) > max
    ensures Parts(s[start..], cost, max) == [s[start..i]] + Parts(s[i..], cost, max)
  {
    var t, m := s[start..], i - start;
    assert t[..m] == s[start..i] && t[m..] == s[i..];
    if i < |s| {
      assert t[..m + 1] == s[start..i + 1];
    }
    FillsBounds(t, Fill(t, cost, max), m, cost, max);
    FillsBounds(t, m, Fill(t, cost, max), cost, max);
  }

  lemma NoMore(m: nat, n: nat, max: nat)
    requires m <= n
    ensures m * max <= n * max
  {
  }

  lemma OneMore(n: nat, max: nat)
    ensures (n + 1) * max == n * max + max
  {
  }

  lemma {:induction false} ConcatWeight(parts: seq<string>, cost: char -> nat, max: nat)
    requires Fit(parts, cost, max)
    ensures Weight(Concat(parts), cost) <= |parts| * max
  {
    if parts != [] {
      var rest := parts[1..];
      ConcatWeight(rest, cost, max);
      WeightConcat(parts[0], Concat(rest), cost);
      assert Weight(parts[0], cost) <= max;
      OneMore(|rest|, max);
    }
  }

  lemma {:induction false} UniformWeight(s: string, n: nat, cost: char -> nat)
    requires forall i :: 0 <= i < |s| ==> cost(s[i]) == n
    ensures Weight(s, cost) == n * |s|
  {
    if s != "" {
      UniformWeight(s[..|s| - 1], n, cost);
    }
  }

  // How many parts, from weights alone

  /** How heavy the greedy first part is when it is not the last. */
  lemma FirstPart(s: string, cost: char -> nat, max: nat)
    requires Bounded(cost, max) && (forall i :: 0 <= i < |s| ==> cost(s[i]) <= 2)
    ensures var m := Fill(s, cost, max);
              m < |s| ==> Weight(s[..m], cost) >= max - 1 && Weight(s, cost) >= max + 1
  {
    var m := Fill(s, cost, max);
    if m < |s| {
      WeightMore(s, m, cost);
      WeightSplit(s, m + 1, cost);
    }
  }

  /** More than `k` parts weigh `k` parts that miss a unit each, and two units over. */
  lemma {:induction false} PartsWeigh(s: string, k: nat, cost: char -> nat, max: nat)
    requires Bounded(cost, max) && (forall i :: 0 <= i < |s| ==> cost(s[i]) <= 2) && max >= 1
    requires k >= 1 && |Parts(s, cost, max)| > k
    ensures Weight(s, cost) >= k * (max - 1) + 2
    decreases k
  {
    var m := Fill(s, cost, max);
    FirstPart(s, cost, max);
    if k > 1 {
      WeightSplit(s, m, cost);
      PartsWeigh(s[m..], k - 1, cost, max);
      OneMore(k - 1, max - 1);
    }
  }

  /** A text of characters that cost the same fills parts evenly. */
  lemma UniformFill(s: string, u: nat, cost: char -> nat, max: nat)
    requires Bounded(cost, max) && 1 <= u <= 2 && (forall i :: 0 <= i < |s| ==> cost(s[i]) == u)
    ensures Fill(s, cost, max) == if |s| <= max / u then |s| else max / u
  {
    var m := Fill(s, cost, max);
    UniformWeight(s[..m], u, cost);
    if m < |s| {
      UniformWeight(s[..m + 1], u, cost);
    }
  }

  lemma {:induction false} UniformParts(s: string, k: nat, n: nat, u: nat, cost: char -> nat, max: nat)
    requires Bounded(cost, max) && 1 <= u <= 2 && (forall i :: 0 <= i < |s| ==> cost(s[i]) == u) && n == max / u
    ensures |Parts(s, cost, max)| > k <==> |s| > k * n
    decreases k
  {
    if s != "" && k > 0 {
      UniformFill(s, u, cost, max);
      var rest := s[Fill(s, cost, max)..];
      UniformParts(rest, k - 1, n, u, cost, max);
      OneMore(k - 1, n);
      NoMore(0, k - 1, n);
    }
  }
}
