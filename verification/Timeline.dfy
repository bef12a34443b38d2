/** Counting the events of a timeline that fall in an interval. */
module Timeline {

  /** In nanoseconds. */
  const SECOND: nat := 1_000_000_000

  /** How many of `s` fall in the closed interval from `lo` to `hi`. */
  function CountIn(s: seq<int>, lo: int, hi: int): nat {
    if s == [] then 0
    else
      var last := s[|s| - 1];
      CountIn(s[..|s| - 1], lo, hi) + if lo <= last <= hi then 1 else 0
  }

  ghost predicate Sorted(s: seq<int>) {
    forall i, j :: 0 <= i <= j < |s| ==> s[i] <= s[j]
  }

  lemma {:induction false} CountSuffix(s: seq<int>, k: nat, lo: int, hi: int)
    requires Sorted(s) && (forall i :: 0 <= i < |s| ==> s[i] <= hi)
    ensures CountIn(s, lo, hi) >= k <==> k == 0 || (k <= |s| && s[|s| - k] >= lo)
  {
    if s != [] {
      var front := s[..|s| - 1];
      CountSuffix(front, if k > 0 && s[|s| - 1] >= lo then k - 1 else k, lo, hi);
    }
  }

  /** Within an ordered list, a count is reached exactly by a run of neighbours. */
  lemma {:induction false} CountRun(s: seq<int>, k: nat, lo: int, hi: int) returns (i: nat)
    requires Sorted(s) && k >= 1 && CountIn(s, lo, hi) >= k
    ensures i + k <= |s| && s[i] >= lo && s[i + k - 1] <= hi
  {
    if s[|s| - 1] > hi {
      i := CountRun(s[..|s| - 1], k, lo, hi);
    } else {
      CountSuffix(s, k, lo, hi);
      i := |s| - k;
    }
  }

  lemma {:induction false} CountPrefix(s: seq<int>, m: nat, lo: int, hi: int)
    requires m <= |s|
    ensures CountIn(s[..m], lo, hi) <= CountIn(s, lo, hi)
    ensures (forall j :: m <= j < |s| ==> s[j] > hi) ==> CountIn(s[..m], lo, hi) == CountIn(s, lo, hi)
    decreases |s|
  {
    if m < |s| {
      var front := s[..|s| - 1];
      assert front[..m] == s[..m];
      CountPrefix(front, m, lo, hi);
    } else {
      assert s[..m] == s;
    }
  }

  /** Things that happen at non-decreasing times. */
  ghost predicate InOrder<T>(things: seq<T>, time: T -> int) {
    forall i, j :: 0 <= i <= j < |things| ==> time(things[i]) <= time(things[j])
  }
}
