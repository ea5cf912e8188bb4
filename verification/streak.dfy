/** Runs of consecutive days over a strictly increasing list of day numbers, and
    the three loops the views use to measure them: Progress's backward walk for
    the current streak, Progress's forward scan for the longest streak, and
    Dashboard's backward walk. Each loop is a function that takes one iteration
    per call; the lemmas are the loop invariants. */
module Streak {

  function Max(a: nat, b: nat): nat {
    if a < b then b else a
  }

  /** The dates at `k - 1` and `k` are one calendar day apart. */
  predicate OneDayStep(u: seq<int>, k: int)
    requires 0 < k < |u|
  {
    u[k] - u[k - 1] == 1
  }

  /** `u[lo..hi]` is a run of consecutive days. */
  predicate Consecutive(u: seq<int>, lo: int, hi: int)
    requires 0 <= lo <= hi <= |u|
  {
    forall k :: lo < k < hi ==> OneDayStep(u, k)
  }

  /** `len` is the length of the longest run of consecutive days that ends at index `i`. */
  predicate MaximalRunEndingAt(u: seq<int>, i: int, len: int) {
    && 0 <= i < |u|
    && 1 <= len <= i + 1
    && Consecutive(u, i + 1 - len, i + 1)
    && (len == i + 1 || !OneDayStep(u, i + 1 - len))
  }

  /** `len` is the longest streak among the first `n` dates: no run of two or more
      days is longer, and it is the length of such a run, or 0 when there is none. */
  ghost predicate LongestRunIn(u: seq<int>, n: int, len: int)
    requires 0 <= n <= |u|
  {
    && (forall lo, hi :: 0 <= lo < hi <= n && 2 <= hi - lo && Consecutive(u, lo, hi) ==> hi - lo <= len)
    && (len == 0 || (2 <= len && exists lo, hi :: 0 <= lo < hi <= n && hi - lo == len && Consecutive(u, lo, hi)))
  }

  /** The backward loop of Progress's current streak: `i` is the loop index and
      `temp` the count so far. The first iteration sets the count to 1; each later
      one adds 1 on a one-day step and stops at the first gap. */
  function ProgressBackward(u: seq<int>, i: int, temp: nat): nat
    requires -1 <= i < |u|
    decreases i + 1
  {
    if i < 0 then temp
    else if i == |u| - 1 then ProgressBackward(u, i - 1, 1)
    else if OneDayStep(u, i + 1) then ProgressBackward(u, i - 1, temp + 1)
    else temp
  }

  /** The forward loop of Progress's longest streak: `temp` is the run ending at
      `i`; the longest streak is updated only when a one-day step extends a run. */
  function LongestForward(u: seq<int>, i: int, temp: nat, longest: nat): nat
    requires 0 <= i < |u|
    decreases |u| - i
  {
    if i >= |u| - 1 then longest
    else if OneDayStep(u, i + 1) then LongestForward(u, i + 1, temp + 1, Max(longest, temp + 1))
    else LongestForward(u, i + 1, 1, longest)
  }

  /** The backward loop of Dashboard's streak: counts one-day steps from index `i`
      down to 1 and tracks their maximum; the anchor date is added afterwards. */
  function DashboardBackward(u: seq<int>, i: int, current: nat, best: nat): (nat, nat)
    requires 0 <= i < |u|
    decreases i
  {
    if i <= 0 then (current, best)
    else if OneDayStep(u, i) then DashboardBackward(u, i - 1, current + 1, Max(best, current + 1))
    else (current, best)
  }

  /** A run ending at `i` cannot start before the maximal run ending there. */
  lemma RunStartsWithinMaximal(u: seq<int>, i: int, len: int, lo: int)
    requires MaximalRunEndingAt(u, i, len)
    requires 0 <= lo <= i && Consecutive(u, lo, i + 1)
    ensures i + 1 - len <= lo
  {
  }

  /** There is only one maximal run ending at a given index. */
  lemma MaximalRunUnique(u: seq<int>, i: int, a: int, b: int)
    requires MaximalRunEndingAt(u, i, a) && MaximalRunEndingAt(u, i, b)
    ensures a == b
  {
    RunStartsWithinMaximal(u, i, a, i + 1 - b);
    RunStartsWithinMaximal(u, i, b, i + 1 - a);
  }

  /** Progress's backward walk, started at the last date with count 0, measures
      the maximal run ending at the last date. */
  lemma {:induction false} ProgressBackwardMeasuresTrailingRun(u: seq<int>, i: int, temp: nat)
    requires 0 < |u| && -1 <= i < |u|
    requires temp == |u| - 1 - i
    requires Consecutive(u, i + 1, |u|)
    ensures MaximalRunEndingAt(u, |u| - 1, ProgressBackward(u, i, temp))
    decreases i + 1
  {
    if i < 0 {
    } else if i == |u| - 1 {
      ProgressBackwardMeasuresTrailingRun(u, i - 1, 1);
    } else if OneDayStep(u, i + 1) {
      assert Consecutive(u, i, |u|);
      ProgressBackwardMeasuresTrailingRun(u, i - 1, temp + 1);
    }
  }

  /** Dashboard's backward walk counts the steps of the maximal run ending at the
      last date, and its running maximum never exceeds its count. */
  lemma {:induction false} DashboardBackwardMeasuresTrailingRun(u: seq<int>, i: int, current: nat, best: nat)
    requires 0 <= i < |u|
    requires current == |u| - 1 - i && best <= current
    requires Consecutive(u, i, |u|)
    ensures DashboardBackward(u, i, current, best).1 <= DashboardBackward(u, i, current, best).0
    ensures MaximalRunEndingAt(u, |u| - 1, DashboardBackward(u, i, current, best).0 + 1)
    decreases i
  {
    if i > 0 && OneDayStep(u, i) {
      assert Consecutive(u, i - 1, |u|);
      DashboardBackwardMeasuresTrailingRun(u, i - 1, current + 1, Max(best, current + 1));
    }
  }

  /** One iteration of the forward scan keeps its invariant: `temp` is the maximal
      run ending at the current index and `longest` the longest streak so far. */
  lemma LongestForwardStep(u: seq<int>, i: int, temp: nat, longest: nat)
    requires 0 <= i < |u| - 1
    requires MaximalRunEndingAt(u, i, temp)
    requires LongestRunIn(u, i + 1, longest)
    ensures OneDayStep(u, i + 1) ==>
      MaximalRunEndingAt(u, i + 1, temp + 1) && LongestRunIn(u, i + 2, Max(longest, temp + 1))
    ensures !OneDayStep(u, i + 1) ==>
      MaximalRunEndingAt(u, i + 1, 1) && LongestRunIn(u, i + 2, longest)
  {
    if OneDayStep(u, i + 1) {
      var L := Max(longest, temp + 1);
      assert Consecutive(u, i + 1 - temp, i + 2);
      forall lo, hi | 0 <= lo < hi <= i + 2 && 2 <= hi - lo && Consecutive(u, lo, hi)
        ensures hi - lo <= L
      {
        if hi == i + 2 {
          assert Consecutive(u, lo, i + 1);
          RunStartsWithinMaximal(u, i, temp, lo);
        }
      }
      if L == temp + 1 {
        assert i + 2 - (i + 1 - temp) == L;
      }
    } else {
      forall lo, hi | 0 <= lo < hi <= i + 2 && 2 <= hi - lo && Consecutive(u, lo, hi)
        ensures hi - lo <= longest
      {
      }
    }
  }

  /** The forward scan, from any state satisfying its invariant, ends with the
      longest streak of the whole list. */
  lemma {:induction false} LongestForwardMeasuresLongestRun(u: seq<int>, i: int, temp: nat, longest: nat)
    requires 0 <= i < |u|
    requires MaximalRunEndingAt(u, i, temp)
    requires LongestRunIn(u, i + 1, longest)
    ensures LongestRunIn(u, |u|, LongestForward(u, i, temp, longest))
    decreases |u| - i
  {
    if i < |u| - 1 {
      LongestForwardStep(u, i, temp, longest);
      if OneDayStep(u, i + 1) {
        LongestForwardMeasuresLongestRun(u, i + 1, temp + 1, Max(longest, temp + 1));
      } else {
        LongestForwardMeasuresLongestRun(u, i + 1, 1, longest);
      }
    }
  }

  /** The longest streak is 0 exactly when no two dates are one day apart. */
  lemma LongestZeroIffNoStep(u: seq<int>, len: int)
    requires LongestRunIn(u, |u|, len)
    ensures len == 0 <==> forall k :: 0 < k < |u| ==> !OneDayStep(u, k)
  {
    if len != 0 {
      var lo, hi :| 0 <= lo < hi <= |u| && hi - lo == len && Consecutive(u, lo, hi);
      assert OneDayStep(u, lo + 1);
    } else {
      forall k | 0 < k < |u|
        ensures !OneDayStep(u, k)
      {
        if OneDayStep(u, k) {
          assert Consecutive(u, k - 1, k + 1);
        }
      }
    }
  }

  /** A maximal run of two or more days is no longer than the longest streak. */
  lemma TrailingRunAtMostLongest(u: seq<int>, len: int, longest: int)
    requires MaximalRunEndingAt(u, |u| - 1, len)
    requires LongestRunIn(u, |u|, longest)
    ensures 2 <= len ==> len <= longest
  {
    assert Consecutive(u, |u| - len, |u|);
  }
}
