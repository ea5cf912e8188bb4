/** The distinct workout dates in ascending order, which both streak computations
    start from. Progress sorts the workouts, collects their dates into a `Set` and
    sorts again; Dashboard collects the dates into a `Set` and sorts numerically.
    Over day numbers every such pipeline yields the one strictly increasing
    enumeration of the date set (`StrictlyIncreasingUnique`), which is
    `SortedDistinct` here. */
module Days {
  import opened Records

  predicate StrictlyIncreasing(u: seq<int>) {
    forall i, j :: 0 <= i < j < |u| ==> u[i] < u[j]
  }

  /** Inserts `x` into a strictly increasing sequence, leaving it as is when `x` is already there. */
  function Insert(x: int, u: seq<int>): (r: seq<int>)
    requires StrictlyIncreasing(u)
    ensures StrictlyIncreasing(r)
    ensures forall d :: d in r <==> d == x || d in u
    ensures |r| <= |u| + 1
  {
    if u == [] then [x]
    else if x < u[0] then [x] + u
    else if x == u[0] then u
    else
      var rest := Insert(x, u[1..]);
      assert forall d :: d in u[1..] ==> u[0] < d;
      InsertAfterHead(u[0], rest);
      [u[0]] + rest
  }

  /** Putting a value below every element in front keeps a sequence strictly increasing. */
  lemma InsertAfterHead(h: int, rest: seq<int>)
    requires StrictlyIncreasing(rest)
    requires forall d :: d in rest ==> h < d
    ensures StrictlyIncreasing([h] + rest)
  {
    var r := [h] + rest;
    forall i, j | 0 <= i < j < |r|
      ensures r[i] < r[j]
    {
      assert r[j] == rest[j - 1];
      if i > 0 {
        assert r[i] == rest[i - 1];
      } else {
        assert rest[j - 1] in rest;
      }
    }
  }

  /** The distinct elements of `xs`, ascending. */
  function SortedDistinct(xs: seq<int>): (r: seq<int>)
    ensures StrictlyIncreasing(r)
    ensures forall d :: d in r <==> d in xs
    ensures |r| <= |xs|
  {
    if xs == [] then []
    else
      assert xs == xs[..|xs| - 1] + [xs[|xs| - 1]];
      Insert(xs[|xs| - 1], SortedDistinct(xs[..|xs| - 1]))
  }

  /** The distinct dates of a workout list, ascending. */
  function UniqueDays(ws: seq<Workout>): (u: seq<int>)
    ensures StrictlyIncreasing(u)
    ensures forall d :: d in u <==> exists i :: 0 <= i < |ws| && ws[i].date == d
    ensures |u| <= |ws|
    ensures |u| == 0 <==> |ws| == 0
  {
    var u := SortedDistinct(DayNumbers(ws));
    assert |ws| > 0 ==> ws[0].date in DayNumbers(ws);
    u
  }

  /** Two strictly increasing sequences with the same elements are equal: the
      ascending list of distinct dates does not depend on how it was computed. */
  lemma {:induction false} StrictlyIncreasingUnique(a: seq<int>, b: seq<int>)
    requires StrictlyIncreasing(a) && StrictlyIncreasing(b)
    requires forall d :: d in a <==> d in b
    ensures a == b
  {
    assert |a| > 0 ==> a[0] in a && a[0] in b;
    assert |b| > 0 ==> b[0] in b && b[0] in a;
    if a != [] && b != [] {
      assert a[0] == b[0];
      forall d
        ensures d in a[1..] <==> d in b[1..]
      {
        if d in a[1..] {
          assert d in b && d != b[0];
        }
        if d in b[1..] {
          assert d in a && d != a[0];
        }
      }
      StrictlyIncreasingUnique(a[1..], b[1..]);
      assert a == [a[0]] + a[1..];
      assert b == [b[0]] + b[1..];
    }
  }

  /** The distinct dates depend only on the set of dates: neither the order of the
      workouts nor how many fall on one date matters. */
  lemma UniqueDaysDependOnlyOnDates(ws: seq<Workout>, vs: seq<Workout>)
    requires forall d :: d in DayNumbers(ws) <==> d in DayNumbers(vs)
    ensures UniqueDays(ws) == UniqueDays(vs)
  {
    StrictlyIncreasingUnique(UniqueDays(ws), UniqueDays(vs));
  }

  /** Workouts listed in strictly increasing date order have exactly their dates as distinct dates. */
  lemma UniqueDaysOfIncreasing(ws: seq<Workout>)
    requires StrictlyIncreasing(DayNumbers(ws))
    ensures UniqueDays(ws) == DayNumbers(ws)
  {
    forall d
      ensures d in UniqueDays(ws) <==> d in DayNumbers(ws)
    {
      if d in DayNumbers(ws) {
        var i :| 0 <= i < |ws| && DayNumbers(ws)[i] == d;
        assert ws[i].date == d;
      }
    }
    StrictlyIncreasingUnique(UniqueDays(ws), DayNumbers(ws));
  }

  /** A workout on a date already logged leaves the distinct dates unchanged. */
  lemma DuplicateDateIgnored(ws: seq<Workout>, w: Workout)
    requires exists i :: 0 <= i < |ws| && ws[i].date == w.date
    ensures UniqueDays(ws + [w]) == UniqueDays(ws)
  {
    DayNumbersAppend(ws, [w]);
    UniqueDaysDependOnlyOnDates(ws + [w], ws);
  }
}
