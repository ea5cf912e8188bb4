/** Group-by-date, the `reduce` into an object keyed by date that both chart
    views run: one row per distinct date, in the order dates are first seen, each
    row summing its date's calories and minutes. `Object.values` lists the rows in
    key insertion order. */
module Grouping {
  import opened Records

  datatype DayRow = DayRow(date: int, calories: int, duration: int)

  /** The distinct elements of `xs` in order of first occurrence: the iteration
      order of a `Set` built from `xs`, or of object keys inserted from it. */
  function FirstSeen(xs: seq<int>): (r: seq<int>)
    ensures forall d :: d in r <==> d in xs
    ensures forall i, j :: 0 <= i < j < |r| ==> r[i] != r[j]
    ensures |r| <= |xs|
  {
    if xs == [] then []
    else
      var p := FirstSeen(xs[..|xs| - 1]);
      assert xs == xs[..|xs| - 1] + [xs[|xs| - 1]];
      if xs[|xs| - 1] in p then p else p + [xs[|xs| - 1]]
  }

  /** The index at which `d` first occurs in `xs`. */
  function FirstIndex(xs: seq<int>, d: int): (r: nat)
    requires d in xs
    ensures r < |xs| && xs[r] == d
    ensures forall k :: 0 <= k < r ==> xs[k] != d
  {
    if xs[0] == d then 0 else 1 + FirstIndex(xs[1..], d)
  }

  lemma FirstIndexAppend(xs: seq<int>, x: int, d: int)
    requires d in xs + [x]
    ensures d in xs ==> FirstIndex(xs + [x], d) == FirstIndex(xs, d)
    ensures d !in xs ==> FirstIndex(xs + [x], d) == |xs|
  {
    var r := FirstIndex(xs + [x], d);
    if d in xs {
      var s := FirstIndex(xs, d);
      assert (xs + [x])[s] == d;
    }
  }

  /** `FirstSeen` lists the distinct elements in the order of their first occurrence. */
  lemma {:induction false} FirstSeenOrder(xs: seq<int>)
    ensures forall i, j :: 0 <= i < j < |FirstSeen(xs)| ==>
      FirstIndex(xs, FirstSeen(xs)[i]) < FirstIndex(xs, FirstSeen(xs)[j])
  {
    if xs != [] {
      var init, x := xs[..|xs| - 1], xs[|xs| - 1];
      assert xs == init + [x];
      FirstSeenOrder(init);
      var p, r := FirstSeen(init), FirstSeen(xs);
      forall i, j | 0 <= i < j < |r|
        ensures FirstIndex(xs, r[i]) < FirstIndex(xs, r[j])
      {
        assert r[i] in p;
        FirstIndexAppend(init, x, r[i]);
        FirstIndexAppend(init, x, r[j]);
        if j == |p| {
          assert r[j] == x && x !in init;
        } else {
          assert r[i] == p[i] && r[j] == p[j];
        }
      }
    }
  }

  /** One step of the reduce: add the workout to the row of its date, or append a
      new row for a date not seen before. */
  function AddToRows(rows: seq<DayRow>, w: Workout): seq<DayRow> {
    if rows == [] then [DayRow(w.date, w.calories, w.duration)]
    else if rows[0].date == w.date then
      [DayRow(rows[0].date, rows[0].calories + w.calories, rows[0].duration + w.duration)] + rows[1..]
    else [rows[0]] + AddToRows(rows[1..], w)
  }

  /** `processWorkoutData`: the reduce over the workouts from an empty object. */
  function GroupByDate(ws: seq<Workout>): seq<DayRow> {
    if ws == [] then [] else AddToRows(GroupByDate(ws[..|ws| - 1]), ws[|ws| - 1])
  }

  /** The dates of the rows, in row order; the day-row counterpart of
      `Records.DayNumbers`, kept separate for the same reason. */
  function RowDates(rows: seq<DayRow>): (r: seq<int>)
    ensures |r| == |rows|
    ensures forall i :: 0 <= i < |rows| ==> r[i] == rows[i].date
  {
    if rows == [] then [] else [rows[0].date] + RowDates(rows[1..])
  }

  function RowValue(row: DayRow, f: Field): int {
    match f
    case Calories => row.calories
    case Duration => row.duration
  }

  /** The sum of one field over the rows. */
  function RowTotal(rows: seq<DayRow>, f: Field): int {
    if rows == [] then 0 else RowValue(rows[0], f) + RowTotal(rows[1..], f)
  }

  /** The sum of one field over the workouts on day `d`. */
  function TotalOn(ws: seq<Workout>, d: int, f: Field): int {
    if ws == [] then 0 else (if ws[0].date == d then Value(ws[0], f) else 0) + TotalOn(ws[1..], d, f)
  }

  lemma {:induction false} TotalOnAppend(a: seq<Workout>, b: seq<Workout>, d: int, f: Field)
    ensures TotalOn(a + b, d, f) == TotalOn(a, d, f) + TotalOn(b, d, f)
  {
    if a == [] {
      assert a + b == b;
    } else {
      assert (a + b)[1..] == a[1..] + b;
      TotalOnAppend(a[1..], b, d, f);
    }
  }

  lemma {:induction false} TotalOnAbsent(ws: seq<Workout>, d: int, f: Field)
    requires d !in DayNumbers(ws)
    ensures TotalOn(ws, d, f) == 0
  {
    if ws != [] {
      assert DayNumbers(ws) == [ws[0].date] + DayNumbers(ws[1..]);
      TotalOnAbsent(ws[1..], d, f);
    }
  }

  /** The step adds the workout to exactly the row of its date, or appends a row
      for it, leaving every other row as it was. */
  lemma {:induction false} AddToRowsEffect(rows: seq<DayRow>, w: Workout)
    requires forall i, j :: 0 <= i < j < |rows| ==> rows[i].date != rows[j].date
    ensures w.date in RowDates(rows) ==> |AddToRows(rows, w)| == |rows|
    ensures w.date !in RowDates(rows) ==>
      |AddToRows(rows, w)| == |rows| + 1 && AddToRows(rows, w)[|rows|] == DayRow(w.date, w.calories, w.duration)
    ensures forall i :: 0 <= i < |rows| ==>
      var r := AddToRows(rows, w)[i];
      && r.date == rows[i].date
      && r.calories == rows[i].calories + (if rows[i].date == w.date then w.calories else 0)
      && r.duration == rows[i].duration + (if rows[i].date == w.date then w.duration else 0)
  {
    if rows != [] && rows[0].date != w.date {
      AddToRowsEffect(rows[1..], w);
      assert RowDates(rows) == [rows[0].date] + RowDates(rows[1..]);
    } else if rows != [] {
      assert w.date in RowDates(rows);
    }
  }

  /** The step grows the row total by exactly the workout's value. */
  lemma {:induction false} AddToRowsTotal(rows: seq<DayRow>, w: Workout, f: Field)
    ensures RowTotal(AddToRows(rows, w), f) == RowTotal(rows, f) + Value(w, f)
  {
    if rows != [] && rows[0].date != w.date {
      AddToRowsTotal(rows[1..], w, f);
    } else if rows != [] {
      var r := AddToRows(rows, w);
      assert r[1..] == rows[1..];
    }
  }

  /** The rows summarise the workouts: their dates are the distinct workout dates
      in first-seen order, and each row holds its date's sums. */
  ghost predicate Summarises(rows: seq<DayRow>, ws: seq<Workout>) {
    && RowDates(rows) == FirstSeen(DayNumbers(ws))
    && forall i :: 0 <= i < |rows| ==>
         rows[i].calories == TotalOn(ws, rows[i].date, Calories)
         && rows[i].duration == TotalOn(ws, rows[i].date, Duration)
  }

  /** One reduce step adds the workout's date to the row dates when it is new. */
  lemma {:induction false} RowDatesAddToRows(rows: seq<DayRow>, w: Workout)
    ensures RowDates(AddToRows(rows, w))
         == if w.date in RowDates(rows) then RowDates(rows) else RowDates(rows) + [w.date]
  {
    if rows != [] && rows[0].date != w.date {
      RowDatesAddToRows(rows[1..], w);
      assert RowDates(rows) == [rows[0].date] + RowDates(rows[1..]);
      assert RowDates(AddToRows(rows, w)) == [rows[0].date] + RowDates(AddToRows(rows[1..], w));
    } else if rows != [] {
      assert RowDates(rows) == [w.date] + RowDates(rows[1..]);
      assert RowDates(AddToRows(rows, w)) == [w.date] + RowDates(rows[1..]);
    }
  }

  /** One reduce step keeps the row dates the first-seen distinct dates. */
  lemma AddToRowsDates(rows: seq<DayRow>, init: seq<Workout>, w: Workout)
    requires RowDates(rows) == FirstSeen(DayNumbers(init))
    ensures RowDates(AddToRows(rows, w)) == FirstSeen(DayNumbers(init + [w]))
  {
    RowDatesAddToRows(rows, w);
    var xs := DayNumbers(init + [w]);
    DayNumbersAppend(init, [w]);
    assert xs[..|xs| - 1] == DayNumbers(init) && xs[|xs| - 1] == w.date;
  }

  /** One reduce step keeps every row holding its date's sums. */
  lemma AddToRowsSums(rows: seq<DayRow>, init: seq<Workout>, w: Workout)
    requires Summarises(rows, init)
    ensures var r := AddToRows(rows, w);
      forall i :: 0 <= i < |r| ==>
        r[i].calories == TotalOn(init + [w], r[i].date, Calories)
        && r[i].duration == TotalOn(init + [w], r[i].date, Duration)
  {
    AddToRowsEffect(rows, w);
    var r := AddToRows(rows, w);
    forall i | 0 <= i < |r|
      ensures r[i].calories == TotalOn(init + [w], r[i].date, Calories)
      ensures r[i].duration == TotalOn(init + [w], r[i].date, Duration)
    {
      TotalOnAppend(init, [w], r[i].date, Calories);
      TotalOnAppend(init, [w], r[i].date, Duration);
      if i == |rows| {
        assert w.date !in DayNumbers(init);
        TotalOnAbsent(init, w.date, Calories);
        TotalOnAbsent(init, w.date, Duration);
      }
    }
  }

  lemma {:induction false} GroupByDateSummarises(ws: seq<Workout>)
    ensures Summarises(GroupByDate(ws), ws)
  {
    if ws != [] {
      var init, w := ws[..|ws| - 1], ws[|ws| - 1];
      assert ws == init + [w];
      GroupByDateSummarises(init);
      AddToRowsDates(GroupByDate(init), init, w);
      AddToRowsSums(GroupByDate(init), init, w);
    }
  }

  /** The rows appear in the order their dates first occur among the workouts. */
  lemma {:induction false} GroupByDateOrder(ws: seq<Workout>)
    ensures forall i, j :: 0 <= i < j < |GroupByDate(ws)| ==>
      && GroupByDate(ws)[i].date in DayNumbers(ws)
      && GroupByDate(ws)[j].date in DayNumbers(ws)
      && FirstIndex(DayNumbers(ws), GroupByDate(ws)[i].date) < FirstIndex(DayNumbers(ws), GroupByDate(ws)[j].date)
  {
    GroupByDateSummarises(ws);
    FirstSeenOrder(DayNumbers(ws));
  }

  /** One row per distinct date, in first-seen order, and no more rows than
      workouts; no workouts give no rows. */
  lemma {:induction false} GroupByDateRows(ws: seq<Workout>)
    ensures RowDates(GroupByDate(ws)) == FirstSeen(DayNumbers(ws))
    ensures |GroupByDate(ws)| <= |ws|
    ensures ws == [] <==> GroupByDate(ws) == []
  {
    GroupByDateSummarises(ws);
    if ws != [] {
      assert ws[0].date in DayNumbers(ws);
      assert |RowDates(GroupByDate(ws))| > 0;
    }
  }

  /** Grouping conserves totals: the rows' calories and minutes add up to the
      workouts' calories and minutes. */
  lemma {:induction false} GroupByDateConservesTotals(ws: seq<Workout>, f: Field)
    ensures RowTotal(GroupByDate(ws), f) == Total(ws, f)
  {
    if ws != [] {
      var init, w := ws[..|ws| - 1], ws[|ws| - 1];
      assert ws == init + [w];
      GroupByDateConservesTotals(init, f);
      AddToRowsTotal(GroupByDate(init), w, f);
      TotalAppend(init, [w], f);
    }
  }
}
