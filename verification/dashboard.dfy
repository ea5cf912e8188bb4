/** The Dashboard view: totals, the streak it displays, and the calories-per-date
    series, computed when the view mounts and finds workouts in local storage. */
module Dashboard {
  import opened Wrappers
  import opened Records
  import opened Days
  import opened Streak
  import opened Grouping
  import Progress

  /** The loop's two counters: the current streak and the maximum it has reached. */
  datatype StreakCounters = StreakCounters(current: nat, maxStreak: nat)

  /** The inline streak: distinct dates ascending; nothing counted when there are
      none or the latest is more than a day before `today`; otherwise the
      backward walk over one-day steps, plus 1 for the latest date. */
  function DashboardStreak(ws: seq<Workout>, today: int): (s: StreakCounters)
    ensures s.current <= |UniqueDays(ws)|
  {
    var u := UniqueDays(ws);
    if |u| > 0 && today - u[|u| - 1] <= 1 then
      DashboardBackwardMeasuresTrailingRun(u, |u| - 1, 0, 0);
      var (steps, best) := DashboardBackward(u, |u| - 1, 0, 0);
      StreakCounters(steps + 1, Streak.Max(best, steps + 1))
    else StreakCounters(0, 0)
  }

  /** The displayed maximum always equals the current streak; it is 0 when there
      are no workouts or the latest is more than a day old, and otherwise the
      length of the run of consecutive days ending at the latest date. */
  lemma DashboardStreakIsTrailingRun(ws: seq<Workout>, today: int)
    ensures var u := UniqueDays(ws);
      var s := DashboardStreak(ws, today);
      && s.maxStreak == s.current
      && (u == [] || today - u[|u| - 1] > 1 ==> s.current == 0)
      && (u != [] && today - u[|u| - 1] <= 1 ==>
            1 <= s.current && MaximalRunEndingAt(u, |u| - 1, s.current))
  {
    var u := UniqueDays(ws);
    if |u| > 0 && today - u[|u| - 1] <= 1 {
      DashboardBackwardMeasuresTrailingRun(u, |u| - 1, 0, 0);
    }
  }

  /** Over day numbers the Dashboard streak and Progress's current streak agree on
      every input. */
  lemma StreakAgreesWithProgress(ws: seq<Workout>, today: int)
    ensures DashboardStreak(ws, today).maxStreak == Progress.CalculateStreak(ws, today).current
  {
    var u := UniqueDays(ws);
    DashboardStreakIsTrailingRun(ws, today);
    Progress.CurrentStreakIsTrailingRun(ws, today);
    if u != [] && today - u[|u| - 1] <= 1 {
      MaximalRunUnique(u, |u| - 1, DashboardStreak(ws, today).current, Progress.CalculateStreak(ws, today).current);
    }
  }

  /** A point of the calories chart. */
  datatype CaloriePoint = CaloriePoint(date: int, calories: int)

  function CaloriePoints(rows: seq<DayRow>): (r: seq<CaloriePoint>)
    ensures |r| == |rows|
    ensures forall i :: 0 <= i < |rows| ==> r[i] == CaloriePoint(rows[i].date, rows[i].calories)
  {
    if rows == [] then [] else [CaloriePoint(rows[0].date, rows[0].calories)] + CaloriePoints(rows[1..])
  }

  function PointTotal(points: seq<CaloriePoint>): int {
    if points == [] then 0 else points[0].calories + PointTotal(points[1..])
  }

  lemma {:induction false} PointTotalOfRows(rows: seq<DayRow>)
    ensures PointTotal(CaloriePoints(rows)) == RowTotal(rows, Calories)
  {
    if rows != [] {
      PointTotalOfRows(rows[1..]);
      assert CaloriePoints(rows)[1..] == CaloriePoints(rows[1..]);
    }
  }

  /** `processWorkoutData` of the dashboard: the same grouping by date, keeping
      only the calories. */
  function ProcessWorkoutData(ws: seq<Workout>): seq<CaloriePoint> {
    CaloriePoints(GroupByDate(ws))
  }

  /** One point per distinct date in first-seen order, each holding the calories
      of its date, the points adding up to the total calories. */
  lemma CaloriesPerDate(ws: seq<Workout>)
    ensures var points := ProcessWorkoutData(ws);
      && |points| == |FirstSeen(DayNumbers(ws))| <= |ws|
      && (forall i :: 0 <= i < |points| ==>
            points[i].date == FirstSeen(DayNumbers(ws))[i]
            && points[i].calories == TotalOn(ws, points[i].date, Calories))
      && PointTotal(points) == Total(ws, Calories)
  {
    GroupByDateSummarises(ws);
    GroupByDateRows(ws);
    GroupByDateConservesTotals(ws, Calories);
    PointTotalOfRows(GroupByDate(ws));
  }

  /** What the dashboard shows. */
  datatype DashboardView = DashboardView(
    totalWorkouts: nat,
    caloriesBurned: int,
    activeMinutes: int,
    streak: nat,
    chart: seq<CaloriePoint>)

  const Initial := DashboardView(0, 0, 0, 0, [])

  /** The mount effect: with workouts stored, totals by reduce, the displayed
      streak is the loop's maximum, and the chart is the per-date series;
      otherwise everything keeps its initial value. */
  function Mount(stored: Option<seq<Workout>>, today: int): (v: DashboardView)
    ensures stored == None ==> v == Initial
    ensures stored.Some? ==>
      && v.totalWorkouts == |stored.value|
      && v.caloriesBurned == Total(stored.value, Calories)
      && v.activeMinutes == Total(stored.value, Duration)
      && v.streak == Progress.CalculateStreak(stored.value, today).current
      && v.chart == ProcessWorkoutData(stored.value)
  {
    match stored
    case None => Initial
    case Some(ws) =>
      StreakAgreesWithProgress(ws, today);
      DashboardView(
        |ws|,
        Reduce(ws, Calories, 0),
        Reduce(ws, Duration, 0),
        DashboardStreak(ws, today).maxStreak,
        ProcessWorkoutData(ws))
  }
}
