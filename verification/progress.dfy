/** The Progress view: `calculateStreak` (current and longest streak) and
    `calculateStats` (totals, weekly and monthly counts), computed when the view
    mounts and finds workouts in local storage. */
module Progress {
  import opened Wrappers
  import opened Records
  import opened Days
  import opened Streak
  import Grouping

  /** Milliseconds in a day, the divisor of every day difference in the source. */
  const MsPerDay: nat := 1000 * 60 * 60 * 24

  /** Milliseconds since local midnight. */
  type TimeOfDay = ms: nat | ms < MsPerDay

  /** A local point in time: a day number and the milliseconds since its midnight. */
  datatype Instant = Instant(day: int, ms: TimeOfDay)

  /** Local midnight of a day: what a workout date parses to. */
  function Midnight(day: int): Instant {
    Instant(day, 0)
  }

  /** `a >= b` on the instants' timestamps. */
  predicate NotBefore(a: Instant, b: Instant) {
    a.day > b.day || (a.day == b.day && a.ms >= b.ms)
  }

  /** `getDay()`: 0 for Sunday. Day 0 is a Thursday. */
  function Weekday(day: int): (r: nat)
    ensures r < 7
  {
    (day + 4) % 7
  }

  /** `now.setDate(now.getDate() - now.getDay())`: the Sunday that starts the
      week, at the same time of day as `now`. */
  function WeekStart(now: Instant): (r: Instant)
    ensures Weekday(r.day) == 0
    ensures now.day - 6 <= r.day <= now.day && r.ms == now.ms
  {
    Instant(now.day - Weekday(now.day), now.ms)
  }

  /** `new Date(workout.date) >= start`: the workout's midnight is not before `start`. */
  predicate CountedSince(w: Workout, start: Instant) {
    NotBefore(Midnight(w.date), start)
  }

  /** The length of `filter(workout => new Date(workout.date) >= start)`. It counts
      nothing exactly when no workout passes, and everything exactly when all do. */
  function CountSince(ws: seq<Workout>, start: Instant): (r: nat)
    ensures r <= |ws|
    ensures r == 0 <==> forall i :: 0 <= i < |ws| ==> !CountedSince(ws[i], start)
    ensures r == |ws| <==> forall i :: 0 <= i < |ws| ==> CountedSince(ws[i], start)
  {
    if ws == [] then 0
    else
      var rest := CountSince(ws[1..], start);
      assert forall i :: 1 <= i < |ws| ==> ws[i] == ws[1..][i - 1];
      (if CountedSince(ws[0], start) then 1 else 0) + rest
  }

  /** A single workout passes the filter exactly when its day is after the start's
      day, or is the start's day and `start` is itself a midnight. */
  lemma CountSinceOne(w: Workout, start: Instant)
    ensures CountSince([w], start) == 1 <==> w.date > start.day || (w.date == start.day && start.ms == 0)
    ensures CountSince([w], start) == 0 <==> !(w.date > start.day || (w.date == start.day && start.ms == 0))
  {
  }

  /** The filter works piecewise: the count over a concatenation is the sum. */
  lemma {:induction false} CountSinceAppend(a: seq<Workout>, b: seq<Workout>, start: Instant)
    ensures CountSince(a + b, start) == CountSince(a, start) + CountSince(b, start)
  {
    if a == [] {
      assert a + b == b;
    } else {
      assert (a + b)[1..] == a[1..] + b;
      CountSinceAppend(a[1..], b, start);
    }
  }

  /** A later cut-off counts no more workouts. */
  lemma {:induction false} CountSinceAntitone(ws: seq<Workout>, early: Instant, late: Instant)
    requires NotBefore(late, early)
    ensures CountSince(ws, late) <= CountSince(ws, early)
  {
    if ws != [] {
      CountSinceAntitone(ws[1..], early, late);
    }
  }

  datatype StreakStats = StreakStats(current: nat, longest: nat)

  /** `calculateStreak`: the distinct dates ascending; a current streak of 0 when
      the latest date is more than a day before `today`, otherwise the backward
      walk; the longest streak from the forward scan. */
  function CalculateStreak(ws: seq<Workout>, today: int): (s: StreakStats)
    ensures ws == [] ==> s == StreakStats(0, 0)
    ensures s.current <= |UniqueDays(ws)|
  {
    if |ws| == 0 then StreakStats(0, 0)
    else
      var u := UniqueDays(ws);
      var current := if today - u[|u| - 1] > 1 then 0 else ProgressBackward(u, |u| - 1, 0);
      ProgressBackwardMeasuresTrailingRun(u, |u| - 1, 0);
      StreakStats(current, LongestForward(u, 0, 1, 0))
  }

  /** The current streak: 0 when there are no workouts or the latest date is more
      than a day before `today`; otherwise the length of the run of consecutive
      days that ends at the latest date. */
  lemma CurrentStreakIsTrailingRun(ws: seq<Workout>, today: int)
    ensures var u := UniqueDays(ws);
      var s := CalculateStreak(ws, today);
      && (u == [] || today - u[|u| - 1] > 1 ==> s.current == 0)
      && (u != [] && today - u[|u| - 1] <= 1 ==>
            1 <= s.current && MaximalRunEndingAt(u, |u| - 1, s.current))
  {
    var u := UniqueDays(ws);
    if u != [] {
      ProgressBackwardMeasuresTrailingRun(u, |u| - 1, 0);
    }
  }

  /** The longest streak is the longest run of two or more consecutive days, and 0
      when no two dates are a day apart. */
  lemma LongestStreakIsLongestRun(ws: seq<Workout>, today: int)
    ensures var u := UniqueDays(ws);
      var s := CalculateStreak(ws, today);
      && LongestRunIn(u, |u|, s.longest)
      && (s.longest == 0 <==> forall k :: 0 < k < |u| ==> !OneDayStep(u, k))
  {
    var u := UniqueDays(ws);
    if u != [] {
      LongestForwardMeasuresLongestRun(u, 0, 1, 0);
    }
    LongestZeroIffNoStep(u, CalculateStreak(ws, today).longest);
  }

  /** A current streak of two or more days is never longer than the longest streak. */
  lemma CurrentAtMostLongest(ws: seq<Workout>, today: int)
    ensures var s := CalculateStreak(ws, today);
      2 <= s.current ==> s.current <= s.longest
  {
    var u := UniqueDays(ws);
    CurrentStreakIsTrailingRun(ws, today);
    LongestStreakIsLongestRun(ws, today);
    if u != [] && today - u[|u| - 1] <= 1 {
      TrailingRunAtMostLongest(u, CalculateStreak(ws, today).current, CalculateStreak(ws, today).longest);
    }
  }

  /** The streaks depend only on the set of dates: the order of the workouts and
      the number of workouts per date do not matter. */
  lemma StreakDependsOnlyOnDates(ws: seq<Workout>, vs: seq<Workout>, today: int)
    requires forall d :: d in DayNumbers(ws) <==> d in DayNumbers(vs)
    ensures CalculateStreak(ws, today) == CalculateStreak(vs, today)
  {
    UniqueDaysDependOnlyOnDates(ws, vs);
  }

  /** Workouts that all fall on one recent date give a current streak of 1 but a
      longest streak of 0, because the longest streak only moves on a one-day step. */
  lemma LoneDateQuirk(ws: seq<Workout>, today: int, d: int)
    requires ws != [] && forall i :: 0 <= i < |ws| ==> ws[i].date == d
    requires today - d <= 1
    ensures CalculateStreak(ws, today) == StreakStats(1, 0)
  {
    assert ws[0].date == d;
    StrictlyIncreasingUnique(UniqueDays(ws), [d]);
  }

  /** Workouts on the three days before a recent date give a current streak of 3. */
  lemma ThreeConsecutiveDays(a: Workout, b: Workout, c: Workout, today: int)
    requires b.date == a.date + 1 && c.date == a.date + 2
    requires today == c.date || today == c.date + 1
    ensures CalculateStreak([a, b, c], today).current == 3
  {
    assert DayNumbers([a, b, c]) == [a.date, b.date, c.date];
    UniqueDaysOfIncreasing([a, b, c]);
    var u := [a.date, b.date, c.date];
    assert ProgressBackward(u, 2, 0) == ProgressBackward(u, 0, 2) == 3;
  }

  /** Dates D, D+1 and D+3 with today D+3: the gap leaves a current streak of 1,
      and the first two dates give a longest streak of 2. */
  lemma GapBreaksCurrentStreak(a: Workout, b: Workout, c: Workout)
    requires b.date == a.date + 1 && c.date == a.date + 3
    ensures CalculateStreak([a, b, c], c.date) == StreakStats(1, 2)
  {
    assert DayNumbers([a, b, c]) == [a.date, b.date, c.date];
    UniqueDaysOfIncreasing([a, b, c]);
    var u := [a.date, b.date, c.date];
    assert !OneDayStep(u, 2) && OneDayStep(u, 1);
    assert ProgressBackward(u, 2, 0) == 1;
    assert LongestForward(u, 0, 1, 0) == LongestForward(u, 1, 2, 2) == 2;
  }

  /** The statistics the view shows. */
  datatype ProgressStats = ProgressStats(
    totalWorkouts: nat,
    totalCalories: int,
    totalDuration: int,
    weeklyProgress: nat,
    monthlyProgress: nat,
    currentStreak: nat,
    longestStreak: nat)

  const InitialStats := ProgressStats(0, 0, 0, 0, 0, 0, 0)

  /** The distinct dates as a set enumerated in first-seen order and then sorted
      by day number are exactly the distinct dates the streak logic walks. */
  lemma SetThenSortIsUniqueDays(ws: seq<Workout>)
    ensures SortedDistinct(Grouping.FirstSeen(DayNumbers(ws))) == UniqueDays(ws)
  {
    StrictlyIncreasingUnique(SortedDistinct(Grouping.FirstSeen(DayNumbers(ws))), UniqueDays(ws));
  }

  /** `calculateStats` at instant `now`. `monthStartOf` maps a day to the first
      day of its month. The month is taken from the week start, because the
      source moves `now` back to the week start before reading its month. */
  function CalculateStats(ws: seq<Workout>, now: Instant, monthStartOf: int -> int): (s: ProgressStats)
    ensures s.totalWorkouts == |ws|
    ensures s.totalCalories == Total(ws, Calories) && s.totalDuration == Total(ws, Duration)
    ensures s.weeklyProgress == CountSince(ws, WeekStart(now))
    ensures s.monthlyProgress == CountSince(ws, Midnight(monthStartOf(WeekStart(now).day)))
    ensures s.weeklyProgress <= s.totalWorkouts && s.monthlyProgress <= s.totalWorkouts
    ensures s.currentStreak == CalculateStreak(ws, now.day).current
    ensures s.longestStreak == CalculateStreak(ws, now.day).longest
  {
    var weekStart := WeekStart(now);
    var monthStart := Midnight(monthStartOf(weekStart.day));
    var streak := CalculateStreak(ws, now.day);
    ProgressStats(
      |ws|,
      Reduce(ws, Calories, 0),
      Reduce(ws, Duration, 0),
      CountSince(ws, weekStart),
      CountSince(ws, monthStart),
      streak.current,
      streak.longest)
  }

  /** A workout dated on the Sunday that starts the week counts towards the weekly
      progress only when `now` is exactly midnight, since the week start keeps the
      time of day of `now`; a workout on a later day always counts. */
  lemma WeekStartDayCountsOnlyAtMidnight(w: Workout, now: Instant)
    ensures w.date == WeekStart(now).day ==> (CountSince([w], WeekStart(now)) == 1 <==> now.ms == 0)
    ensures w.date > WeekStart(now).day ==> CountSince([w], WeekStart(now)) == 1
    ensures w.date < WeekStart(now).day ==> CountSince([w], WeekStart(now)) == 0
  {
  }

  /** The weekly count is at most the monthly count when the month of the week
      start begins no later than the week start. */
  lemma WeeklyWithinMonthly(ws: seq<Workout>, now: Instant, monthStartOf: int -> int)
    requires monthStartOf(WeekStart(now).day) <= WeekStart(now).day
    ensures CalculateStats(ws, now, monthStartOf).weeklyProgress
         <= CalculateStats(ws, now, monthStartOf).monthlyProgress
  {
    CountSinceAntitone(ws, Midnight(monthStartOf(WeekStart(now).day)), WeekStart(now));
  }

  /** The mount effect: statistics are computed only when the `workouts` key is
      present; otherwise every statistic keeps its initial 0. */
  function Mount(stored: Option<seq<Workout>>, now: Instant, monthStartOf: int -> int): (s: ProgressStats)
    ensures stored == None ==> s == InitialStats
    ensures stored.Some? ==> s == CalculateStats(stored.value, now, monthStartOf)
  {
    match stored
    case None => InitialStats
    case Some(ws) => CalculateStats(ws, now, monthStartOf)
  }

  /** An absent key and an empty list show the same statistics. */
  lemma EmptyLikeAbsent(now: Instant, monthStartOf: int -> int)
    ensures Mount(Some([]), now, monthStartOf) == Mount(None, now, monthStartOf)
  {
  }
}
