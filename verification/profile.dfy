/** The Profile view's totals, computed when the view mounts and finds workouts
    in local storage. */
module Profile {
  import opened Wrappers
  import opened Records
  import Dashboard
  import Progress

  datatype ProfileStats = ProfileStats(totalWorkouts: nat, totalCalories: int, totalMinutes: int)

  const Initial := ProfileStats(0, 0, 0)

  /** With no stored workouts every total stays 0; otherwise the count, the calorie
      sum and the minute sum of the stored workouts. */
  function Mount(stored: Option<seq<Workout>>): (s: ProfileStats)
    ensures stored == None ==> s == Initial
    ensures stored.Some? ==>
      && s.totalWorkouts == |stored.value|
      && s.totalCalories == Total(stored.value, Calories)
      && s.totalMinutes == Total(stored.value, Duration)
  {
    match stored
    case None => Initial
    case Some(ws) => ProfileStats(|ws|, Reduce(ws, Calories, 0), Reduce(ws, Duration, 0))
  }

  /** The profile's totals are the dashboard's and the progress view's totals on
      the same stored list, and an empty list shows the same as no list. */
  lemma TotalsAgreeAcrossViews(stored: Option<seq<Workout>>, today: int, now: Progress.Instant, monthStartOf: int -> int)
    ensures var p := Mount(stored);
      var d := Dashboard.Mount(stored, today);
      var g := Progress.Mount(stored, now, monthStartOf);
      && p.totalWorkouts == d.totalWorkouts == g.totalWorkouts
      && p.totalCalories == d.caloriesBurned == g.totalCalories
      && p.totalMinutes == d.activeMinutes == g.totalDuration
    ensures Mount(Some([])) == Mount(None)
  {
  }
}
