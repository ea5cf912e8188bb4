# Fitness tracker: a Dafny model of its logic

This project models the logic of a client-side fitness-tracking web application.
Users sign up and log in against a registry kept in local storage. They log and delete workouts.
They see statistics derived from the workout log: totals, the current and longest streak of
consecutive workout days, weekly and monthly counts, and per-date calorie and duration series.

The model is functional. Every record is an immutable datatype, every collection a sequence, and
every handler a pure function from one state to the next. A calendar date is an integer day
number (days since Thursday 1 January 1970, local time). Local storage is an `Option` per key:
`workouts`, `users` (absent reads as the empty registry) and `currentUser`. The clock, the
parsing of numbers and dates, and today's date are parameters.

Modules, one per component:

- `Records`: the `Workout` and `User` records, and the field sums (the `reduce` every view runs).
- `Days`: the distinct workout dates in ascending order.
- `Streak`: runs of consecutive days. It also holds the three streak loops, each as a function
  taking one iteration per call, with lemmas that are the loops' invariants.
- `Progress`: `calculateStreak`, `calculateStats` and the week/month filters.
- `Dashboard`: the inline totals and streak, and the calories-per-date series.
- `Grouping` and `Charts`: group-by-date in first-seen order, and the workout-type pie tally.
- `Profile`: the profile totals.
- `WorkoutTracker`: add with validation, and delete by id.
- `Auth`: login, signup and the error message.
- `App`: the session state machine and which view is shown.

Some behaviour is reproduced as the code has it:

- Progress's longest streak only moves on a one-day step. A lone date therefore gives current
  streak 1 but longest streak 0 (`Progress.LoneDateQuirk`).
- Dashboard shows the loop's `maxStreak`, which always equals its current streak.
- The week start keeps `now`'s time of day. A workout dated on that Sunday counts towards the
  weekly progress only when `now` is exactly midnight.
- The month boundary is the month of the week start, not of today.

The two current-streak computations are written differently. Progress sets its count to 1
at the latest date and then adds one per one-day step backwards (src/components/Progress.tsx:72-92).
Dashboard counts the one-day steps and adds 1 after its loop (src/components/Dashboard.tsx:60-79).
Over day numbers the two agree on every input (`Dashboard.StreakAgreesWithProgress`). The weekly
filter compares each workout's midnight with a week start that keeps `now`'s time of day
(src/components/Progress.tsx:119-125).

## Model

| member | source | states |
|---|---|---|
| `Records.Reduce` | src/components/Profile.tsx:31-32 | the `reduce` fold from any starting sum equals that sum plus the field's total over the list |
| `Days.SortedDistinct` | src/components/Dashboard.tsx:41-42 | the result is strictly increasing, contains exactly the input's values, and is no longer than the input |
| `Days.UniqueDays` | src/components/Progress.tsx:44-52 | the distinct dates are ascending and are exactly the dates some workout has; there are no more of them than workouts, and none only for no workouts |
| `Days.StrictlyIncreasingUnique` | src/components/Progress.tsx:44-52 | two strictly increasing lists with the same elements are equal, so sort-then-dedupe and dedupe-then-sort yield the same dates |
| `Days.UniqueDaysDependOnlyOnDates` | src/components/Progress.tsx:50-52 | the distinct dates depend only on the set of dates, not on workout order or on how many workouts share a date |
| `Days.DuplicateDateIgnored` | src/components/Progress.tsx:50-52 | another workout on an already-logged date leaves the distinct dates unchanged |
| `Streak.ProgressBackwardMeasuresTrailingRun` | src/components/Progress.tsx:72-92 | the backward loop, started at the latest date, yields the length of the maximal run of consecutive days ending at the latest date |
| `Streak.DashboardBackwardMeasuresTrailingRun` | src/components/Dashboard.tsx:60-76 | the dashboard's backward loop counts the one-day steps of that maximal run, and its running maximum never exceeds its count |
| `Streak.LongestForwardStep` | src/components/Progress.tsx:107-112 | one iteration of the forward scan keeps `temp` the maximal run ending at the index and `longest` the longest streak so far |
| `Streak.LongestForwardMeasuresLongestRun` | src/components/Progress.tsx:96-113 | the forward scan ends with a length no run of two or more days exceeds, which is such a run's length or 0 |
| `Streak.LongestZeroIffNoStep` | src/components/Progress.tsx:96-113 | the longest streak is 0 exactly when no two distinct dates are one day apart |
| `Streak.MaximalRunUnique` | src/components/Dashboard.tsx:60-79 | only one length is the maximal run ending at a given date |
| `Progress.WeekStart` | src/components/Progress.tsx:120 | the week start is a Sunday at most six days before now, keeping now's time of day |
| `Progress.CountSince` | src/components/Progress.tsx:123-128 | the filter's length: at most the number of workouts, 0 exactly when no workout's midnight is at or after the cut-off, and all of them exactly when every one is |
| `Progress.CountSinceOne` | src/components/Progress.tsx:123-125 | one workout passes exactly when its day is after the cut-off's day, or is that day and the cut-off is a midnight |
| `Progress.CountSinceAppend` | src/components/Progress.tsx:123-128 | the count over a concatenation is the sum of the counts |
| `Progress.CountSinceAntitone` | src/components/Progress.tsx:123-128 | a later cut-off never counts more workouts |
| `Progress.CalculateStreak` | src/components/Progress.tsx:41-116 | no workouts give current and longest streak 0; the current streak never exceeds the number of distinct dates |
| `Progress.CurrentStreakIsTrailingRun` | src/components/Progress.tsx:60-93 | current streak is 0 when there are no dates or the latest is more than a day before today; otherwise it is at least 1 and is the run of consecutive days ending at the latest date |
| `Progress.LongestStreakIsLongestRun` | src/components/Progress.tsx:95-113 | the longest streak is the longest run of two or more consecutive days, and 0 exactly when no two dates are a day apart |
| `Progress.CurrentAtMostLongest` | src/components/Progress.tsx:72-113 | a current streak of two or more days is at most the longest streak |
| `Progress.StreakDependsOnlyOnDates` | src/components/Progress.tsx:44-52 | workout lists with the same set of dates give the same streaks |
| `Progress.LoneDateQuirk` | src/components/Progress.tsx:96-113 | workouts all on one recent date give current streak 1 and longest streak 0 |
| `Progress.ThreeConsecutiveDays` | src/components/Progress.tsx:72-92 | dates D, D+1, D+2 with today D+2 or D+3 give current streak 3 |
| `Progress.GapBreaksCurrentStreak` | src/components/Progress.tsx:72-113 | dates D, D+1, D+3 with today D+3 give current streak 1 and longest streak 2 |
| `Progress.SetThenSortIsUniqueDays` | src/components/Progress.tsx:49-51 | enumerating the date set in first-seen order and sorting gives exactly the ascending distinct dates |
| `Progress.CalculateStats` | src/components/Progress.tsx:118-141 | total workouts is the count and the calorie and duration totals are the field sums; the weekly count filters from the week start and the monthly count from the first day of the week start's month; both are at most the total; the current and longest streaks are those `calculateStreak` computes for today |
| `Progress.WeekStartDayCountsOnlyAtMidnight` | src/components/Progress.tsx:119-125 | a workout on the week's Sunday counts only when now is midnight; later ones always count and earlier ones never do |
| `Progress.WeeklyWithinMonthly` | src/components/Progress.tsx:119-128 | when the week start's month begins no later than the week start, the weekly count is at most the monthly count |
| `Progress.Mount` | src/components/Progress.tsx:21-39 | with no stored workouts every statistic keeps its initial 0; otherwise the statistics of the stored list |
| `Progress.EmptyLikeAbsent` | src/components/Progress.tsx:22-39 | an empty stored list shows the same statistics as no list |
| `Grouping.FirstSeen` | src/components/Progress.tsx:50-51 | a `Set`'s enumeration holds each value of the input exactly once and no other value |
| `Grouping.FirstSeenOrder` | src/components/ProgressCharts.tsx:48 | the distinct values are listed in the order of their first occurrence |
| `Grouping.AddToRowsEffect` | src/components/ProgressCharts.tsx:35-46 | one reduce step adds the workout to exactly its date's row, or appends a new row when the date is new, leaving the other rows alone |
| `Grouping.GroupByDateSummarises` | src/components/ProgressCharts.tsx:33-49 | the rows' dates are the distinct dates in first-seen order, and each row holds its date's calorie and minute sums |
| `Grouping.GroupByDateRows` | src/components/ProgressCharts.tsx:33-49 | the rows' dates are the distinct dates in first-seen order, there are no more rows than workouts, and no rows exactly when there are no workouts |
| `Grouping.GroupByDateOrder` | src/components/ProgressCharts.tsx:33-49 | the rows are ordered by the first occurrence of their dates among the workouts |
| `Grouping.GroupByDateConservesTotals` | src/components/ProgressCharts.tsx:43-44 | the rows' calories and minutes add up to the workouts' calories and minutes |
| `Charts.ProcessWorkoutData` | src/components/ProgressCharts.tsx:33-49 | the chart series has one row per distinct date in first-seen order, and its totals equal the workouts' totals |
| `Charts.Mount` | src/components/ProgressCharts.tsx:21-31 | with no stored workouts the series stays empty; otherwise it is the per-date series of the stored list |
| `Charts.TallyAddTotal` | src/components/ProgressCharts.tsx:53-58 | a tally step raises the slice total by one |
| `Charts.TallyAddNames` | src/components/ProgressCharts.tsx:53-58 | after a tally step the slice names are the previous names plus the key |
| `Charts.TallyAddEffect` | src/components/ProgressCharts.tsx:53-58 | a tally step increments exactly its key's slice, or appends a slice of 1 for a new key |
| `Charts.TallyAddDistinct` | src/components/ProgressCharts.tsx:53-58 | a tally step never creates a second slice for a key already present |
| `Charts.TallyCounts` | src/components/ProgressCharts.tsx:53-65 | the tally has one slice per distinct key, each counting its key's occurrences, the values adding up to the number of keys |
| `Charts.PieDataSingleSlice` | src/components/ProgressCharts.tsx:53-65 | the pie over the per-date rows has at most one slice; it is named "undefined", its value is the number of distinct dates, and the values sum to the row count |
| `Charts.TypeDistributionCounts` | src/components/ProgressCharts.tsx:53-65 | the corrected tally over the workouts' own types has a slice per type present, each counting that type's workouts, summing to the workout count |
| `Charts.PieCounterexample` | src/components/ProgressCharts.tsx:53-65 | a running and a yoga workout on one date give one "undefined" slice of 1, where the corrected tally has one slice per type |
| `Dashboard.DashboardStreak` | src/components/Dashboard.tsx:40-81 | the dashboard's current streak never exceeds the number of distinct dates |
| `Dashboard.DashboardStreakIsTrailingRun` | src/components/Dashboard.tsx:44-81 | the displayed maximum equals the current streak; it is 0 with no dates or a stale latest date, and otherwise the run of consecutive days ending at the latest date |
| `Dashboard.StreakAgreesWithProgress` | src/components/Dashboard.tsx:60-79 | on every workout list and every today, the dashboard's displayed streak equals Progress's current streak |
| `Dashboard.CaloriesPerDate` | src/components/Dashboard.tsx:96-109 | one point per distinct date in first-seen order, each holding its date's calories, the points summing to the total calories |
| `Dashboard.Mount` | src/components/Dashboard.tsx:30-94 | no stored workouts leave the initial zeros; otherwise count, calorie and minute totals, a displayed streak equal to Progress's current streak, and the per-date series of the stored list |
| `Profile.Mount` | src/components/Profile.tsx:20-40 | no stored workouts leave all three totals 0; otherwise the count and the calorie and minute sums |
| `Profile.TotalsAgreeAcrossViews` | src/components/Profile.tsx:30-32 | profile, dashboard and progress totals coincide on the same stored list, and an empty list shows the same as none |
| `WorkoutTracker.Mount` | src/components/WorkoutTracker.tsx:32-47 | the in-memory list is the stored list, or an empty list when none is stored; the `workouts` key is left as it was, and the form is cleared and dated today |
| `WorkoutTracker.AddWorkout` | src/components/WorkoutTracker.tsx:49-74 | an incomplete form changes nothing; otherwise one record from the form is appended after the unchanged earlier ones, with a weight exactly for weight training; the list is persisted and the form cleared to today |
| `WorkoutTracker.RemoveId` | src/components/WorkoutTracker.tsx:77 | a record survives the filter exactly when it was there and its id differs |
| `WorkoutTracker.DeleteWorkout` | src/components/WorkoutTracker.tsx:76-80 | delete keeps exactly the records with another id, and is exactly the `RemoveId` filter, so the survivors keep their order (`RemoveIdAppend`) and their multiplicities (`RemoveIdCounts`); it persists the list and leaves the form alone |
| `WorkoutTracker.RemoveIdAppend` | src/components/WorkoutTracker.tsx:77 | the filter works piecewise over concatenation, so surviving records keep their order |
| `WorkoutTracker.RemoveIdCounts` | src/components/WorkoutTracker.tsx:77 | the filter keeps each record with another id exactly as many times as it occurred, and drops every record with the id |
| `WorkoutTracker.DeleteAbsentIsIdentity` | src/components/WorkoutTracker.tsx:77 | deleting an id no record carries leaves the list unchanged |
| `WorkoutTracker.DeleteIdempotent` | src/components/WorkoutTracker.tsx:76-80 | deleting the same id twice is the same as deleting it once |
| `WorkoutTracker.AddThenDeleteRestores` | src/components/WorkoutTracker.tsx:63-77 | deleting a freshly added record by its new id restores the previous list |
| `WorkoutTracker.HandlersKeepSynced` | src/components/WorkoutTracker.tsx:63-79 | if the stored list equals the in-memory list, it still does after any add or delete |
| `Auth.ChangeTab` | src/components/Auth.tsx:27-30 | a tab change sets the tab and clears the error |
| `Auth.FindByEmail` | src/components/Auth.tsx:46 | the lookup finds nothing exactly when no user has the email, and otherwise returns the first user with it |
| `Auth.Registry` | src/components/Auth.tsx:45 | an absent `users` key reads as the empty registry, a present one as its list |
| `Auth.Submit` | src/components/Auth.tsx:39-79 | a submit keeps tab and form; it logs a user in exactly when it leaves the error empty, and a failed submit leaves the `users` key as it was |
| `Auth.LoginOutcome` | src/components/Auth.tsx:43-53 | login succeeds exactly when the first user with the email has the password, and logs that user in; otherwise the error is "Invalid email or password"; the `users` key is never written |
| `Auth.LoginWithDistinctEmails` | src/components/Auth.tsx:45-53 | with distinct emails, login succeeds exactly when some user has both the email and the password |
| `Auth.SignupOutcome` | src/components/Auth.tsx:54-78 | signup with an empty field fails with "All fields are required", then with a registered email it fails with "Email already exists", in both cases leaving the `users` key as it was; otherwise the registry with exactly one user with the typed fields appended is stored, and that user logged in |
| `Auth.AbsentRegistryLikeEmpty` | src/components/Auth.tsx:45-61 | with the `users` key absent a submit shows the same error and logs in the same user as with an empty registry, and a successful signup stores the same list |
| `Auth.SubmitKeepsEmailsDistinct` | src/components/Auth.tsx:61-76 | every submit keeps the registry's emails pairwise distinct |
| `App.Mount` | src/App.tsx:111-119 | the first tab is home and the user is the stored `currentUser`, if any |
| `App.Login` | src/App.tsx:121-125 | login sets the user, stores it as `currentUser` and shows the dashboard |
| `App.Logout` | src/App.tsx:127-131 | logout clears the user, removes `currentUser` and shows home |
| `App.GetStarted` | src/App.tsx:133-139 | with no user nothing changes; with a user only the tab moves, to the dashboard |
| `App.Navigate` | src/App.tsx:190 | a navigation tab change moves only the tab |
| `App.HandlersKeepConsistent` | src/App.tsx:121-139 | every handler keeps the stored `currentUser` present exactly when, and equal to, the logged-in user |
| `App.Screen` | src/App.tsx:141-214 | the Auth view is shown exactly when no user is logged in; otherwise the active tab's view |
| `App.TabViewInjective` | src/App.tsx:210-214 | distinct tabs show distinct views, so exactly one view matches the active tab |
| `App.SubmitAuth` | src/App.tsx:164 | a successful auth submit logs its user in and shows the dashboard; a failed one leaves the session as it was |
| `App.SignupLogsNewUserIn` | src/components/Auth.tsx:68-77 | a valid signup with a new email stores the registry with the new user appended and makes that user the session and stored user |

## Left out

- Locale date strings. Dates are day numbers. `new Date(...)` parsing, `toLocaleDateString`, `setHours` and the milliseconds-per-day `Math.floor` division are not modelled. Daylight-saving days are therefore exactly one day long in the model.
- The lexicographic `.sort()` of date strings at src/components/Progress.tsx:52. For dates like "10/1/2024" and "9/30/2024" this string order differs from date order. The model sorts by day number, as the streak logic evidently means.
- Converting the form's ISO date to a record date, which can shift the day in time zones behind UTC. This is the `dayOf` parameter of `WorkoutTracker.Env`.
- `Number(...)` parsing, including `NaN` and fractional values. Numbers are integers, and parsing is the `number` parameter of `WorkoutTracker.Env`.
- `Date.now()` ids. The clock is not modelled: the id is a parameter of `WorkoutTracker.Env`, so nothing ties ids to time. Two adds may receive the same id, and `WorkoutTracker.DeleteWorkout` then removes both records.
- Calendar months. The first day of a date's month is the parameter `monthStartOf`. The weekday is computed from the day number in local time.
- Two clock reads. `calculateStats` and `calculateStreak` each read the clock; the model reads one instant for both.
- `Object.values` ordering. Integer-like keys would come first, but locale date strings are never integer-like.
- Dashboard stores its statistics as strings (`toString`, `toLocaleString`); the model keeps the numbers.
- JSON parsing of local storage. Malformed stored data is not modelled.
- React state and effect scheduling. Each handler and each mount effect is one atomic transition.
- Per-keystroke form editing in `handleInputChange` and the tracker's `onChange` handlers. The form is an input to the handlers.
- Presentation. This covers src/components/Home.tsx, src/components/Navigation.tsx, the MUI theme, animations, charts rendering, floating-point progress percentages and the recent-workouts list.

## Findings

| source | as written | input that shows it | evidently intended | confidence | as-written member | corrected member |
|---|---|---|---|---|---|---|
| src/components/ProgressCharts.tsx:53-65 | the type tally reads `workout.type` from the per-date rows, which have no `type`, so every row lands under the key "undefined" | one Running and one Yoga workout on the same date: the pie is a single slice "undefined" of value 1 | one slice per workout type, counting that type's workouts | high; not executed | `Charts.PieData` (`Charts.PieDataSingleSlice`, `Charts.PieCounterexample`) | `Charts.TypeDistribution` (`Charts.TypeDistributionCounts`) |
