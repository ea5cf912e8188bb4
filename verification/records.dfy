/** The records of the application and the sums every statistics view takes over
    them. A calendar date is a day number (days since Thursday 1 January 1970,
    local time); the locale date strings of the application are left out. */
module Records {
  import opened Wrappers

  /** A logged workout. `weight` is present only for weight training. */
  datatype Workout = Workout(
    id: string,
    title: string,
    kind: string,
    duration: int,
    calories: int,
    date: int,
    weight: Option<int>)

  /** A registered account. */
  datatype User = User(id: string, name: string, email: string, password: string)

  /** The one workout type that asks for a weight. */
  const WeightTraining: string := "Weight Training"

  /** The numeric fields the views add up. */
  datatype Field = Calories | Duration

  function Value(w: Workout, f: Field): int {
    match f
    case Calories => w.calories
    case Duration => w.duration
  }

  /** Reference sum of one field over a list of workouts. */
  function Total(ws: seq<Workout>, f: Field): int {
    if ws == [] then 0 else Value(ws[0], f) + Total(ws[1..], f)
  }

  /** `ws.reduce((sum, w) => sum + w.<field>, acc)`: a left fold, as every view writes it. */
  function Reduce(ws: seq<Workout>, f: Field, acc: int): (r: int)
    ensures r == acc + Total(ws, f)
  {
    if ws == [] then acc else Reduce(ws[1..], f, acc + Value(ws[0], f))
  }

  lemma {:induction false} TotalAppend(a: seq<Workout>, b: seq<Workout>, f: Field)
    ensures Total(a + b, f) == Total(a, f) + Total(b, f)
  {
    if a == [] {
      assert a + b == b;
    } else {
      assert (a + b)[1..] == a[1..] + b;
      TotalAppend(a[1..], b, f);
    }
  }

  /** The day numbers of a list of workouts, in list order. It has the same shape
      as `Grouping.RowDates` over day rows; each is kept for its own record type,
      since the proofs unfold them by name. */
  function DayNumbers(ws: seq<Workout>): (r: seq<int>)
    ensures |r| == |ws|
    ensures forall i :: 0 <= i < |ws| ==> r[i] == ws[i].date
  {
    if ws == [] then [] else [ws[0].date] + DayNumbers(ws[1..])
  }

  lemma DayNumbersAppend(a: seq<Workout>, b: seq<Workout>)
    ensures DayNumbers(a + b) == DayNumbers(a) + DayNumbers(b)
  {
  }
}
