/** The ProgressCharts view: the per-date series and the workout-type pie. The
    pie's tally runs over the per-date rows, which carry no `type`, so every row
    is counted under the key `undefined`. */
module Charts {
  import opened Wrappers
  import opened Records
  import opened Grouping

  /** `processWorkoutData` of the charts view: calories and minutes per date. */
  function ProcessWorkoutData(ws: seq<Workout>): (rows: seq<DayRow>)
    ensures |rows| <= |ws|
    ensures ws == [] <==> rows == []
    ensures RowDates(rows) == FirstSeen(DayNumbers(ws))
    ensures RowTotal(rows, Calories) == Total(ws, Calories)
    ensures RowTotal(rows, Duration) == Total(ws, Duration)
  {
    GroupByDateRows(ws);
    GroupByDateConservesTotals(ws, Calories);
    GroupByDateConservesTotals(ws, Duration);
    GroupByDate(ws)
  }

  /** The mount effect: the series is computed only when `workouts` is stored. */
  function Mount(stored: Option<seq<Workout>>): (rows: seq<DayRow>)
    ensures stored == None ==> rows == []
    ensures stored.Some? ==> rows == ProcessWorkoutData(stored.value)
  {
    match stored
    case None => []
    case Some(ws) => ProcessWorkoutData(ws)
  }

  /** One pie slice: a key and how often it occurred. */
  datatype Slice = Slice(name: string, value: nat)

  function Names(slices: seq<Slice>): (r: seq<string>)
    ensures |r| == |slices|
    ensures forall i :: 0 <= i < |slices| ==> r[i] == slices[i].name
  {
    if slices == [] then [] else [slices[0].name] + Names(slices[1..])
  }

  function SliceTotal(slices: seq<Slice>): int {
    if slices == [] then 0 else slices[0].value + SliceTotal(slices[1..])
  }

  /** One step of the tally: count the key in its slice, or append a slice for a
      key not seen before (`Object.entries` keeps insertion order). */
  function TallyAdd(slices: seq<Slice>, key: string): seq<Slice> {
    if slices == [] then [Slice(key, 1)]
    else if slices[0].name == key then [Slice(key, slices[0].value + 1)] + slices[1..]
    else [slices[0]] + TallyAdd(slices[1..], key)
  }

  /** A tally step raises the total of the values by one. */
  lemma {:induction false} TallyAddTotal(slices: seq<Slice>, key: string)
    ensures SliceTotal(TallyAdd(slices, key)) == SliceTotal(slices) + 1
  {
    if slices != [] && slices[0].name != key {
      TallyAddTotal(slices[1..], key);
    } else if slices != [] {
      assert TallyAdd(slices, key)[1..] == slices[1..];
    }
  }

  /** The tally over a list of keys, as the `reduce` into `workoutTypes` and the
      `Object.entries` that makes `pieData`. */
  function Tally(keys: seq<string>): seq<Slice> {
    if keys == [] then [] else TallyAdd(Tally(keys[..|keys| - 1]), keys[|keys| - 1])
  }

  /** The tally has one slice per distinct key, and each slice counts its key. */
  ghost predicate Counts(slices: seq<Slice>, keys: seq<string>) {
    && DistinctNames(slices)
    && (forall k :: k in Names(slices) <==> k in keys)
    && (forall i :: 0 <= i < |slices| ==> slices[i].value == multiset(keys)[slices[i].name])
  }

  predicate DistinctNames(slices: seq<Slice>) {
    forall i, j :: 0 <= i < j < |slices| ==> slices[i].name != slices[j].name
  }

  /** The step increments exactly the slice of its key, or appends a slice of 1
      for a new key, leaving every other slice as it was. */
  lemma {:induction false} TallyAddEffect(slices: seq<Slice>, key: string)
    requires DistinctNames(slices)
    ensures key in Names(slices) ==> |TallyAdd(slices, key)| == |slices|
    ensures key !in Names(slices) ==>
      |TallyAdd(slices, key)| == |slices| + 1 && TallyAdd(slices, key)[|slices|] == Slice(key, 1)
    ensures forall i :: 0 <= i < |slices| ==>
      TallyAdd(slices, key)[i]
        == if slices[i].name == key then Slice(key, slices[i].value + 1) else slices[i]
  {
    if slices != [] {
      var r := TallyAdd(slices, key);
      var tail := slices[1..];
      assert Names(slices) == [slices[0].name] + Names(tail);
      if slices[0].name != key {
        var rest := TallyAdd(tail, key);
        assert r == [slices[0]] + rest;
        TallyAddEffect(tail, key);
        forall i | 0 < i < |slices|
          ensures r[i] == if slices[i].name == key then Slice(key, slices[i].value + 1) else slices[i]
        {
          assert r[i] == rest[i - 1] && slices[i] == tail[i - 1];
        }
      } else {
        assert r == [Slice(key, slices[0].value + 1)] + tail;
        forall i | 0 < i < |slices|
          ensures r[i] == slices[i] && slices[i].name != key
        {
          assert r[i] == tail[i - 1];
        }
      }
    }
  }

  /** The step keeps the slice names distinct. */
  lemma TallyAddDistinct(slices: seq<Slice>, key: string)
    requires DistinctNames(slices)
    ensures DistinctNames(TallyAdd(slices, key))
  {
    TallyAddEffect(slices, key);
    var r := TallyAdd(slices, key);
    forall i, j | 0 <= i < j < |r|
      ensures r[i].name != r[j].name
    {
      if j == |slices| {
        assert r[i].name == slices[i].name;
        assert slices[i].name in Names(slices);
      }
    }
  }

  /** A tally step adds its key to the names and keeps every other name. */
  lemma {:induction false} TallyAddNames(p: seq<Slice>, key: string)
    ensures forall k :: k in Names(TallyAdd(p, key)) <==> k in Names(p) || k == key
  {
    if p == [] {
      assert Names(TallyAdd(p, key)) == [key];
    } else {
      var r := TallyAdd(p, key);
      assert Names(p) == [p[0].name] + Names(p[1..]);
      if p[0].name == key {
        assert Names(r) == [key] + Names(p[1..]);
      } else {
        TallyAddNames(p[1..], key);
        assert Names(r) == [p[0].name] + Names(TallyAdd(p[1..], key));
      }
    }
  }

  /** A tally step keeps every slice's value equal to its key's occurrences. */
  lemma TallyAddValues(p: seq<Slice>, init: seq<string>, key: string)
    requires Counts(p, init)
    ensures var r := TallyAdd(p, key);
      forall i :: 0 <= i < |r| ==> r[i].value == multiset(init + [key])[r[i].name]
  {
    TallyAddEffect(p, key);
    var r := TallyAdd(p, key);
    assert multiset(init + [key]) == multiset(init) + multiset{key};
    if key !in Names(p) {
      assert key !in init;
    }
  }

  /** One tally step keeps the slices counting the keys seen so far. */
  lemma {:induction false} TallyAddCounts(p: seq<Slice>, init: seq<string>, key: string)
    requires Counts(p, init)
    ensures Counts(TallyAdd(p, key), init + [key])
  {
    TallyAddDistinct(p, key);
    TallyAddNames(p, key);
    TallyAddValues(p, init, key);
  }

  /** The tally counts every key: one slice per distinct key, each holding the
      number of occurrences of its key, the values adding up to the number of keys. */
  lemma {:induction false} TallyCounts(keys: seq<string>)
    ensures Counts(Tally(keys), keys)
    ensures SliceTotal(Tally(keys)) == |keys|
  {
    if keys != [] {
      var init := keys[..|keys| - 1];
      assert keys == init + [keys[|keys| - 1]];
      TallyCounts(init);
      TallyAddCounts(Tally(init), init, keys[|keys| - 1]);
      TallyAddTotal(Tally(init), keys[|keys| - 1]);
    }
  }

  /** What `workout.type` reads on a per-date row: the rows have no `type`, and an
      undefined key is stored as the string "undefined". */
  const Undefined: string := "undefined"

  function RowTypes(rows: seq<DayRow>): (r: seq<string>)
    ensures |r| == |rows|
    ensures forall i :: 0 <= i < |r| ==> r[i] == Undefined
  {
    if rows == [] then [] else [Undefined] + RowTypes(rows[1..])
  }

  /** `pieData`, as written: the tally over the per-date rows. */
  function PieData(rows: seq<DayRow>): seq<Slice> {
    Tally(RowTypes(rows))
  }

  /** The tally of a list repeating one key is a single slice holding the length. */
  lemma {:induction false} TallyOfRepeated(keys: seq<string>, k: string)
    requires forall i :: 0 <= i < |keys| ==> keys[i] == k
    ensures Tally(keys) == if keys == [] then [] else [Slice(k, |keys|)]
  {
    if keys != [] {
      TallyOfRepeated(keys[..|keys| - 1], k);
    }
  }

  /** The pie has at most one slice, named "undefined", whose value is the number
      of distinct dates; its values add up to the number of rows. */
  lemma {:induction false} PieDataSingleSlice(ws: seq<Workout>)
    ensures var rows := ProcessWorkoutData(ws);
      && |PieData(rows)| <= 1
      && (rows != [] ==> PieData(rows) == [Slice(Undefined, |FirstSeen(DayNumbers(ws))|)])
      && SliceTotal(PieData(rows)) == |rows|
  {
    var rows := ProcessWorkoutData(ws);
    TallyOfRepeated(RowTypes(rows), Undefined);
    if rows != [] {
      assert PieData(rows) == [Slice(Undefined, |rows|)];
      assert SliceTotal(PieData(rows)) == |rows| + SliceTotal([]);
    }
  }

  /** The kinds of a list of workouts. */
  function Kinds(ws: seq<Workout>): (r: seq<string>)
    ensures |r| == |ws|
    ensures forall i :: 0 <= i < |ws| ==> r[i] == ws[i].kind
  {
    if ws == [] then [] else [ws[0].kind] + Kinds(ws[1..])
  }

  /** The type distribution the pie evidently means: the tally over the workouts'
      own types. */
  function TypeDistribution(ws: seq<Workout>): seq<Slice> {
    Tally(Kinds(ws))
  }

  /** Each slice of the type distribution counts the workouts of its type, every
      type present gets a slice, and the values add up to the number of workouts. */
  lemma TypeDistributionCounts(ws: seq<Workout>)
    ensures var pie := TypeDistribution(ws);
      && (forall k :: k in Names(pie) <==> exists i :: 0 <= i < |ws| && ws[i].kind == k)
      && (forall i :: 0 <= i < |pie| ==> pie[i].value == multiset(Kinds(ws))[pie[i].name])
      && SliceTotal(pie) == |ws|
  {
    TallyCounts(Kinds(ws));
    var pie := TypeDistribution(ws);
    forall k
      ensures k in Names(pie) <==> exists i :: 0 <= i < |ws| && ws[i].kind == k
    {
      if k in Kinds(ws) {
        var i :| 0 <= i < |ws| && Kinds(ws)[i] == k;
      }
    }
  }

  /** A running and a yoga workout on one date: the pie shows one "undefined"
      slice of 1, where the type distribution has a slice for each type. */
  lemma PieCounterexample(a: Workout, b: Workout)
    requires a.kind == "Running" && b.kind == "Yoga" && a.date == b.date
    ensures PieData(ProcessWorkoutData([a, b])) == [Slice(Undefined, 1)]
    ensures TypeDistribution([a, b]) == [Slice("Running", 1), Slice("Yoga", 1)]
  {
    OneDateOneSlice(a, b);
    TwoTypesTwoSlices(a, b);
  }

  lemma OneDateOneSlice(a: Workout, b: Workout)
    requires a.date == b.date
    ensures PieData(ProcessWorkoutData([a, b])) == [Slice(Undefined, 1)]
  {
    var ws := [a, b];
    var xs := DayNumbers(ws);
    assert xs == [a.date, a.date];
    assert xs[..1] == [a.date];
    assert FirstSeen(xs[..1]) == [a.date];
    assert FirstSeen(xs) == [a.date];
    PieDataSingleSlice(ws);
  }

  lemma TwoTypesTwoSlices(a: Workout, b: Workout)
    requires a.kind == "Running" && b.kind == "Yoga"
    ensures TypeDistribution([a, b]) == [Slice("Running", 1), Slice("Yoga", 1)]
  {
    var keys := Kinds([a, b]);
    assert keys == ["Running", "Yoga"];
    assert keys[..1] == ["Running"] && keys[..1][..0] == [];
    assert Tally(keys[..1]) == [Slice("Running", 1)];
    assert Tally(keys) == TallyAdd([Slice("Running", 1)], "Yoga");
  }
}
