/** The WorkoutTracker view as a state machine: the in-memory workout list, the
    `workouts` key of local storage, and the form. Adding validates the form,
    appends one record, persists the list and resets the form; deleting filters
    out an id and persists the list. */
module WorkoutTracker {
  import opened Wrappers
  import opened Records

  /** The form's fields, as the text the user typed. */
  datatype Form = Form(
    title: string,
    kind: string,
    duration: string,
    calories: string,
    date: string,
    weight: string)

  /** A cleared form whose date is today's date. */
  function EmptyForm(today: string): Form {
    Form("", "", "", "", today, "")
  }

  /** What adding reads from outside the model: the id made from the clock, today's
      date for the reset form, the parsing of numbers, and the parsing of the
      form's date into a day number. */
  datatype Env = Env(id: string, today: string, number: string -> int, dayOf: string -> int)

  datatype Tracker = Tracker(workouts: seq<Workout>, stored: Option<seq<Workout>>, form: Form)

  /** The in-memory list mirrors local storage. */
  predicate Synced(s: Tracker) {
    s.stored == Some(s.workouts)
  }

  /** The mount effect: the stored list when there is one, otherwise an empty list.
      Mounting only reads local storage. */
  function Mount(stored: Option<seq<Workout>>, today: string): (s: Tracker)
    ensures s.stored == stored
    ensures stored.Some? ==> s.workouts == stored.value && Synced(s)
    ensures stored == None ==> s.workouts == []
    ensures s.form == EmptyForm(today)
  {
    Tracker(stored.GetOr([]), stored, EmptyForm(today))
  }

  /** The form passes validation: title, type, duration and calories are filled
      in, and so is the weight for weight training. */
  predicate Complete(f: Form) {
    && f.title != "" && f.kind != "" && f.duration != "" && f.calories != ""
    && (f.kind == WeightTraining ==> f.weight != "")
  }

  /** The record built from the form. */
  function NewWorkout(f: Form, env: Env): Workout {
    Workout(
      env.id,
      f.title,
      f.kind,
      env.number(f.duration),
      env.number(f.calories),
      env.dayOf(f.date),
      if f.kind == WeightTraining then Some(env.number(f.weight)) else None)
  }

  /** `handleAddWorkout`. An incomplete form changes nothing. Otherwise exactly one
      record carrying the form's fields is appended after the unchanged earlier
      ones, with a weight exactly for weight training; the list is persisted; and
      the form is cleared with today's date. */
  function AddWorkout(s: Tracker, env: Env): (r: Tracker)
    ensures !Complete(s.form) ==> r == s
    ensures Complete(s.form) ==>
      && |r.workouts| == |s.workouts| + 1
      && r.workouts[..|s.workouts|] == s.workouts
      && var w := r.workouts[|s.workouts|];
         && w.id == env.id && w.title == s.form.title && w.kind == s.form.kind
         && w.duration == env.number(s.form.duration) && w.calories == env.number(s.form.calories)
         && w.date == env.dayOf(s.form.date)
         && (w.weight.Some? <==> w.kind == WeightTraining)
         && (w.weight.Some? ==> w.weight.value == env.number(s.form.weight))
    ensures Complete(s.form) ==> Synced(r) && r.form == EmptyForm(env.today)
  {
    if !Complete(s.form) then s
    else
      var updated := s.workouts + [NewWorkout(s.form, env)];
      Tracker(updated, Some(updated), EmptyForm(env.today))
  }

  /** `workouts.filter(w => w.id !== id)`. */
  function RemoveId(ws: seq<Workout>, id: string): (r: seq<Workout>)
    ensures forall w :: w in r <==> w in ws && w.id != id
    ensures |r| <= |ws|
  {
    if ws == [] then []
    else (if ws[0].id == id then [] else [ws[0]]) + RemoveId(ws[1..], id)
  }

  /** The filter keeps every record with another id exactly as often as it
      occurred, and no record with the id. */
  lemma {:induction false} RemoveIdCounts(ws: seq<Workout>, id: string)
    ensures forall w :: multiset(RemoveId(ws, id))[w] == if w.id == id then 0 else multiset(ws)[w]
  {
    if ws != [] {
      RemoveIdCounts(ws[1..], id);
      assert ws == [ws[0]] + ws[1..];
      assert RemoveId(ws, id) == (if ws[0].id == id then [] else [ws[0]]) + RemoveId(ws[1..], id);
    }
  }

  /** `handleDeleteWorkout`: the filtered list, persisted; the form is untouched. */
  function DeleteWorkout(s: Tracker, id: string): (r: Tracker)
    ensures Synced(r)
    ensures r.workouts == RemoveId(s.workouts, id)
    ensures forall w :: w in r.workouts <==> w in s.workouts && w.id != id
    ensures r.form == s.form
  {
    var updated := RemoveId(s.workouts, id);
    Tracker(updated, Some(updated), s.form)
  }

  /** Removal works piecewise, so the records kept stay in their order. */
  lemma {:induction false} RemoveIdAppend(a: seq<Workout>, b: seq<Workout>, id: string)
    ensures RemoveId(a + b, id) == RemoveId(a, id) + RemoveId(b, id)
  {
    if a == [] {
      assert a + b == b;
    } else {
      assert (a + b)[1..] == a[1..] + b;
      RemoveIdAppend(a[1..], b, id);
    }
  }

  /** Removing an id no record carries changes nothing. */
  lemma {:induction false} RemoveAbsentId(ws: seq<Workout>, id: string)
    requires forall i :: 0 <= i < |ws| ==> ws[i].id != id
    ensures RemoveId(ws, id) == ws
  {
    if ws != [] {
      RemoveAbsentId(ws[1..], id);
    }
  }

  /** Deleting twice is deleting once. */
  lemma DeleteIdempotent(s: Tracker, id: string)
    ensures DeleteWorkout(DeleteWorkout(s, id), id) == DeleteWorkout(s, id)
  {
    var once := RemoveId(s.workouts, id);
    forall i | 0 <= i < |once|
      ensures once[i].id != id
    {
      assert once[i] in once;
    }
    RemoveAbsentId(once, id);
  }

  /** Deleting an absent id keeps the list and persists it. */
  lemma DeleteAbsentIsIdentity(s: Tracker, id: string)
    requires forall i :: 0 <= i < |s.workouts| ==> s.workouts[i].id != id
    ensures DeleteWorkout(s, id).workouts == s.workouts
  {
    RemoveAbsentId(s.workouts, id);
  }

  /** Deleting a fresh record right after adding it restores the list. */
  lemma AddThenDeleteRestores(s: Tracker, env: Env)
    requires Complete(s.form)
    requires forall i :: 0 <= i < |s.workouts| ==> s.workouts[i].id != env.id
    ensures DeleteWorkout(AddWorkout(s, env), env.id).workouts == s.workouts
  {
    RemoveIdAppend(s.workouts, [NewWorkout(s.form, env)], env.id);
    RemoveAbsentId(s.workouts, env.id);
  }

  /** Adding and deleting keep the in-memory list and local storage in step. */
  lemma HandlersKeepSynced(s: Tracker, env: Env, id: string)
    requires Synced(s)
    ensures Synced(AddWorkout(s, env))
    ensures Synced(DeleteWorkout(s, id))
  {
  }
}
