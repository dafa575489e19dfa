/** The state of the workout tracker component and the event handlers that
    change it. React's state hooks are replaced by an immutable `State`
    value: each handler is a pure function from the state before the event
    to the state after it.
 */
module Workouts {

  /** One logged workout. Both fields hold the raw text of the form inputs:
      `reps` is never parsed as a number. */
  datatype Entry = Entry(exercise: string, reps: string)

  /** The component's three pieces of state: the ordered log and the two
      text fields of the input form. */
  datatype State = State(workouts: seq<Entry>, exercise: string, reps: string)

  /** JavaScript truthiness of a string value: only the empty string is falsy. */
  predicate Truthy(s: string) {
    |s| > 0
  }

  /** The state a fresh component starts in: an empty log and an empty form. */
  function Init(): (s: State)
    ensures |s.workouts| == 0
    ensures !CanAdd(s) && AddWorkout(s) == s
  {
    State([], "", "")
  }

  /** The guard of the add button: both form fields must be non-empty text. */
  predicate CanAdd(s: State)
    ensures CanAdd(s) <==> s.exercise != "" && s.reps != ""
  {
    Truthy(s.exercise) && Truthy(s.reps)
  }

  /** The entry the add button would log from the current form contents. */
  function Pending(s: State): (e: Entry) {
    Entry(s.exercise, s.reps)
  }

  /** Handler of the add button. When both fields are filled in, the form
      contents are appended to the log as one new entry and the form is
      cleared; otherwise nothing happens. */
  function AddWorkout(s: State): (t: State)
    // the log grows by exactly one entry precisely when the guard holds
    ensures |t.workouts| == if CanAdd(s) then |s.workouts| + 1 else |s.workouts|
    ensures t.workouts != s.workouts <==> CanAdd(s)
    // the earlier entries keep their values and their order
    ensures s.workouts <= t.workouts
    // the new entry is last and carries the form contents unchanged
    ensures CanAdd(s) ==> t.workouts[|t.workouts| - 1] == Pending(s)
    // a successful add clears both fields
    ensures CanAdd(s) ==> t.exercise == "" && t.reps == ""
    // a rejected add is a no-op
    ensures !CanAdd(s) ==> t == s
  {
    if CanAdd(s) then
      State(s.workouts + [Pending(s)], "", "")
    else
      s
  }

  /** Change handler of the exercise input. */
  function SetExercise(s: State, value: string): (t: State)
    ensures t.exercise == value
    ensures t.workouts == s.workouts && t.reps == s.reps
  {
    s.(exercise := value)
  }

  /** Change handler of the reps input: the text is stored as typed. */
  function SetReps(s: State, value: string): (t: State)
    ensures t.reps == value
    ensures t.workouts == s.workouts && t.exercise == s.exercise
  {
    s.(reps := value)
  }

  /** The only acceptance test is non-emptiness: a rep count of "0" (or any
      other non-empty text) is logged as it stands. */
  lemma AnyNonEmptyRepsAccepted(s: State, reps: string)
    requires Truthy(s.exercise) && Truthy(reps)
    ensures AddWorkout(SetReps(s, reps)).workouts == s.workouts + [Entry(s.exercise, reps)]
  {
  }

  /** Pressing the add button twice in a row logs the workout once: the
      first press clears the form, so the second is rejected. */
  lemma AddTwiceAddsOnce(s: State)
    ensures AddWorkout(AddWorkout(s)) == AddWorkout(s)
  {
  }

  /** Editing the two fields are independent: the order does not matter. */
  lemma SettersCommute(s: State, e: string, r: string)
    ensures SetExercise(SetReps(s, r), e) == SetReps(SetExercise(s, e), r)
  {
  }

  /** Only the last edit of a field is kept. */
  lemma LastEditWins(s: State, a: string, b: string)
    ensures SetExercise(SetExercise(s, a), b) == SetExercise(s, b)
    ensures SetReps(SetReps(s, a), b) == SetReps(s, b)
  {
  }
}
