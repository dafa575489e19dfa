/** A session of the component as a sequence of user events, each handled
    by the matching handler. The lemmas here state what holds across any
    number of events: the log only grows at its end, and every logged entry
    passed the add button's guard.
 */
module Session {
  import opened Workouts

  /** A user event: typing in one of the two inputs, or pressing the add
      button. */
  datatype Event = EditExercise(value: string) | EditReps(value: string) | Submit

  /** Dispatch one event to its handler. */
  function Step(s: State, e: Event): (t: State)
    ensures s.workouts <= t.workouts
    ensures |t.workouts| <= |s.workouts| + (if e.Submit? then 1 else 0)
    ensures !e.Submit? ==> t.workouts == s.workouts
  {
    match e
    case EditExercise(v) => SetExercise(s, v)
    case EditReps(v) => SetReps(s, v)
    case Submit => AddWorkout(s)
  }

  /** The number of add-button presses among the events. */
  function Submits(events: seq<Event>): (n: nat) {
    if events == [] then 0 else (if events[0].Submit? then 1 else 0) + Submits(events[1..])
  }

  /** The state after handling the events in order. The log before the
      session is kept as a prefix, and the log gains at most one entry per
      press of the add button. */
  function Run(s: State, events: seq<Event>): (t: State)
    ensures s.workouts <= t.workouts
    ensures |t.workouts| <= |s.workouts| + Submits(events)
    decreases |events|
  {
    if events == [] then s else Run(Step(s, events[0]), events[1..])
  }

  /** Every logged entry has a non-empty exercise and a non-empty rep text. */
  predicate WellFormed(s: State) {
    forall i :: 0 <= i < |s.workouts| ==> Truthy(s.workouts[i].exercise) && Truthy(s.workouts[i].reps)
  }

  /** Each handler keeps the log well formed. */
  lemma StepKeepsWellFormed(s: State, e: Event)
    requires WellFormed(s)
    ensures WellFormed(Step(s, e))
  {
  }

  /** Any session keeps the log well formed; in particular, starting from
      the initial state, no entry with an empty field is ever logged. */
  lemma {:induction false} RunKeepsWellFormed(s: State, events: seq<Event>)
    requires WellFormed(s)
    ensures WellFormed(Run(s, events))
    decreases |events|
  {
    if events != [] {
      StepKeepsWellFormed(s, events[0]);
      RunKeepsWellFormed(Step(s, events[0]), events[1..]);
    }
  }

  /** A freshly started component only ever logs well-formed entries. */
  lemma FromStartWellFormed(events: seq<Event>)
    ensures WellFormed(Run(Init(), events))
  {
    RunKeepsWellFormed(Init(), events);
  }

  /** A session without a press of the add button leaves the log as it was. */
  lemma NoSubmitNoChange(s: State, events: seq<Event>)
    requires Submits(events) == 0
    ensures Run(s, events).workouts == s.workouts
  {
  }

  /** The typical session: type an exercise, type a rep count, press add.
      Whatever was logged before stays, the new entry comes last, and the
      form is empty again. */
  lemma FillAndSubmit(s: State, exercise: string, reps: string)
    requires Truthy(exercise) && Truthy(reps)
    ensures Run(s, [EditExercise(exercise), EditReps(reps), Submit])
         == State(s.workouts + [Entry(exercise, reps)], "", "")
  {
    var e := [EditExercise(exercise), EditReps(reps), Submit];
    var s1 := SetExercise(s, exercise);
    var s2 := SetReps(s1, reps);
    assert e[1..] == [EditReps(reps), Submit];
    assert e[1..][1..] == [Submit];
    assert e[1..][1..][1..] == [];
    assert Run(s, e) == Run(s1, e[1..]);
    assert Run(s1, e[1..]) == Run(s2, [Submit]);
    assert Run(s2, [Submit]) == AddWorkout(s2);
  }
}
