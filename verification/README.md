# Fitness tracker: workout log state machine

A Dafny model of a browser workout-logging component, the single React
component `App` in `src/App.js`. Once React's hooks and markup are taken away,
the component is a small state machine:

- the state is an ordered log of workouts, each an `{exercise, reps}` record,
  plus the two text fields of the input form (`Workouts.State`);
- the add button appends the form contents to the log and clears the form,
  but only when both fields are non-empty strings; otherwise it does nothing
  (`Workouts.AddWorkout`);
- each input's change handler replaces one field (`Workouts.SetExercise`,
  `Workouts.SetReps`);
- the log section of the page shows the placeholder "No workouts logged yet."
  for an empty log, and otherwise one line `"<exercise> - <reps> reps"` per
  entry in log order (`Display.Render`).

The `Session` module replays a sequence of user events through the handlers
and proves what holds across any session: the log only grows at its end,
gains at most one entry per press of the add button, and never holds an
entry with an empty field.

The handler checks only that the reps text is non-empty and stores it
unparsed; there is no numeric parse or range check.

Files: `workouts.dfy` (state and handlers), `display.dfy` (the rendered log),
`session.dfy` (event sequences and invariants).

## Model

| member | source | states |
|---|---|---|
| Workouts.Init | src/App.js:4-6 | A fresh component starts with an empty log and a form on which the add button is rejected and changes nothing |
| Workouts.CanAdd | src/App.js:9 | The add button's guard holds exactly when neither the exercise text nor the reps text is the empty string |
| Workouts.AddWorkout | src/App.js:8-14 | The log grows by exactly one entry if and only if both fields are non-empty; the old log is a prefix of the new one; the new last entry carries the form's exercise and reps unchanged; both fields are then empty; otherwise the state is unchanged |
| Workouts.SetExercise | src/App.js:27 | Typing in the exercise input sets that field to the typed text and leaves the log and the reps field unchanged |
| Workouts.SetReps | src/App.js:33 | Typing in the reps input sets that field to the typed text, unparsed, and leaves the log and the exercise field unchanged |
| Workouts.AnyNonEmptyRepsAccepted | src/App.js:9-10 | Any non-empty rep text, such as "0", is logged verbatim: there is no numeric parse or range check |
| Workouts.AddTwiceAddsOnce | src/App.js:8-14 | Pressing add twice in a row logs once, because a successful add clears the form and the second press is rejected |
| Workouts.SettersCommute | src/App.js:27-33 | Edits to the two inputs are independent of each other's order |
| Workouts.LastEditWins | src/App.js:27-33 | Of two successive edits to one input only the last is kept |
| Display.Label | src/App.js:46 | A list line is the exercise text, then " - ", then the rep text, then " reps", with each part at its fixed position |
| Display.Labels | src/App.js:44-48 | The list has exactly one line per log entry, the line at position i being the label of entry i |
| Display.Render | src/App.js:40-50 | The placeholder "No workouts logged yet." is shown if and only if the log is empty; otherwise one line per entry in log order |
| Display.LabelsAppend | src/App.js:44-48 | The lines of a concatenated log are the lines of the first part followed by those of the second |
| Display.RenderAfterAdd | src/App.js:40-48 | After a successful add the lines already shown stay and the new entry's line is appended at the bottom |
| Display.RenderIgnoresForm | src/App.js:40-48 | Typing in the form never changes the rendered log |
| Display.SeparatorFixed | src/App.js:46 | When two entries print the same line and the first entry's rep text has no space, the first entry's exercise name is at least as long as the second's |
| Display.LabelInjective | src/App.js:46 | For entries whose rep texts contain no space, as text from a number input never does, equal lines imply equal entries |
| Display.LabelsCanCollide | src/App.js:46 | For any name and rep text, the entries (name + " -", reps) and (name, "- " + reps) differ but print the same line; the second rep text contains a space, so such collisions exist only because reps is read as arbitrary text |
| Session.Step | src/App.js:27-35 | One user event keeps the old log as a prefix; only a press of the add button can change the log, by at most one entry |
| Session.Run | src/App.js:4-35 | Over any sequence of events the starting log stays a prefix and the log gains at most as many entries as there were presses of the add button |
| Session.StepKeepsWellFormed | src/App.js:8-14 | Every handler keeps the invariant that logged entries have a non-empty exercise and non-empty reps |
| Session.RunKeepsWellFormed | src/App.js:8-35 | Any sequence of events keeps that invariant |
| Session.FromStartWellFormed | src/App.js:4-14 | Starting from the initial empty state, no entry with an empty field is ever logged |
| Session.NoSubmitNoChange | src/App.js:27-35 | A session with no press of the add button leaves the log unchanged |
| Session.FillAndSubmit | src/App.js:8-35 | Typing an exercise and a rep count and pressing add appends exactly that entry after the earlier ones and empties the form |

## Left out

- Markup, inline styles, headings and the input/button widgets: presentation only. The rendered log is reduced to the placeholder text or the list of line texts.
- React's `useState` machinery and re-render scheduling: the three state updates of the add handler are modelled as one atomic transition on an immutable state value.
- The browser's handling of the `type="number"` reps input: what text it delivers is outside the component, so `reps` is an arbitrary string.
- The React `key` of each list item (its index): it affects reconciliation, not what is shown.
- Calorie estimates, weights, durable storage, delete, clear, JSON export/import and the progress chart: the component has none of these.
