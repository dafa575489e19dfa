/** The read-only projection of the log onto the "Your Workouts" section of
    the page. Markup and styling are dropped; what remains is the choice
    between the placeholder and the list, and the text of each list item.
 */
module Display {
  import opened Workouts

  /** Text shown when nothing has been logged. */
  const EmptyMessage: string := "No workouts logged yet."

  /** What the log section shows: a placeholder paragraph, or one list item
      per entry. */
  datatype View = Placeholder(message: string) | Items(lines: seq<string>)

  /** The text of one list item, "<exercise> - <reps> reps": the exercise,
      a dash separator, the rep text and the word "reps". */
  function Label(e: Entry): (r: string)
    ensures |r| == |e.exercise| + |e.reps| + 8
    ensures r[..|e.exercise|] == e.exercise
    ensures r[|e.exercise|..|e.exercise| + 3] == " - "
    ensures r[|e.exercise| + 3..|r| - 5] == e.reps
    ensures r[|r| - 5..] == " reps"
  {
    e.exercise + " - " + e.reps + " reps"
  }

  /** The list items for a log, entry by entry. */
  function Labels(log: seq<Entry>): (r: seq<string>)
    ensures |r| == |log|
    ensures forall i :: 0 <= i < |log| ==> r[i] == Label(log[i])
  {
    if log == [] then [] else [Label(log[0])] + Labels(log[1..])
  }

  /** The log section of the page for a given state. */
  function Render(s: State): (v: View)
    ensures v.Placeholder? <==> |s.workouts| == 0
    ensures v.Placeholder? ==> v.message == EmptyMessage
    ensures v.Items? ==> |v.lines| == |s.workouts|
    ensures v.Items? ==> forall i :: 0 <= i < |s.workouts| ==> v.lines[i] == Label(s.workouts[i])
  {
    if |s.workouts| == 0 then Placeholder(EmptyMessage) else Items(Labels(s.workouts))
  }

  /** Rendering a concatenated log renders each part in turn. */
  lemma LabelsAppend(a: seq<Entry>, b: seq<Entry>)
    ensures Labels(a + b) == Labels(a) + Labels(b)
  {
  }

  /** A successful add keeps every line already shown and adds the new
      entry's line at the bottom of the list. */
  lemma RenderAfterAdd(s: State)
    requires CanAdd(s)
    ensures Render(AddWorkout(s)) == Items(Labels(s.workouts) + [Label(Pending(s))])
  {
  }

  /** Typing in the form never changes what the log section shows. */
  lemma RenderIgnoresForm(s: State, value: string)
    ensures Render(SetExercise(s, value)) == Render(s)
    ensures Render(SetReps(s, value)) == Render(s)
  {
  }

  /** The character after the dash separator is a space. */
  lemma SeparatorSpace(e: Entry)
    ensures Label(e)[|e.exercise| + 2] == ' '
  {
    assert Label(e)[|e.exercise| + 2] == Label(e)[|e.exercise|..|e.exercise| + 3][2];
  }

  /** The dash separator can sit at only one place when neither rep text
      contains a space: the entry with the shorter exercise name would have
      the other entry's separator, with its space, inside its rep text. */
  lemma {:induction false} SeparatorFixed(e1: Entry, e2: Entry)
    requires ' ' !in e1.reps
    requires Label(e1) == Label(e2)
    ensures |e1.exercise| >= |e2.exercise|
  {
    if |e1.exercise| < |e2.exercise| {
      SeparatorSpace(e2);
      assert false;
    }
  }

  /** A rep count typed into a number input never contains a space, and
      for such entries a list line determines its entry. */
  lemma LabelInjective(e1: Entry, e2: Entry)
    requires ' ' !in e1.reps && ' ' !in e2.reps
    ensures Label(e1) == Label(e2) ==> e1 == e2
  {
    if Label(e1) == Label(e2) {
      SeparatorFixed(e1, e2);
      SeparatorFixed(e2, e1);
      var n := |e1.exercise|;
      var l := Label(e1);
      assert e1.exercise == l[..n] == e2.exercise;
      assert e1.reps == l[n + 3..|l| - 5] == e2.reps;
    }
  }

  /** Without that restriction a line can be ambiguous: an exercise name
      ending in " -" and a rep text starting with "- " print the same line.
      Every such collision needs a rep text containing a space, which only
      the arbitrary-text reading of the reps field allows. */
  lemma LabelsCanCollide(name: string, reps: string)
    ensures Label(Entry(name + " -", reps)) == Label(Entry(name, "- " + reps))
    ensures Entry(name + " -", reps) != Entry(name, "- " + reps)
    ensures ' ' in "- " + reps
  {
    assert (name + " -") + " - " + reps + " reps" == name + " - " + ("- " + reps) + " reps";
    assert |name + " -"| != |name|;
    assert ("- " + reps)[1] == ' ';
  }
}
