/** The workout create and edit forms: the list of exercises added through the
    exercise picker, and the submit step that zips the per-exercise form fields
    into one list of exercise records before calling the server. */
module WorkoutForms {
  import opened Wrappers
  import opened Entities
  import opened Text

  // ---------------------------------------------------------------------------
  // Form data.

  /** A record of the zipped list. A field read past the end of its array is
      `None` (JavaScript's `undefined`); `position` is also `None` when the
      field is not a number. */
  datatype ZippedExercise = ZippedExercise(
    exerciseId: string, position: Option<int>, weight: Option<string>, reps: Option<string>,
    notes: Option<string>, rest: Option<string>)

  /** A form value: a text field, or the zipped list (sent as its JSON text). */
  datatype FormValue = Text(text: string) | ExerciseList(exercises: seq<ZippedExercise>)

  datatype Entry = Entry(name: string, value: FormValue)

  /** The text values named `name`, in form order. */
  function TextValues(entries: seq<Entry>, name: string): seq<string>
    decreases |entries|
  {
    if entries == [] then []
    else
      var e := entries[|entries| - 1];
      TextValues(entries[..|entries| - 1], name) + (if e.name == name && e.value.Text? then [e.value.text] else [])
  }

  /** The entries whose name is not among `names`, in form order. */
  function Keep(entries: seq<Entry>, names: seq<string>): seq<Entry>
    decreases |entries|
  {
    if entries == [] then []
    else
      var e := entries[|entries| - 1];
      Keep(entries[..|entries| - 1], names) + (if e.name !in names then [e] else [])
  }

  /** A browser `FormData`: an ordered list of named values. */
  class FormData {
    var entries: seq<Entry>

    constructor(entries: seq<Entry>)
      ensures this.entries == entries
    {
      this.entries := entries;
    }

    function GetAll(name: string): seq<string>
      reads this
    {
      TextValues(entries, name)
    }

    method Append(name: string, value: FormValue)
      modifies this
      ensures entries == old(entries) + [Entry(name, value)]
    {
      entries := entries + [Entry(name, value)];
    }

    /** Remove every entry named `name`. */
    method Delete(name: string)
      modifies this
      ensures entries == Keep(old(entries), [name])
    {
      entries := Keep(entries, [name]);
    }
  }

  /** The six per-exercise fields that the submit step folds into one. */
  const ExerciseFields: seq<string> := ["exercise_id", "position", "weight", "reps", "notes", "rest"]

  const WorkoutExercisesField: string := "workout_exercises"

  lemma KeepSnoc(entries: seq<Entry>, e: Entry, names: seq<string>)
    ensures Keep(entries + [e], names) == Keep(entries, names) + (if e.name !in names then [e] else [])
  {
    assert (entries + [e])[..|entries|] == entries;
  }

  /** Deleting one more name from what is kept. */
  lemma {:induction false} KeepMore(entries: seq<Entry>, names: seq<string>, name: string)
    ensures Keep(Keep(entries, names), [name]) == Keep(entries, names + [name])
    decreases |entries|
  {
    if entries != [] {
      var p, e := entries[..|entries| - 1], entries[|entries| - 1];
      assert p + [e] == entries;
      KeepMore(p, names, name);
      KeepSnoc(p, e, names);
      KeepSnoc(p, e, names + [name]);
      assert (e.name in names + [name]) <==> (e.name in names || e.name == name);
      if e.name !in names {
        KeepSnoc(Keep(p, names), e, [name]);
        assert (e.name !in [name]) <==> e.name != name;
      } else {
        assert Keep(entries, names) == Keep(p, names);
        assert Keep(entries, names + [name]) == Keep(p, names + [name]);
      }
    }
  }

  // ---------------------------------------------------------------------------
  // Zipping the per-exercise fields.

  function At(s: seq<string>, i: nat): (r: Option<string>)
    ensures r.Some? <==> i < |s|
    ensures i < |s| ==> r.value == s[i]
  {
    if i < |s| then Some(s[i]) else None
  }

  /** `Number(positions[i])`: undefined and non-numeric text give NaN. */
  function PositionAt(positions: seq<string>, i: nat): (r: Option<int>)
    ensures i < |positions| && AllDigits(positions[i]) ==> r == NumberOf(positions[i])
    ensures i >= |positions| ==> r.None?
  {
    if i < |positions| then NumberOf(positions[i]) else None
  }

  /** Record i takes the i-th value of each field; one record per exercise id. */
  function Zipped(ids: seq<string>, positions: seq<string>, weights: seq<string>, reps: seq<string>,
                  notes: seq<string>, rests: seq<string>): (r: seq<ZippedExercise>)
    ensures |r| == |ids|
  {
    seq(|ids|, i requires 0 <= i < |ids| =>
      ZippedExercise(ids[i], PositionAt(positions, i), At(weights, i), At(reps, i), At(notes, i), At(rests, i)))
  }

  /** The loop of the submit step. */
  method ZipExercises(ids: seq<string>, positions: seq<string>, weights: seq<string>, reps: seq<string>,
                      notes: seq<string>, rests: seq<string>) returns (records: seq<ZippedExercise>)
    ensures records == Zipped(ids, positions, weights, reps, notes, rests)
  {
    records := [];
    for i := 0 to |ids|
      invariant |records| == i
      invariant forall k :: 0 <= k < i ==>
        records[k] == ZippedExercise(ids[k], PositionAt(positions, k), At(weights, k), At(reps, k), At(notes, k), At(rests, k))
    {
      records := records + [ZippedExercise(ids[i], PositionAt(positions, i), At(weights, i), At(reps, i),
                                           At(notes, i), At(rests, i))];
    }
  }

  /** The zipped list the submit step builds from a form. */
  ghost function ZippedForm(entries: seq<Entry>): seq<ZippedExercise> {
    Zipped(TextValues(entries, "exercise_id"), TextValues(entries, "position"), TextValues(entries, "weight"),
           TextValues(entries, "reps"), TextValues(entries, "notes"), TextValues(entries, "rest"))
  }

  /** The submit step shared by both forms: read the six fields, append the
      zipped list under `workout_exercises`, then delete the six fields. */
  method FormatExercises(form: FormData) returns (records: seq<ZippedExercise>)
    modifies form
    ensures records == ZippedForm(old(form.entries))
    ensures form.entries == Keep(old(form.entries), ExerciseFields) + [Entry(WorkoutExercisesField, ExerciseList(records))]
  {
    var exerciseIds := form.GetAll("exercise_id");
    var positions := form.GetAll("position");
    var weights := form.GetAll("weight");
    var reps := form.GetAll("reps");
    var notes := form.GetAll("notes");
    var rests := form.GetAll("rest");
    records := ZipExercises(exerciseIds, positions, weights, reps, notes, rests);
    ghost var before := form.entries;
    form.Append(WorkoutExercisesField, ExerciseList(records));
    DeleteExerciseFields(form);
    KeepSnoc(before, Entry(WorkoutExercisesField, ExerciseList(records)), ExerciseFields);
  }

  /** The six deletions that end the submit step. */
  method DeleteExerciseFields(form: FormData)
    modifies form
    ensures form.entries == Keep(old(form.entries), ExerciseFields)
  {
    ghost var appended := form.entries;
    KeepNone(appended);
    for k := 0 to |ExerciseFields|
      invariant form.entries == Keep(appended, ExerciseFields[..k])
    {
      KeepMore(appended, ExerciseFields[..k], ExerciseFields[k]);
      assert ExerciseFields[..k + 1] == ExerciseFields[..k] + [ExerciseFields[k]];
      form.Delete(ExerciseFields[k]);
    }
    assert ExerciseFields[..|ExerciseFields|] == ExerciseFields;
  }

  lemma {:induction false} KeepNone(entries: seq<Entry>)
    ensures Keep(entries, []) == entries
    decreases |entries|
  {
    if entries != [] {
      KeepNone(entries[..|entries| - 1]);
    }
  }

  /** After the submit step no per-exercise field is left and every other
      entry is kept in order. */
  lemma FormattedFormFields(entries: seq<Entry>, records: seq<ZippedExercise>, name: string)
    ensures forall e :: e in Keep(entries, ExerciseFields) + [Entry(WorkoutExercisesField, ExerciseList(records))]
              ==> e.name !in ExerciseFields
    ensures name !in ExerciseFields ==> TextValues(Keep(entries, ExerciseFields), name) == TextValues(entries, name)
  {
    if name !in ExerciseFields {
      KeepTextValues(entries, ExerciseFields, name);
    }
  }

  lemma {:induction false} KeepTextValues(entries: seq<Entry>, names: seq<string>, name: string)
    requires name !in names
    ensures TextValues(Keep(entries, names), name) == TextValues(entries, name)
    decreases |entries|
  {
    if entries != [] {
      var p, e := entries[..|entries| - 1], entries[|entries| - 1];
      assert p + [e] == entries;
      KeepTextValues(p, names, name);
      KeepSnoc(p, e, names);
      TextValuesSnoc(p, e, name);
      if e.name !in names {
        TextValuesSnoc(Keep(p, names), e, name);
      } else {
        assert e.name != name;
        assert Keep(entries, names) == Keep(p, names);
        assert TextValues(entries, name) == TextValues(p, name);
      }
    }
  }

  lemma TextValuesSnoc(entries: seq<Entry>, e: Entry, name: string)
    ensures TextValues(entries + [e], name) ==
            TextValues(entries, name) + (if e.name == name && e.value.Text? then [e.value.text] else [])
  {
    assert (entries + [e])[..|entries|] == entries;
  }

  // ---------------------------------------------------------------------------
  // The form as rendered, and what the submit step reads from it.

  /** What the user entered for one listed exercise. */
  datatype ExerciseInputs = ExerciseInputs(exerciseId: string, reps: string, weight: string, notes: string, rest: string)

  /** The order of one exercise's inputs in the rendered form: the hidden id,
      the hidden position (the list index), then reps, weight, notes and rest. */
  const RenderOrder: seq<string> := ["exercise_id", "position", "reps", "weight", "notes", "rest"]

  /** The inputs rendered for the exercise at `index`. */
  function InputsAt(x: ExerciseInputs, index: nat): (es: seq<Entry>)
    ensures |es| == |RenderOrder|
  {
    seq(|RenderOrder|, k requires 0 <= k < |RenderOrder| =>
      Entry(RenderOrder[k], Text(FieldOf(x, index, RenderOrder[k]))))
  }

  function Rendered(xs: seq<ExerciseInputs>): seq<Entry>
    decreases |xs|
  {
    if xs == [] then [] else Rendered(xs[..|xs| - 1]) + InputsAt(xs[|xs| - 1], |xs| - 1)
  }

  lemma TextValuesAppend(a: seq<Entry>, b: seq<Entry>, name: string)
    ensures TextValues(a + b, name) == TextValues(a, name) + TextValues(b, name)
    decreases |b|
  {
    if b != [] {
      var q, e := b[..|b| - 1], b[|b| - 1];
      assert q + [e] == b;
      assert a + b == (a + q) + [e];
      TextValuesAppend(a, q, name);
      TextValuesSnoc(a + q, e, name);
      TextValuesSnoc(q, e, name);
    } else {
      assert a + b == a;
    }
  }

  /** The value the rendered form holds for field `name` of the exercise at `index`. */
  function FieldOf(x: ExerciseInputs, index: nat, name: string): string {
    if name == "exercise_id" then x.exerciseId
    else if name == "position" then NatToString(index)
    else if name == "weight" then x.weight
    else if name == "reps" then x.reps
    else if name == "notes" then x.notes
    else x.rest
  }

  /** One exercise's inputs hold exactly one value of each field. */
  lemma InputsAtValues(x: ExerciseInputs, index: nat, name: string)
    requires name in ExerciseFields
    ensures TextValues(InputsAt(x, index), name) == [FieldOf(x, index, name)]
  {
    var es := InputsAt(x, index);
    RenderOrderDistinct();
    var j :| 0 <= j < |RenderOrder| && RenderOrder[j] == name;
    OneValue(es, j, name);
  }

  lemma RenderOrderDistinct()
    ensures forall a, b :: 0 <= a < b < |RenderOrder| ==> RenderOrder[a] != RenderOrder[b]
    ensures forall name :: name in ExerciseFields ==> name in RenderOrder
  {
    assert "reps"[2] != "rest"[2];
  }

  /** A name held by exactly one text entry has exactly that entry's value. */
  lemma {:induction false} OneValue(es: seq<Entry>, j: nat, name: string)
    requires j < |es| && es[j].name == name && es[j].value.Text?
    requires forall k :: 0 <= k < |es| && k != j ==> es[k].name != name
    ensures TextValues(es, name) == [es[j].value.text]
    decreases |es|
  {
    var n := |es| - 1;
    if j == n {
      HeaderHasNone(es[..n], name);
    } else {
      OneValue(es[..n], j, name);
    }
  }

  /** Field `name` of a rendered form lists that field of every exercise, in order. */
  lemma {:induction false} RenderedField(header: seq<Entry>, xs: seq<ExerciseInputs>, name: string)
    requires forall e :: e in header ==> e.name !in ExerciseFields
    requires name in ExerciseFields
    ensures TextValues(header + Rendered(xs), name) == seq(|xs|, i requires 0 <= i < |xs| => FieldOf(xs[i], i, name))
    decreases |xs|
  {
    if xs == [] {
      assert header + Rendered(xs) == header;
      HeaderHasNone(header, name);
    } else {
      var n := |xs| - 1;
      RenderedField(header, xs[..n], name);
      RenderedSnocValues(header, xs, name);
      FieldsSnoc(xs, name);
    }
  }

  lemma RenderedSnocValues(header: seq<Entry>, xs: seq<ExerciseInputs>, name: string)
    requires xs != [] && name in ExerciseFields
    ensures TextValues(header + Rendered(xs), name) ==
            TextValues(header + Rendered(xs[..|xs| - 1]), name) + [FieldOf(xs[|xs| - 1], |xs| - 1, name)]
  {
    var n := |xs| - 1;
    var front, block := header + Rendered(xs[..n]), InputsAt(xs[n], n);
    assert header + Rendered(xs) == front + block;
    InputsAtValues(xs[n], n, name);
    TextValuesAppend(front, block, name);
  }

  lemma FieldsSnoc(xs: seq<ExerciseInputs>, name: string)
    requires xs != []
    ensures seq(|xs|, i requires 0 <= i < |xs| => FieldOf(xs[i], i, name)) ==
            seq(|xs| - 1, i requires 0 <= i < |xs| - 1 => FieldOf(xs[..|xs| - 1][i], i, name))
            + [FieldOf(xs[|xs| - 1], |xs| - 1, name)]
  {
  }

  lemma {:induction false} HeaderHasNone(header: seq<Entry>, name: string)
    requires forall e :: e in header ==> e.name != name
    ensures TextValues(header, name) == []
    decreases |header|
  {
    if header != [] {
      HeaderHasNone(header[..|header| - 1], name);
    }
  }

  /** Submitting the rendered form zips exercise i with the values entered for
      it and position i: the zipped positions are 0..n-1 in order. */
  lemma RenderedFormZips(header: seq<Entry>, xs: seq<ExerciseInputs>)
    requires forall e :: e in header ==> e.name !in ExerciseFields
    ensures ZippedForm(header + Rendered(xs)) ==
            seq(|xs|, i requires 0 <= i < |xs| =>
              ZippedExercise(xs[i].exerciseId, Some(i), Some(xs[i].weight), Some(xs[i].reps),
                             Some(xs[i].notes), Some(xs[i].rest)))
  {
    var es := header + Rendered(xs);
    RenderedField(header, xs, "exercise_id");
    RenderedField(header, xs, "position");
    RenderedField(header, xs, "weight");
    RenderedField(header, xs, "reps");
    RenderedField(header, xs, "notes");
    RenderedField(header, xs, "rest");
    ZippedFields(xs, TextValues(es, "exercise_id"), TextValues(es, "position"), TextValues(es, "weight"),
                 TextValues(es, "reps"), TextValues(es, "notes"), TextValues(es, "rest"));
  }

  lemma ZippedFields(xs: seq<ExerciseInputs>, ids: seq<string>, positions: seq<string>, weights: seq<string>,
                     reps: seq<string>, notes: seq<string>, rests: seq<string>)
    requires ids == seq(|xs|, i requires 0 <= i < |xs| => FieldOf(xs[i], i, "exercise_id"))
    requires positions == seq(|xs|, i requires 0 <= i < |xs| => FieldOf(xs[i], i, "position"))
    requires weights == seq(|xs|, i requires 0 <= i < |xs| => FieldOf(xs[i], i, "weight"))
    requires reps == seq(|xs|, i requires 0 <= i < |xs| => FieldOf(xs[i], i, "reps"))
    requires notes == seq(|xs|, i requires 0 <= i < |xs| => FieldOf(xs[i], i, "notes"))
    requires rests == seq(|xs|, i requires 0 <= i < |xs| => FieldOf(xs[i], i, "rest"))
    ensures Zipped(ids, positions, weights, reps, notes, rests) ==
            seq(|xs|, i requires 0 <= i < |xs| =>
              ZippedExercise(xs[i].exerciseId, Some(i), Some(xs[i].weight), Some(xs[i].reps),
                             Some(xs[i].notes), Some(xs[i].rest)))
  {
    forall i | 0 <= i < |xs|
      ensures PositionAt(positions, i) == Some(i)
    {
      NumberOfNatToString(i);
    }
  }

  // ---------------------------------------------------------------------------
  // The exercise picker.

  /** `exerciseNames.find(e => e.id == id)`: the first entry with that id. */
  function Find(names: seq<ExerciseName>, id: Id): (r: Option<ExerciseName>)
    ensures r.None? <==> forall k :: 0 <= k < |names| ==> names[k].id != id
    ensures r.Some? ==> exists k :: 0 <= k < |names| && names[k] == r.value && r.value.id == id
                                    && forall j :: 0 <= j < k ==> names[j].id != id
    decreases |names|
  {
    if names == [] then None
    else if names[0].id == id then Some(names[0])
    else
      var r := Find(names[1..], id);
      assert forall k :: 1 <= k < |names| ==> names[1..][k - 1] == names[k];
      r
  }

  /** `CreateWorkoutForm`: the workout type selector and the exercises picked so far. */
  class CreateWorkoutForm {
    const exerciseNames: seq<ExerciseName>
    var workoutType: string
    var selectedExerciseId: string
    var addedExercises: seq<ExerciseName>

    constructor(exerciseNames: seq<ExerciseName>)
      ensures this.exerciseNames == exerciseNames
      ensures workoutType == "rounds" && selectedExerciseId == "" && addedExercises == []
    {
      this.exerciseNames := exerciseNames;
      workoutType := "rounds";
      selectedExerciseId := "";
      addedExercises := [];
    }

    method HandleOptionChange(value: string)
      modifies this
      ensures workoutType == value
      ensures selectedExerciseId == old(selectedExerciseId) && addedExercises == old(addedExercises)
    {
      workoutType := value;
    }

    method SelectExercise(id: Id)
      modifies this
      ensures selectedExerciseId == id
      ensures workoutType == old(workoutType) && addedExercises == old(addedExercises)
    {
      selectedExerciseId := id;
    }

    /** A selected exercise found in the catalogue is appended and the
        selection cleared; otherwise nothing changes. */
    method HandleAddExercise()
      modifies this
      ensures old(selectedExerciseId) != "" && Find(exerciseNames, old(selectedExerciseId)).Some? ==>
                addedExercises == old(addedExercises) + [Find(exerciseNames, old(selectedExerciseId)).value]
                && selectedExerciseId == ""
      ensures !(old(selectedExerciseId) != "" && Find(exerciseNames, old(selectedExerciseId)).Some?) ==>
                addedExercises == old(addedExercises) && selectedExerciseId == old(selectedExerciseId)
      ensures workoutType == old(workoutType)
    {
      if selectedExerciseId != "" {
        var found := Find(exerciseNames, selectedExerciseId);
        if found.Some? {
          addedExercises := addedExercises + [found.value];
          selectedExerciseId := "";
        }
      }
    }

    /** The submit step; the resulting form is what `createWorkout` receives. */
    method FormatDataAndCreateWorkout(form: FormData) returns (records: seq<ZippedExercise>)
      modifies form
      ensures records == ZippedForm(old(form.entries))
      ensures form.entries == Keep(old(form.entries), ExerciseFields) + [Entry(WorkoutExercisesField, ExerciseList(records))]
    {
      records := FormatExercises(form);
    }
  }

  /** The exercise appended by the edit form's picker: it belongs to the
      workout, sits at the end of the list, and has empty fields. */
  function NewExercise(workoutId: Id, picked: ExerciseName, position: int): (e: WorkoutExercise)
    ensures e.workoutId == Some(workoutId) && e.exerciseId == picked.id && e.name == picked.name
    ensures e.position == position
    ensures e.weight == "" && e.reps == "" && e.notes == "" && e.rest == "" && e.imageUrl == ""
  {
    WorkoutExercise(Some(workoutId), picked.id, picked.name, None, position, "", "", "", "", "", None)
  }

  /** `EditWorkoutForm`: the workout's exercise list as edited so far. */
  class EditWorkoutForm {
    const workoutId: Id
    const exerciseNames: seq<ExerciseName>
    var workoutType: string
    var selectedExerciseId: string
    var addedExercises: seq<WorkoutExercise>

    /** The list starts as the workout's exercises, or empty when it has none. */
    constructor(workoutId: Id, exercises: Option<seq<WorkoutExercise>>, exerciseNames: seq<ExerciseName>)
      ensures this.workoutId == workoutId && this.exerciseNames == exerciseNames
      ensures addedExercises == (if exercises.Some? then exercises.value else [])
      ensures workoutType == "rounds" && selectedExerciseId == ""
    {
      this.workoutId := workoutId;
      this.exerciseNames := exerciseNames;
      workoutType := "rounds";
      selectedExerciseId := "";
      addedExercises := exercises.GetOr([]);
    }

    method HandleOptionChange(value: string)
      modifies this
      ensures workoutType == value
      ensures selectedExerciseId == old(selectedExerciseId) && addedExercises == old(addedExercises)
    {
      workoutType := value;
    }

    method SelectExercise(id: Id)
      modifies this
      ensures selectedExerciseId == id
      ensures workoutType == old(workoutType) && addedExercises == old(addedExercises)
    {
      selectedExerciseId := id;
    }

    method HandleAddExercise()
      modifies this
      ensures old(selectedExerciseId) != "" && Find(exerciseNames, old(selectedExerciseId)).Some? ==>
                addedExercises == old(addedExercises) +
                  [NewExercise(workoutId, Find(exerciseNames, old(selectedExerciseId)).value, |old(addedExercises)|)]
                && selectedExerciseId == ""
      ensures !(old(selectedExerciseId) != "" && Find(exerciseNames, old(selectedExerciseId)).Some?) ==>
                addedExercises == old(addedExercises) && selectedExerciseId == old(selectedExerciseId)
      ensures workoutType == old(workoutType)
    {
      if selectedExerciseId != "" {
        var found := Find(exerciseNames, selectedExerciseId);
        if found.Some? {
          addedExercises := addedExercises + [NewExercise(workoutId, found.value, |addedExercises|)];
          selectedExerciseId := "";
        }
      }
    }

    /** The submit step; `updateWorkout` receives the workout's id and the form. */
    method FormatDataAndUpdateWorkout(form: FormData) returns (sentId: Id, records: seq<ZippedExercise>)
      modifies form
      ensures sentId == workoutId
      ensures records == ZippedForm(old(form.entries))
      ensures form.entries == Keep(old(form.entries), ExerciseFields) + [Entry(WorkoutExercisesField, ExerciseList(records))]
    {
      records := FormatExercises(form);
      sentId := workoutId;
    }
  }
}
