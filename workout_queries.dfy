/** Hydration of the two workout queries: the paginated workout list, which
    groups rows by workout, and the workout fetched by id with its exercises.
    The query result is the input row sequence; the database is not modelled. */
module WorkoutQueries {
  import opened Wrappers
  import opened Entities
  import opened Grouping

  // ---------------------------------------------------------------------------
  // The paginated list: workouts LEFT JOIN workout_exercises LEFT JOIN exercises.

  datatype WorkoutListRow = WorkoutListRow(
    workoutId: Id, workoutName: string, workoutDescription: string,
    workoutType: string, workoutValue: string,
    exerciseId: Option<Id>, reps: string, weight: string, rest: string, notes: string,
    position: int, exerciseName: string, exerciseImageUrl: string)

  /** Every row names its workout (workouts is the outer table of the join). */
  function GroupKeys(rows: seq<WorkoutListRow>): (keys: seq<Option<Id>>)
    ensures |keys| == |rows|
  {
    seq(|rows|, j requires 0 <= j < |rows| => Some(rows[j].workoutId))
  }

  function SummaryOf(r: WorkoutListRow): WorkoutSummary {
    WorkoutSummary(r.workoutId, r.workoutName, r.workoutDescription, r.workoutType, r.workoutValue, [])
  }

  /** The exercise entry a row contributes, whether or not it names an exercise. */
  function EntryOf(r: WorkoutListRow): ListedExercise {
    ListedExercise(r.exerciseId, r.reps, r.weight, r.rest, r.notes, r.position,
                   r.exerciseName, r.exerciseImageUrl)
  }

  /** The entries of workout w: one per row of w, in row order. */
  function EntriesOf(rows: seq<WorkoutListRow>, w: Id): (es: seq<ListedExercise>)
    ensures |es| <= |rows|
    decreases |rows|
  {
    if rows == [] then []
    else
      var r := rows[|rows| - 1];
      EntriesOf(rows[..|rows| - 1], w) + (if r.workoutId == w then [EntryOf(r)] else [])
  }

  function GroupAt(rows: seq<WorkoutListRow>, j: nat): WorkoutSummary
    requires j < |rows|
  {
    SummaryOf(rows[j]).(exercises := EntriesOf(rows, rows[j].workoutId))
  }

  /** The reference result: one workout per distinct workout id, in first-seen
      order, attributes from its first row, holding the entries of all its rows. */
  ghost function WorkoutList(rows: seq<WorkoutListRow>): (ws: seq<WorkoutSummary>)
  {
    var f := Firsts(GroupKeys(rows));
    seq(|f|, k requires 0 <= k < |f| => GroupAt(rows, f[k]))
  }

  lemma GroupKeysSnoc(rows: seq<WorkoutListRow>, r: WorkoutListRow)
    ensures GroupKeys(rows + [r]) == GroupKeys(rows) + [Some(r.workoutId)]
  {
    var p := rows + [r];
    assert forall j :: 0 <= j < |rows| ==> p[j] == rows[j];
  }

  lemma EntriesOfSnoc(rows: seq<WorkoutListRow>, r: WorkoutListRow, w: Id)
    ensures EntriesOf(rows + [r], w) == EntriesOf(rows, w) + (if r.workoutId == w then [EntryOf(r)] else [])
  {
    assert (rows + [r])[..|rows|] == rows;
  }

  /** One more row of a workout already listed adds one entry to that workout only. */
  lemma WorkoutListStepOld(rows: seq<WorkoutListRow>, r: WorkoutListRow, g: nat)
    requires g < |WorkoutList(rows)| && WorkoutList(rows)[g].id == r.workoutId
    ensures WorkoutList(rows + [r]) ==
            WorkoutList(rows)[g := WorkoutList(rows)[g].(exercises := WorkoutList(rows)[g].exercises + [EntryOf(r)])]
  {
    var p := rows + [r];
    GroupKeysSnoc(rows, r);
    FirstsSnoc(GroupKeys(rows), Some(r.workoutId));
    var f := Firsts(GroupKeys(rows));
    assert r.workoutId in KeySet(GroupKeys(rows)) by {
      assert GroupKeys(rows)[f[g]] == Some(r.workoutId);
    }
    assert Firsts(GroupKeys(p)) == f;
    var old_ := WorkoutList(rows);
    var new_ := WorkoutList(p);
    forall k | 0 <= k < |f|
      ensures new_[k] == (if k == g then old_[g].(exercises := old_[g].exercises + [EntryOf(r)]) else old_[k])
    {
      GroupAtSnoc(rows, r, f[k]);
      if k != g {
        assert GroupKeys(rows)[f[k]] != GroupKeys(rows)[f[g]];
      }
    }
  }

  lemma GroupAtSnoc(rows: seq<WorkoutListRow>, r: WorkoutListRow, j: nat)
    requires j < |rows|
    ensures GroupAt(rows + [r], j) ==
            if rows[j].workoutId == r.workoutId
            then GroupAt(rows, j).(exercises := GroupAt(rows, j).exercises + [EntryOf(r)])
            else GroupAt(rows, j)
  {
    assert (rows + [r])[j] == rows[j];
    EntriesOfSnoc(rows, r, rows[j].workoutId);
  }

  /** A row of a workout not yet listed appends that workout with one entry. */
  lemma WorkoutListStepNew(rows: seq<WorkoutListRow>, r: WorkoutListRow)
    requires r.workoutId !in KeySet(GroupKeys(rows))
    ensures WorkoutList(rows + [r]) == WorkoutList(rows) + [SummaryOf(r).(exercises := [EntryOf(r)])]
  {
    var p := rows + [r];
    GroupKeysSnoc(rows, r);
    FirstsSnoc(GroupKeys(rows), Some(r.workoutId));
    var f := Firsts(GroupKeys(rows));
    assert Firsts(GroupKeys(p)) == f + [|rows|];
    var ws, ws2 := WorkoutList(rows), WorkoutList(p);
    assert |ws2| == |ws| + 1;
    forall k | 0 <= k < |ws|
      ensures ws2[k] == ws[k]
    {
      assert ws2[k] == GroupAt(p, f[k]);
      GroupAtOther(rows, r, f[k]);
    }
    assert ws2[|ws|] == GroupAt(p, |rows|);
    GroupAtNew(rows, r);
    SnocEquals(ws, ws2, SummaryOf(r).(exercises := [EntryOf(r)]));
  }

  lemma SnocEquals<T>(a: seq<T>, b: seq<T>, x: T)
    requires |b| == |a| + 1 && b[|a|] == x
    requires forall k :: 0 <= k < |a| ==> b[k] == a[k]
    ensures b == a + [x]
  {
  }

  lemma GroupAtNew(rows: seq<WorkoutListRow>, r: WorkoutListRow)
    requires r.workoutId !in KeySet(GroupKeys(rows))
    ensures GroupAt(rows + [r], |rows|) == SummaryOf(r).(exercises := [EntryOf(r)])
  {
    EntriesOfSnoc(rows, r, r.workoutId);
    EntriesOfAbsent(rows, r.workoutId);
  }

  lemma GroupAtOther(rows: seq<WorkoutListRow>, r: WorkoutListRow, j: nat)
    requires j < |rows| && r.workoutId !in KeySet(GroupKeys(rows))
    ensures GroupAt(rows + [r], j) == GroupAt(rows, j)
  {
    assert (rows + [r])[j] == rows[j];
    EntriesOfSnoc(rows, r, rows[j].workoutId);
    assert GroupKeys(rows)[j].value in KeySet(GroupKeys(rows));
  }

  /** A workout id that no row names has no entries. */
  lemma {:induction false} EntriesOfAbsent(rows: seq<WorkoutListRow>, w: Id)
    requires w !in KeySet(GroupKeys(rows))
    ensures EntriesOf(rows, w) == []
    decreases |rows|
  {
    if rows != [] {
      var p := rows[..|rows| - 1];
      GroupKeysSnoc(p, rows[|rows| - 1]);
      assert p + [rows[|rows| - 1]] == rows;
      KeySetSnoc(GroupKeys(p), Some(rows[|rows| - 1].workoutId));
      EntriesOfAbsent(p, w);
    }
  }

  lemma UnionPresent<K>(s: set<K>, x: K)
    requires x in s
    ensures s + {x} == s
  {
  }

  /** The id map points at the listed workout of each id. */
  predicate Locates(grouped: map<Id, nat>, ws: seq<WorkoutSummary>) {
    forall w :: w in grouped ==> grouped[w] < |ws| && ws[grouped[w]].id == w
  }

  lemma LocatesPush(grouped: map<Id, nat>, ws: seq<WorkoutSummary>, g: nat, e: ListedExercise)
    requires Locates(grouped, ws) && g < |ws|
    ensures Locates(grouped, ws[g := ws[g].(exercises := ws[g].exercises + [e])])
  {
  }

  /** The loop body for a row whose workout is not yet listed: create the
      workout from the row, then push the row's entry onto it. */
  method AddNewGroup(workouts: seq<WorkoutSummary>, grouped: map<Id, nat>, ghost p: seq<WorkoutListRow>,
                     r: WorkoutListRow)
    returns (workouts': seq<WorkoutSummary>, grouped': map<Id, nat>)
    requires grouped.Keys == KeySet(GroupKeys(p)) && r.workoutId !in grouped
    requires Locates(grouped, workouts)
    requires workouts == WorkoutList(p)
    ensures grouped'.Keys == KeySet(GroupKeys(p + [r]))
    ensures Locates(grouped', workouts')
    ensures workouts' == WorkoutList(p + [r])
  {
    GroupKeysSnoc(p, r);
    KeySetSnoc(GroupKeys(p), Some(r.workoutId));
    WorkoutListStepNew(p, r);
    grouped' := grouped[r.workoutId := |workouts|];
    workouts' := workouts + [SummaryOf(r)];
    var g := |workouts|;
    workouts' := workouts'[g := workouts'[g].(exercises := workouts'[g].exercises + [EntryOf(r)])];
    assert workouts' == workouts + [SummaryOf(r).(exercises := [EntryOf(r)])];
  }

  /** The loop body for a row whose workout is listed: push the row's entry onto it. */
  method AddToGroup(workouts: seq<WorkoutSummary>, grouped: map<Id, nat>, ghost p: seq<WorkoutListRow>,
                    r: WorkoutListRow)
    returns (workouts': seq<WorkoutSummary>)
    requires grouped.Keys == KeySet(GroupKeys(p)) && r.workoutId in grouped
    requires Locates(grouped, workouts)
    requires workouts == WorkoutList(p)
    ensures grouped.Keys == KeySet(GroupKeys(p + [r]))
    ensures Locates(grouped, workouts')
    ensures workouts' == WorkoutList(p + [r])
  {
    GroupKeysSnoc(p, r);
    KeySetSnoc(GroupKeys(p), Some(r.workoutId));
    var g := grouped[r.workoutId];
    WorkoutListStepOld(p, r, g);
    workouts' := workouts[g := workouts[g].(exercises := workouts[g].exercises + [EntryOf(r)])];
    LocatesPush(grouped, workouts, g, EntryOf(r));
    UnionPresent(grouped.Keys, r.workoutId);
  }

  /** fetchFilteredWorkoutsByPage, after the query: group the rows by workout id
      in a record keyed by id, pushing one exercise entry per row. */
  method FetchFilteredWorkoutsByPage(rows: seq<WorkoutListRow>) returns (workouts: seq<WorkoutSummary>)
    ensures workouts == WorkoutList(rows)
  {
    workouts := [];
    var grouped: map<Id, nat> := map[];
    for i := 0 to |rows|
      invariant grouped.Keys == KeySet(GroupKeys(rows[..i]))
      invariant Locates(grouped, workouts)
      invariant workouts == WorkoutList(rows[..i])
    {
      assert rows[..i + 1] == rows[..i] + [rows[i]];
      if rows[i].workoutId !in grouped {
        workouts, grouped := AddNewGroup(workouts, grouped, rows[..i], rows[i]);
      } else {
        workouts := AddToGroup(workouts, grouped, rows[..i], rows[i]);
      }
    }
    assert rows[..|rows|] == rows;
  }

  /** The list names each workout of the rows exactly once. */
  lemma WorkoutListIds(rows: seq<WorkoutListRow>)
    ensures forall a, b :: 0 <= a < b < |WorkoutList(rows)| ==> WorkoutList(rows)[a].id != WorkoutList(rows)[b].id
    ensures forall j :: 0 <= j < |rows| ==> exists k :: 0 <= k < |WorkoutList(rows)| && WorkoutList(rows)[k].id == rows[j].workoutId
  {
    var keys := GroupKeys(rows);
    var f := Firsts(keys);
    var ws := WorkoutList(rows);
    forall a, b | 0 <= a < b < |ws| ensures ws[a].id != ws[b].id {
      assert keys[f[a]] != keys[f[b]];
    }
    forall j | 0 <= j < |rows| ensures exists k :: 0 <= k < |ws| && ws[k].id == rows[j].workoutId {
      var k := FirstsCover(keys, j);
      assert ws[k].id == rows[j].workoutId;
    }
  }

  /** A row whose join found no exercise still adds an entry (with a null
      exercise id) to its workout. */
  lemma {:induction false} RowWithoutExerciseListed(rows: seq<WorkoutListRow>, j: nat)
    requires j < |rows|
    ensures EntryOf(rows[j]) in EntriesOf(rows, rows[j].workoutId)
    decreases |rows|
  {
    var n := |rows| - 1;
    if j < n {
      RowWithoutExerciseListed(rows[..n], j);
    }
  }

  /** Workouts come in first-seen order. */
  lemma WorkoutListOrder(rows: seq<WorkoutListRow>, a: nat, b: nat, j: nat)
    requires a < b < |WorkoutList(rows)| && j < |rows|
    requires rows[j].workoutId == WorkoutList(rows)[b].id
    ensures exists i :: 0 <= i < j && rows[i].workoutId == WorkoutList(rows)[a].id
  {
    var keys := GroupKeys(rows);
    var f := Firsts(keys);
    FirstsOrder(keys, a, b, j);
    assert rows[f[a]].workoutId == WorkoutList(rows)[a].id;
  }

  // ---------------------------------------------------------------------------
  // One workout by id: workouts LEFT JOIN workout_exercises LEFT JOIN exercises.

  datatype WorkoutRow = WorkoutRow(
    id: Id, name: string, description: string, workoutType: string, workoutValue: string,
    exerciseName: string, exerciseDescription: string, exerciseImageUrl: string,
    exerciseVideoUrl: string, exerciseId: Option<Id>, position: int, reps: string,
    notes: string, weight: string, rest: string)

  function ExerciseOf(r: WorkoutRow, workoutId: Id): WorkoutExercise
    requires r.exerciseId.Some?
  {
    WorkoutExercise(Some(workoutId), r.exerciseId.value, r.exerciseName, Some(r.exerciseDescription),
                    r.position, r.reps, r.weight, r.rest, r.notes, r.exerciseImageUrl,
                    Some(r.exerciseVideoUrl))
  }

  /** The exercises of the rows that name one, in row order. */
  function ExercisesOf(rows: seq<WorkoutRow>, workoutId: Id): (es: seq<WorkoutExercise>)
    decreases |rows|
  {
    if rows == [] then []
    else
      var r := rows[|rows| - 1];
      ExercisesOf(rows[..|rows| - 1], workoutId) + (if Truthy(r.exerciseId) then [ExerciseOf(r, workoutId)] else [])
  }

  /** The number of rows that name an exercise. */
  function CountWithExercise(rows: seq<WorkoutRow>): nat
    decreases |rows|
  {
    if rows == [] then 0
    else CountWithExercise(rows[..|rows| - 1]) + (if Truthy(rows[|rows| - 1].exerciseId) then 1 else 0)
  }

  /** fetchWorkoutById, after the query: null when there are no rows, otherwise
      the first row's workout with one exercise per row that names an exercise. */
  method FetchWorkoutById(rows: seq<WorkoutRow>) returns (workout: Option<Workout>)
    ensures workout.None? <==> rows == []
    ensures workout.Some? ==>
      var r := rows[0];
      workout.value == Workout(r.id, r.name, r.description, r.workoutType, r.workoutValue,
                               ExercisesOf(rows, r.id))
  {
    if |rows| == 0 {
      return None;
    }
    var root := rows[0];
    var exercises: seq<WorkoutExercise> := [];
    for i := 0 to |rows|
      invariant exercises == ExercisesOf(rows[..i], root.id)
    {
      assert rows[..i + 1][..i] == rows[..i];
      if Truthy(rows[i].exerciseId) {
        exercises := exercises + [ExerciseOf(rows[i], root.id)];
      }
    }
    assert rows[..|rows|] == rows;
    workout := Some(Workout(root.id, root.name, root.description, root.workoutType, root.workoutValue, exercises));
  }

  /** Every exercise belongs to the fetched workout and names an exercise, and
      there is one per row that names an exercise. */
  lemma {:induction false} ExercisesOfFacts(rows: seq<WorkoutRow>, workoutId: Id)
    ensures |ExercisesOf(rows, workoutId)| == CountWithExercise(rows)
    ensures forall e :: e in ExercisesOf(rows, workoutId) ==> e.workoutId == Some(workoutId) && e.exerciseId != ""
    decreases |rows|
  {
    if rows != [] {
      ExercisesOfFacts(rows[..|rows| - 1], workoutId);
    }
  }
}
