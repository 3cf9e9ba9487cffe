/** Hydration of a session with its blocks, their workouts and the workouts'
    exercises, from the rows of a five-way LEFT JOIN. The query result is the
    input row sequence. */
module SessionQuery {
  import opened Wrappers
  import opened Entities
  import opened Grouping

  /** A row of the session query. Every join column after the session's own may
      be null; only the three ids are read as keys. */
  datatype SessionRow = SessionRow(
    id: Id, name: string, description: string, planId: Id, cicleId: Id, position: int,
    imageUrl: string, videoUrl: string,
    blockId: Option<Id>, blockName: string, blockDescription: string, blockVideoUrl: string,
    blockPosition: int, workoutPosition: int,
    workoutId: Option<Id>, workoutType: string, workoutDescription: string,
    exerciseId: Option<Id>, exercisePosition: int, exerciseReps: string,
    exerciseWeight: string, exerciseNotes: string, exerciseRest: string,
    exerciseName: string, exerciseDescription: string, exerciseImageUrl: string,
    exerciseVideoUrl: string)

  // ---------------------------------------------------------------------------
  // Keys and the nodes a row creates.

  /** A row's workout id counts only when its block id does. */
  function RowWorkoutKey(r: SessionRow): (k: Option<Id>)
    ensures k.Some? <==> Truthy(r.blockId) && Truthy(r.workoutId)
    ensures k.Some? ==> k == r.workoutId
  {
    if Truthy(r.blockId) then KeyOf(r.workoutId) else None
  }

  /** A row adds an exercise when its block, workout and exercise ids are all present. */
  predicate Contributes(r: SessionRow) {
    RowWorkoutKey(r).Some? && Truthy(r.exerciseId)
  }

  function BlockKeys(rows: seq<SessionRow>): (keys: seq<Option<Id>>)
    ensures |keys| == |rows|
  {
    seq(|rows|, j requires 0 <= j < |rows| => KeyOf(rows[j].blockId))
  }

  function WorkoutKeys(rows: seq<SessionRow>): (keys: seq<Option<Id>>)
    ensures |keys| == |rows|
  {
    seq(|rows|, j requires 0 <= j < |rows| => RowWorkoutKey(rows[j]))
  }

  /** The block a row creates: its video url is set and its plan id is not. */
  function BlockOf(r: SessionRow): Block
    requires r.blockId.Some?
  {
    Block(r.blockId.value, r.blockName, r.blockDescription, Some(r.blockVideoUrl),
          r.blockPosition, r.id, None, [])
  }

  /** The workout a row creates: neither its name nor its value is set. */
  function WorkoutOf(r: SessionRow): BlockWorkout
    requires r.workoutId.Some?
  {
    BlockWorkout(r.workoutId.value, None, r.workoutDescription, r.workoutPosition,
                 r.workoutType, None, [])
  }

  /** The exercise a row adds; it carries no workout id. */
  function ExerciseOf(r: SessionRow): WorkoutExercise
    requires r.exerciseId.Some?
  {
    WorkoutExercise(None, r.exerciseId.value, r.exerciseName, Some(r.exerciseDescription),
                    r.exercisePosition, r.exerciseReps, r.exerciseWeight, r.exerciseRest,
                    r.exerciseNotes, r.exerciseImageUrl, Some(r.exerciseVideoUrl))
  }

  // ---------------------------------------------------------------------------
  // The reference result.

  /** The exercises of workout w: one per contributing row of w, in row order,
      whichever block that row names. */
  function ExercisesFor(rows: seq<SessionRow>, w: Id): seq<WorkoutExercise>
    decreases |rows|
  {
    if rows == [] then []
    else
      var r := rows[|rows| - 1];
      ExercisesFor(rows[..|rows| - 1], w)
        + (if Contributes(r) && RowWorkoutKey(r) == Some(w) then [ExerciseOf(r)] else [])
  }

  predicate WorkoutIndices(hdr: seq<SessionRow>, fw: seq<nat>) {
    forall k :: 0 <= k < |fw| ==> fw[k] < |hdr| && hdr[fw[k]].blockId.Some? && hdr[fw[k]].workoutId.Some?
  }

  predicate BlockIndices(hdr: seq<SessionRow>, fb: seq<nat>) {
    forall k :: 0 <= k < |fb| ==> fb[k] < |hdr| && hdr[fb[k]].blockId.Some?
  }

  /** The workout first seen at row j, with the exercises the rows `ex` give it. */
  function WorkoutNode(hdr: seq<SessionRow>, ex: seq<SessionRow>, j: nat): BlockWorkout
    requires j < |hdr| && hdr[j].workoutId.Some?
  {
    WorkoutOf(hdr[j]).(exercises := ExercisesFor(ex, hdr[j].workoutId.value))
  }

  /** The workouts, among those first seen at the rows fw, whose first row names block b. */
  function WorkoutsIn(hdr: seq<SessionRow>, ex: seq<SessionRow>, fw: seq<nat>, b: Id): seq<BlockWorkout>
    requires WorkoutIndices(hdr, fw)
    decreases |fw|
  {
    if fw == [] then []
    else
      var j := fw[|fw| - 1];
      WorkoutsIn(hdr, ex, fw[..|fw| - 1], b)
        + (if hdr[j].blockId == Some(b) then [WorkoutNode(hdr, ex, j)] else [])
  }

  function BlockNode(hdr: seq<SessionRow>, ex: seq<SessionRow>, fw: seq<nat>, j: nat): Block
    requires j < |hdr| && hdr[j].blockId.Some? && WorkoutIndices(hdr, fw)
  {
    BlockOf(hdr[j]).(workouts := WorkoutsIn(hdr, ex, fw, hdr[j].blockId.value))
  }

  /** Blocks first seen at the rows fb, workouts first seen at the rows fw, and
      exercises from the rows ex. */
  function BlocksFrom(hdr: seq<SessionRow>, ex: seq<SessionRow>, fb: seq<nat>, fw: seq<nat>): (bs: seq<Block>)
    requires BlockIndices(hdr, fb) && WorkoutIndices(hdr, fw)
    ensures |bs| == |fb|
  {
    seq(|fb|, k requires 0 <= k < |fb| => BlockNode(hdr, ex, fw, fb[k]))
  }

  lemma FirstsIndices(rows: seq<SessionRow>)
    ensures BlockIndices(rows, Firsts(BlockKeys(rows)))
    ensures WorkoutIndices(rows, Firsts(WorkoutKeys(rows)))
  {
    var fb, fw := Firsts(BlockKeys(rows)), Firsts(WorkoutKeys(rows));
    forall k | 0 <= k < |fb| ensures fb[k] < |rows| && rows[fb[k]].blockId.Some? {
      assert BlockKeys(rows)[fb[k]].Some?;
    }
    forall k | 0 <= k < |fw| ensures fw[k] < |rows| && rows[fw[k]].blockId.Some? && rows[fw[k]].workoutId.Some? {
      assert WorkoutKeys(rows)[fw[k]].Some?;
    }
  }

  /** The reference result: one block per distinct block id in first-seen order,
      built from its first row; under it, the workouts whose first row (among the
      rows with a block) names that block, in first-seen order; under each workout
      the exercises of all rows that name it. */
  ghost function SessionBlocks(rows: seq<SessionRow>): seq<Block>
  {
    FirstsIndices(rows);
    BlocksFrom(rows, rows, Firsts(BlockKeys(rows)), Firsts(WorkoutKeys(rows)))
  }

  function SessionOf(root: SessionRow, blocks: seq<Block>): Session {
    Session(root.id, root.name, root.description, root.position, root.imageUrl, root.videoUrl,
            root.planId, root.cicleId, blocks)
  }

  // ---------------------------------------------------------------------------
  // Updates to a block tree, as the loop performs them.

  /** Append workout x to the block with id b. */
  function AddWorkout(bs: seq<Block>, b: Id, x: BlockWorkout): (r: seq<Block>)
    ensures |r| == |bs|
  {
    seq(|bs|, k requires 0 <= k < |bs| =>
      if bs[k].id == b then bs[k].(workouts := bs[k].workouts + [x]) else bs[k])
  }

  function AddExerciseTo(ws: seq<BlockWorkout>, w: Id, e: WorkoutExercise): (r: seq<BlockWorkout>)
    ensures |r| == |ws|
  {
    seq(|ws|, i requires 0 <= i < |ws| =>
      if ws[i].id == w then ws[i].(exercises := ws[i].exercises + [e]) else ws[i])
  }

  /** Append exercise e to the workout with id w, wherever it is. */
  function AddExercise(bs: seq<Block>, w: Id, e: WorkoutExercise): (r: seq<Block>)
    ensures |r| == |bs|
  {
    seq(|bs|, k requires 0 <= k < |bs| => bs[k].(workouts := AddExerciseTo(bs[k].workouts, w, e)))
  }

  ghost function Phase1(p: seq<SessionRow>, r: SessionRow, bs: seq<Block>): seq<Block> {
    if Truthy(r.blockId) && r.blockId.value !in KeySet(BlockKeys(p)) then bs + [BlockOf(r)] else bs
  }

  ghost function Phase2(p: seq<SessionRow>, r: SessionRow, bs: seq<Block>): seq<Block> {
    if RowWorkoutKey(r).Some? && r.workoutId.value !in KeySet(WorkoutKeys(p))
    then AddWorkout(bs, r.blockId.value, WorkoutOf(r)) else bs
  }

  function Phase3(r: SessionRow, bs: seq<Block>): seq<Block> {
    if Contributes(r) then AddExercise(bs, r.workoutId.value, ExerciseOf(r)) else bs
  }

  // ---------------------------------------------------------------------------
  // How the reference result grows by one row.

  lemma BlockKeysSnoc(rows: seq<SessionRow>, r: SessionRow)
    ensures BlockKeys(rows + [r]) == BlockKeys(rows) + [KeyOf(r.blockId)]
    ensures WorkoutKeys(rows + [r]) == WorkoutKeys(rows) + [RowWorkoutKey(r)]
  {
    var p := rows + [r];
    assert forall j :: 0 <= j < |rows| ==> p[j] == rows[j];
  }

  lemma ExercisesForSnoc(rows: seq<SessionRow>, r: SessionRow, w: Id)
    ensures ExercisesFor(rows + [r], w) ==
            ExercisesFor(rows, w) + (if Contributes(r) && RowWorkoutKey(r) == Some(w) then [ExerciseOf(r)] else [])
  {
    assert (rows + [r])[..|rows|] == rows;
  }

  /** A workout id no row names has no exercises. */
  lemma {:induction false} ExercisesForAbsent(rows: seq<SessionRow>, w: Id)
    requires w !in KeySet(WorkoutKeys(rows))
    ensures ExercisesFor(rows, w) == []
    decreases |rows|
  {
    if rows != [] {
      var p := rows[..|rows| - 1];
      var r := rows[|rows| - 1];
      assert p + [r] == rows;
      BlockKeysSnoc(p, r);
      KeySetSnoc(WorkoutKeys(p), RowWorkoutKey(r));
      ExercisesForAbsent(p, w);
    }
  }

  lemma {:induction false} WorkoutsInMoreHeaders(hdr: seq<SessionRow>, r: SessionRow, ex: seq<SessionRow>, fw: seq<nat>, b: Id)
    requires WorkoutIndices(hdr, fw)
    ensures WorkoutIndices(hdr + [r], fw)
    ensures WorkoutsIn(hdr + [r], ex, fw, b) == WorkoutsIn(hdr, ex, fw, b)
    decreases |fw|
  {
    var h := hdr + [r];
    assert forall k :: 0 <= k < |fw| ==> h[fw[k]] == hdr[fw[k]];
    if fw != [] {
      WorkoutsInMoreHeaders(hdr, r, ex, fw[..|fw| - 1], b);
    }
  }

  /** Headers are read only at the indices given. */
  lemma BlocksFromMoreHeaders(hdr: seq<SessionRow>, r: SessionRow, ex: seq<SessionRow>, fb: seq<nat>, fw: seq<nat>)
    requires BlockIndices(hdr, fb) && WorkoutIndices(hdr, fw)
    ensures BlockIndices(hdr + [r], fb) && WorkoutIndices(hdr + [r], fw)
    ensures BlocksFrom(hdr + [r], ex, fb, fw) == BlocksFrom(hdr, ex, fb, fw)
  {
    var h := hdr + [r];
    assert forall k :: 0 <= k < |fb| ==> h[fb[k]] == hdr[fb[k]];
    WorkoutsInMoreHeaders(hdr, r, ex, fw, "");
    forall k | 0 <= k < |fb|
      ensures BlockNode(h, ex, fw, fb[k]) == BlockNode(hdr, ex, fw, fb[k])
    {
      WorkoutsInMoreHeaders(hdr, r, ex, fw, hdr[fb[k]].blockId.value);
    }
  }

  lemma {:induction false} WorkoutsInMoreExercises(hdr: seq<SessionRow>, ex: seq<SessionRow>, r: SessionRow, fw: seq<nat>, b: Id)
    requires WorkoutIndices(hdr, fw)
    ensures WorkoutsIn(hdr, ex + [r], fw, b) ==
            (if Contributes(r) then AddExerciseTo(WorkoutsIn(hdr, ex, fw, b), r.workoutId.value, ExerciseOf(r))
             else WorkoutsIn(hdr, ex, fw, b))
    decreases |fw|
  {
    if fw != [] {
      var j := fw[|fw| - 1];
      WorkoutsInMoreExercises(hdr, ex, r, fw[..|fw| - 1], b);
      ExercisesForSnoc(ex, r, hdr[j].workoutId.value);
      if Contributes(r) {
        var w, e := r.workoutId.value, ExerciseOf(r);
        assert RowWorkoutKey(r) == Some(w);
        var front := WorkoutsIn(hdr, ex, fw[..|fw| - 1], b);
        var last := if hdr[j].blockId == Some(b) then [WorkoutNode(hdr, ex, j)] else [];
        var last' := if hdr[j].blockId == Some(b) then [WorkoutNode(hdr, ex + [r], j)] else [];
        if hdr[j].blockId == Some(b) {
          var n, n' := WorkoutNode(hdr, ex, j), WorkoutNode(hdr, ex + [r], j);
          if hdr[j].workoutId.value == w {
            assert n'.exercises == n.exercises + [e];
          } else {
            assert n'.exercises == n.exercises;
          }
          assert AddExerciseTo([n], w, e)[0] == n';
        }
        assert AddExerciseTo(last, w, e) == last';
        assert WorkoutsIn(hdr, ex, fw, b) == front + last;
        AddExerciseToAppend(front, last, w, e);
        assert WorkoutsIn(hdr, ex + [r], fw, b) == AddExerciseTo(front, w, e) + last';
      } else {
        assert WorkoutNode(hdr, ex + [r], j) == WorkoutNode(hdr, ex, j);
      }
    }
  }

  lemma AddExerciseToAppend(a: seq<BlockWorkout>, c: seq<BlockWorkout>, w: Id, e: WorkoutExercise)
    ensures AddExerciseTo(a + c, w, e) == AddExerciseTo(a, w, e) + AddExerciseTo(c, w, e)
  {
  }

  /** A row read for exercises adds its exercise to the workout it names. */
  lemma BlocksFromMoreExercises(hdr: seq<SessionRow>, ex: seq<SessionRow>, r: SessionRow, fb: seq<nat>, fw: seq<nat>)
    requires BlockIndices(hdr, fb) && WorkoutIndices(hdr, fw)
    ensures BlocksFrom(hdr, ex + [r], fb, fw) == Phase3(r, BlocksFrom(hdr, ex, fb, fw))
  {
    forall k | 0 <= k < |fb|
      ensures BlocksFrom(hdr, ex + [r], fb, fw)[k] == Phase3(r, BlocksFrom(hdr, ex, fb, fw))[k]
    {
      WorkoutsInMoreExercises(hdr, ex, r, fw, hdr[fb[k]].blockId.value);
    }
  }

  /** One more first block row appends its block. */
  lemma BlocksFromNewBlock(hdr: seq<SessionRow>, ex: seq<SessionRow>, fb: seq<nat>, fw: seq<nat>, j: nat)
    requires BlockIndices(hdr, fb) && WorkoutIndices(hdr, fw) && j < |hdr| && hdr[j].blockId.Some?
    ensures BlockIndices(hdr, fb + [j])
    ensures BlocksFrom(hdr, ex, fb + [j], fw) == BlocksFrom(hdr, ex, fb, fw) + [BlockNode(hdr, ex, fw, j)]
  {
    var f := fb + [j];
    assert forall k :: 0 <= k < |fb| ==> f[k] == fb[k];
    var lhs, rhs := BlocksFrom(hdr, ex, f, fw), BlocksFrom(hdr, ex, fb, fw) + [BlockNode(hdr, ex, fw, j)];
    assert forall k :: 0 <= k < |f| ==> lhs[k] == rhs[k];
  }

  /** One more first workout row appends its workout to its block. */
  lemma BlocksFromNewWorkout(hdr: seq<SessionRow>, ex: seq<SessionRow>, fb: seq<nat>, fw: seq<nat>, j: nat)
    requires BlockIndices(hdr, fb) && WorkoutIndices(hdr, fw)
    requires j < |hdr| && hdr[j].blockId.Some? && hdr[j].workoutId.Some?
    ensures WorkoutIndices(hdr, fw + [j])
    ensures BlocksFrom(hdr, ex, fb, fw + [j]) ==
            AddWorkout(BlocksFrom(hdr, ex, fb, fw), hdr[j].blockId.value, WorkoutNode(hdr, ex, j))
  {
    var f := fw + [j];
    assert f[..|fw|] == fw;
    var lhs, rhs := BlocksFrom(hdr, ex, fb, f), AddWorkout(BlocksFrom(hdr, ex, fb, fw), hdr[j].blockId.value, WorkoutNode(hdr, ex, j));
    assert forall k :: 0 <= k < |fb| ==> lhs[k] == rhs[k];
  }

  /** No workout is placed under a block whose id heads none of the rows. */
  lemma {:induction false} WorkoutsInAbsent(hdr: seq<SessionRow>, ex: seq<SessionRow>, fw: seq<nat>, b: Id)
    requires WorkoutIndices(hdr, fw)
    requires forall k :: 0 <= k < |fw| ==> hdr[fw[k]].blockId != Some(b)
    ensures WorkoutsIn(hdr, ex, fw, b) == []
    decreases |fw|
  {
    if fw != [] {
      WorkoutsInAbsent(hdr, ex, fw[..|fw| - 1], b);
    }
  }

  /** Block rows already seen under another block head no workout of a new block. */
  lemma NewBlockHasNoWorkouts(p: seq<SessionRow>, r: SessionRow)
    requires Truthy(r.blockId) && r.blockId.value !in KeySet(BlockKeys(p))
    ensures WorkoutIndices(p + [r], Firsts(WorkoutKeys(p)))
    ensures BlockNode(p + [r], p, Firsts(WorkoutKeys(p)), |p|) == BlockOf(r)
  {
    var fw := Firsts(WorkoutKeys(p));
    FirstsIndices(p);
    var h := p + [r];
    BlocksFromMoreHeaders(p, r, p, [], fw);
    forall k | 0 <= k < |fw| ensures h[fw[k]].blockId != r.blockId {
      assert h[fw[k]] == p[fw[k]];
      assert WorkoutKeys(p)[fw[k]].Some?;
      assert BlockKeys(p)[fw[k]] == p[fw[k]].blockId;
    }
    WorkoutsInAbsent(h, p, fw, r.blockId.value);
  }

  /** The first rows of blocks and workouts after one more row. */
  lemma FirstsSnocBoth(p: seq<SessionRow>, r: SessionRow)
    ensures Firsts(BlockKeys(p + [r])) == Firsts(BlockKeys(p)) +
              (if Truthy(r.blockId) && r.blockId.value !in KeySet(BlockKeys(p)) then [|p|] else [])
    ensures Firsts(WorkoutKeys(p + [r])) == Firsts(WorkoutKeys(p)) +
              (if RowWorkoutKey(r).Some? && r.workoutId.value !in KeySet(WorkoutKeys(p)) then [|p|] else [])
  {
    BlockKeysSnoc(p, r);
    FirstsSnoc(BlockKeys(p), KeyOf(r.blockId));
    FirstsSnoc(WorkoutKeys(p), RowWorkoutKey(r));
  }

  /** The blocks and workouts one more row creates (before its exercise is added). */
  lemma HeadersSnoc(p: seq<SessionRow>, r: SessionRow)
    ensures BlockIndices(p + [r], Firsts(BlockKeys(p + [r])))
    ensures WorkoutIndices(p + [r], Firsts(WorkoutKeys(p + [r])))
    ensures BlocksFrom(p + [r], p, Firsts(BlockKeys(p + [r])), Firsts(WorkoutKeys(p + [r]))) ==
            Phase2(p, r, Phase1(p, r, SessionBlocks(p)))
  {
    var h := p + [r];
    var fb, fw := Firsts(BlockKeys(p)), Firsts(WorkoutKeys(p));
    FirstsIndices(p);
    FirstsIndices(h);
    FirstsSnocBoth(p, r);
    BlocksFromMoreHeaders(p, r, p, fb, fw);
    var fb' := Firsts(BlockKeys(h));
    var s1 := BlocksFrom(h, p, fb', fw);
    if Truthy(r.blockId) && r.blockId.value !in KeySet(BlockKeys(p)) {
      BlocksFromNewBlock(h, p, fb, fw, |p|);
      NewBlockHasNoWorkouts(p, r);
    }
    assert s1 == Phase1(p, r, SessionBlocks(p));
    if RowWorkoutKey(r).Some? && r.workoutId.value !in KeySet(WorkoutKeys(p)) {
      assert h[|p|] == r;
      BlocksFromNewWorkout(h, p, fb', fw, |p|);
      ExercisesForAbsent(p, r.workoutId.value);
      assert WorkoutNode(h, p, |p|) == WorkoutOf(r);
      assert Firsts(WorkoutKeys(h)) == fw + [|p|];
    } else {
      assert Firsts(WorkoutKeys(h)) == fw;
    }
  }

  /** The reference result after one more row: the row's block is appended if
      new, then its workout is appended to that block if new, then its exercise
      is appended to its workout. */
  lemma SessionBlocksSnoc(p: seq<SessionRow>, r: SessionRow)
    ensures SessionBlocks(p + [r]) == Phase3(r, Phase2(p, r, Phase1(p, r, SessionBlocks(p))))
  {
    var h := p + [r];
    HeadersSnoc(p, r);
    FirstsIndices(h);
    BlocksFromMoreExercises(h, p, r, Firsts(BlockKeys(h)), Firsts(WorkoutKeys(h)));
  }

  // ---------------------------------------------------------------------------
  // The loop's identity maps and fetchSessionById.

  /** Where the loop keeps a workout: the index of its block and its index there. */
  datatype Slot = Slot(block: nat, workout: nat)

  /** The identity maps locate every block and workout of the tree, and nothing else. */
  ghost predicate MapsAgree(blocks: seq<Block>, blockMap: map<Id, nat>, workoutMap: map<Id, Slot>) {
    (forall b :: b in blockMap ==> blockMap[b] < |blocks| && blocks[blockMap[b]].id == b)
    && (forall k :: 0 <= k < |blocks| ==> blocks[k].id in blockMap && blockMap[blocks[k].id] == k)
    && (forall w :: w in workoutMap ==>
          var s := workoutMap[w];
          s.block < |blocks| && s.workout < |blocks[s.block].workouts| && blocks[s.block].workouts[s.workout].id == w)
    && (forall k, i :: 0 <= k < |blocks| && 0 <= i < |blocks[k].workouts| ==>
          blocks[k].workouts[i].id in workoutMap && workoutMap[blocks[k].workouts[i].id] == Slot(k, i))
  }

  predicate UniqueBlockIds(bs: seq<Block>) {
    forall a, b :: 0 <= a < b < |bs| ==> bs[a].id != bs[b].id
  }

  /** No workout id is in two places of the tree, in one block or across blocks. */
  predicate UniqueWorkoutIds(bs: seq<Block>) {
    forall k1, i1, k2, i2 ::
      0 <= k1 < |bs| && 0 <= i1 < |bs[k1].workouts| && 0 <= k2 < |bs| && 0 <= i2 < |bs[k2].workouts|
      && bs[k1].workouts[i1].id == bs[k2].workouts[i2].id
      ==> k1 == k2 && i1 == i2
  }

  lemma MapsAgreeUnique(blocks: seq<Block>, blockMap: map<Id, nat>, workoutMap: map<Id, Slot>)
    requires MapsAgree(blocks, blockMap, workoutMap)
    ensures UniqueBlockIds(blocks) && UniqueWorkoutIds(blocks)
  {
  }

  lemma AddBlockAgrees(blocks: seq<Block>, blockMap: map<Id, nat>, workoutMap: map<Id, Slot>, nb: Block)
    requires MapsAgree(blocks, blockMap, workoutMap) && nb.id !in blockMap && nb.workouts == []
    ensures MapsAgree(blocks + [nb], blockMap[nb.id := |blocks|], workoutMap)
  {
    var bs := blocks + [nb];
    assert forall k :: 0 <= k < |blocks| ==> bs[k] == blocks[k];
  }

  lemma AddWorkoutAgrees(blocks: seq<Block>, blockMap: map<Id, nat>, workoutMap: map<Id, Slot>, bk: nat, x: BlockWorkout)
    requires MapsAgree(blocks, blockMap, workoutMap) && bk < |blocks| && x.id !in workoutMap
    ensures var bs := blocks[bk := blocks[bk].(workouts := blocks[bk].workouts + [x])];
            bs == AddWorkout(blocks, blocks[bk].id, x)
            && MapsAgree(bs, blockMap, workoutMap[x.id := Slot(bk, |blocks[bk].workouts|)])
  {
    var bs := blocks[bk := blocks[bk].(workouts := blocks[bk].workouts + [x])];
    assert forall i :: 0 <= i < |blocks[bk].workouts| ==> bs[bk].workouts[i] == blocks[bk].workouts[i];
    assert bs == AddWorkout(blocks, blocks[bk].id, x);
  }

  lemma AddExerciseAgrees(blocks: seq<Block>, blockMap: map<Id, nat>, workoutMap: map<Id, Slot>, w: Id, e: WorkoutExercise)
    requires MapsAgree(blocks, blockMap, workoutMap) && w in workoutMap
    ensures var s := workoutMap[w];
            var wk := blocks[s.block].workouts[s.workout];
            var bs := blocks[s.block := blocks[s.block].(workouts := blocks[s.block].workouts[s.workout := wk.(exercises := wk.exercises + [e])])];
            bs == AddExercise(blocks, w, e) && MapsAgree(bs, blockMap, workoutMap)
  {
    var s := workoutMap[w];
    var wk := blocks[s.block].workouts[s.workout];
    var bs := blocks[s.block := blocks[s.block].(workouts := blocks[s.block].workouts[s.workout := wk.(exercises := wk.exercises + [e])])];
    var ad := AddExercise(blocks, w, e);
    forall k | 0 <= k < |blocks| ensures bs[k] == ad[k] {
      forall i | 0 <= i < |blocks[k].workouts| ensures bs[k].workouts[i] == ad[k].workouts[i] {
        assert workoutMap[blocks[k].workouts[i].id] == Slot(k, i);
      }
    }
  }

  /** The first step of the loop body: create the row's block if its id is new. */
  method AddBlockStep(blocks: seq<Block>, blockMap: map<Id, nat>, workoutMap: map<Id, Slot>,
                      ghost p: seq<SessionRow>, row: SessionRow)
    returns (blocks': seq<Block>, blockMap': map<Id, nat>)
    requires MapsAgree(blocks, blockMap, workoutMap) && blockMap.Keys == KeySet(BlockKeys(p))
    ensures blocks' == Phase1(p, row, blocks)
    ensures MapsAgree(blocks', blockMap', workoutMap)
    ensures blockMap'.Keys == KeySet(BlockKeys(p + [row]))
    ensures Truthy(row.blockId) ==> row.blockId.value in blockMap'
  {
    BlockKeysSnoc(p, row);
    KeySetSnoc(BlockKeys(p), KeyOf(row.blockId));
    blocks', blockMap' := blocks, blockMap;
    if Truthy(row.blockId) {
      var b := row.blockId.value;
      if b !in blockMap {
        AddBlockAgrees(blocks, blockMap, workoutMap, BlockOf(row));
        blockMap' := blockMap[b := |blocks|];
        blocks' := blocks + [BlockOf(row)];
      }
    }
  }

  /** The second step: create the row's workout under the row's block if the
      workout id is new. */
  method AddWorkoutStep(blocks: seq<Block>, blockMap: map<Id, nat>, workoutMap: map<Id, Slot>,
                        ghost p: seq<SessionRow>, row: SessionRow)
    returns (blocks': seq<Block>, workoutMap': map<Id, Slot>)
    requires MapsAgree(blocks, blockMap, workoutMap) && workoutMap.Keys == KeySet(WorkoutKeys(p))
    requires Truthy(row.blockId) ==> row.blockId.value in blockMap
    ensures blocks' == Phase2(p, row, blocks)
    ensures MapsAgree(blocks', blockMap, workoutMap')
    ensures workoutMap'.Keys == KeySet(WorkoutKeys(p + [row]))
    ensures Contributes(row) ==> row.workoutId.value in workoutMap'
  {
    KeySetSnoc(WorkoutKeys(p), RowWorkoutKey(row));
    BlockKeysSnoc(p, row);
    blocks', workoutMap' := blocks, workoutMap;
    if Truthy(row.blockId) && Truthy(row.workoutId) {
      var bk := blockMap[row.blockId.value];
      var w := row.workoutId.value;
      if w !in workoutMap {
        AddWorkoutAgrees(blocks, blockMap, workoutMap, bk, WorkoutOf(row));
        workoutMap' := workoutMap[w := Slot(bk, |blocks[bk].workouts|)];
        blocks' := blocks[bk := blocks[bk].(workouts := blocks[bk].workouts + [WorkoutOf(row)])];
      }
    }
  }

  /** The third step: push the row's exercise onto its workout, wherever that
      workout was created. */
  method AddExerciseStep(blocks: seq<Block>, blockMap: map<Id, nat>, workoutMap: map<Id, Slot>, row: SessionRow)
    returns (blocks': seq<Block>)
    requires MapsAgree(blocks, blockMap, workoutMap)
    requires Contributes(row) ==> row.workoutId.value in workoutMap
    ensures blocks' == Phase3(row, blocks)
    ensures MapsAgree(blocks', blockMap, workoutMap)
  {
    blocks' := blocks;
    if Truthy(row.blockId) && Truthy(row.workoutId) && Truthy(row.exerciseId) {
      var w := row.workoutId.value;
      AddExerciseAgrees(blocks, blockMap, workoutMap, w, ExerciseOf(row));
      var s := workoutMap[w];
      var wk := blocks[s.block].workouts[s.workout];
      blocks' := blocks[s.block := blocks[s.block].(workouts :=
                   blocks[s.block].workouts[s.workout := wk.(exercises := wk.exercises + [ExerciseOf(row)])])];
    }
  }

  /** fetchSessionById, after the query: null when there are no rows, otherwise
      the first row's session with its blocks, each block's workouts and each
      workout's exercises, deduplicated through maps from block id and from
      workout id to the node already created. */
  method FetchSessionById(rows: seq<SessionRow>) returns (session: Option<Session>)
    ensures session.None? <==> rows == []
    ensures session.Some? ==> session.value == SessionOf(rows[0], SessionBlocks(rows))
    ensures session.Some? ==> UniqueBlockIds(session.value.blocks) && UniqueWorkoutIds(session.value.blocks)
  {
    if |rows| == 0 {
      return None;
    }
    var blocks: seq<Block> := [];
    var blockMap: map<Id, nat> := map[];
    var workoutMap: map<Id, Slot> := map[];
    for i := 0 to |rows|
      invariant blocks == SessionBlocks(rows[..i])
      invariant blockMap.Keys == KeySet(BlockKeys(rows[..i]))
      invariant workoutMap.Keys == KeySet(WorkoutKeys(rows[..i]))
      invariant MapsAgree(blocks, blockMap, workoutMap)
    {
      assert rows[..i + 1] == rows[..i] + [rows[i]];
      SessionBlocksSnoc(rows[..i], rows[i]);
      var row := rows[i];
      blocks, blockMap := AddBlockStep(blocks, blockMap, workoutMap, rows[..i], row);
      blocks, workoutMap := AddWorkoutStep(blocks, blockMap, workoutMap, rows[..i], row);
      blocks := AddExerciseStep(blocks, blockMap, workoutMap, row);
    }
    assert rows[..|rows|] == rows;
    MapsAgreeUnique(blocks, blockMap, workoutMap);
    session := Some(SessionOf(rows[0], blocks));
  }

  // ---------------------------------------------------------------------------
  // Properties of the reference result.

  /** A row whose join found no block changes nothing, whatever its other columns. */
  lemma BlocklessRowIgnored(p: seq<SessionRow>, r: SessionRow)
    requires !Truthy(r.blockId)
    ensures SessionBlocks(p + [r]) == SessionBlocks(p)
  {
    SessionBlocksSnoc(p, r);
  }

  /** A row naming a block and a workout both seen before only pushes its
      exercise onto the workout where it was first created, even when that
      workout was created under another block. */
  lemma RepeatedWorkoutStays(p: seq<SessionRow>, r: SessionRow)
    requires Truthy(r.blockId) && r.blockId.value in KeySet(BlockKeys(p))
    requires Truthy(r.workoutId) && r.workoutId.value in KeySet(WorkoutKeys(p))
    ensures SessionBlocks(p + [r]) == Phase3(r, SessionBlocks(p))
  {
    SessionBlocksSnoc(p, r);
  }

  /** Block k is headed by the k-th first block row. */
  lemma SessionBlockAt(rows: seq<SessionRow>, k: nat)
    requires k < |SessionBlocks(rows)|
    ensures k < |Firsts(BlockKeys(rows))|
    ensures BlockKeys(rows)[Firsts(BlockKeys(rows))[k]] == Some(SessionBlocks(rows)[k].id)
  {
    FirstsIndices(rows);
  }

  /** Blocks have distinct ids and every block id of the rows has its block. */
  lemma SessionBlocksIds(rows: seq<SessionRow>)
    ensures UniqueBlockIds(SessionBlocks(rows))
    ensures forall j :: 0 <= j < |rows| && Truthy(rows[j].blockId) ==>
              exists k :: 0 <= k < |SessionBlocks(rows)| && SessionBlocks(rows)[k].id == rows[j].blockId.value
  {
    var keys := BlockKeys(rows);
    var fb := Firsts(keys);
    var bs := SessionBlocks(rows);
    forall a, b | 0 <= a < b < |bs| ensures bs[a].id != bs[b].id {
      SessionBlockAt(rows, a);
      SessionBlockAt(rows, b);
    }
    forall j | 0 <= j < |rows| && Truthy(rows[j].blockId)
      ensures exists k :: 0 <= k < |bs| && bs[k].id == rows[j].blockId.value
    {
      var k := FirstsCover(keys, j);
      FirstsIndices(rows);
      SessionBlockAt(rows, k);
    }
  }

  /** Blocks come in the order their ids first appear in the rows. */
  lemma SessionBlocksOrder(rows: seq<SessionRow>, a: nat, b: nat, j: nat)
    requires a < b < |SessionBlocks(rows)| && j < |rows|
    requires rows[j].blockId == Some(SessionBlocks(rows)[b].id)
    ensures exists i :: 0 <= i < j && rows[i].blockId == Some(SessionBlocks(rows)[a].id)
  {
    var keys := BlockKeys(rows);
    SessionBlockAt(rows, a);
    SessionBlockAt(rows, b);
    assert keys[j] == rows[j].blockId;
    FirstsOrder(keys, a, b, j);
    assert rows[Firsts(keys)[a]].blockId == Some(SessionBlocks(rows)[a].id);
  }
}
