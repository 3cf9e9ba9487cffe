/** The nested objects that the data layer builds from query rows and that the
    editors keep in their lists. A field that one construction site sets and
    another leaves out is an `Option` (`None` is JavaScript's `undefined`). */
module Entities {
  import opened Wrappers

  /** Store-generated identifiers (UUID strings). */
  type Id = string

  datatype Plan = Plan(
    id: Id, name: string, description: string, imageUrl: string, videoUrl: string,
    cicles: seq<Cicle>)

  datatype Cicle = Cicle(
    id: Id, name: string, description: string, position: int,
    imageUrl: string, videoUrl: string, planId: Id, sessions: seq<Session>)

  datatype Session = Session(
    id: Id, name: string, description: string, position: int,
    imageUrl: string, videoUrl: string, planId: Id, cicleId: Id, blocks: seq<Block>)

  /** The data layer sets `videoUrl` and not `planId`; the session editor's new
      block sets `planId` and not `videoUrl`. */
  datatype Block = Block(
    id: Id, name: string, description: string, videoUrl: Option<string>, position: int,
    sessionId: Id, planId: Option<Id>, workouts: seq<BlockWorkout>)

  /** A workout as a block holds it. The data layer sets no `name` and no
      `workoutValue`; the block editors' new workout sets both to ''. */
  datatype BlockWorkout = BlockWorkout(
    id: Id, name: Option<string>, description: string, position: int,
    workoutType: string, workoutValue: Option<string>, exercises: seq<WorkoutExercise>)

  /** One exercise of a workout. `workoutId`, `description` and `videoUrl` are
      set by some construction sites only. */
  datatype WorkoutExercise = WorkoutExercise(
    workoutId: Option<Id>, exerciseId: Id, name: string, description: Option<string>,
    position: int, reps: string, weight: string, rest: string, notes: string,
    imageUrl: string, videoUrl: Option<string>)

  /** A workout fetched on its own, with its exercises. */
  datatype Workout = Workout(
    id: Id, name: string, description: string, workoutType: string, workoutValue: string,
    exercises: seq<WorkoutExercise>)

  /** One workout of the paginated workout list. */
  datatype WorkoutSummary = WorkoutSummary(
    id: Id, name: string, description: string, workoutType: string, workoutValue: string,
    exercises: seq<ListedExercise>)

  /** An exercise entry of the workout list; its `exerciseId` is copied from the
      row even when the join found no exercise. */
  datatype ListedExercise = ListedExercise(
    exerciseId: Option<Id>, reps: string, weight: string, rest: string, notes: string,
    position: int, name: string, imageUrl: string)

  /** An entry of the exercise catalogue's name list. */
  datatype ExerciseName = ExerciseName(id: Id, name: string)

  /** The sort keys of the editors' lists. */
  function CiclePosition(c: Cicle): int { c.position }
  function SessionPosition(s: Session): int { s.position }
  function BlockPosition(b: Block): int { b.position }
  function WorkoutPosition(w: BlockWorkout): int { w.position }
}
