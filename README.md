# hplan core, modelled in Dafny

hplan is a web application for gym coaches. A coach writes training **plans**. A plan is split into **cicles**, a cicle into **sessions** (days), a session into **blocks**, and a block holds **workouts**. A workout lists **exercises** from an exercise catalogue.

This project models the parts of hplan that contain logic:

- **Hydration of query rows into trees** (`app/lib/data.ts`).
  - Each by-id fetcher receives the flat rows of a chain of LEFT JOINs. It builds a nested object, using maps from ids to the nodes already created.
  - The paginated workout list groups its rows by workout.
  - The page offset and page count arithmetic of the three list queries is modelled too.
  - Each fetcher is a method with a loop. It is proved equal to a declarative reference function, and the promised properties are proved as lemmas about that function:
    - null exactly for no rows;
    - first-seen order;
    - distinct ids;
    - where repeated or null join columns go.
- **The editors' child lists** (`app/ui/...`).
  - The block, session, cicle and plan editors each keep an ordered list of children in component state. Each is modelled as a class with `seq` fields.
  - "Add" appends one child at the next position (`last.position + 1`, or 0), carrying the id the server returned.
  - "Delete" removes one index, and only after the user confirmed and the server succeeded.
  - Rendering sorts the list in place by position. It is modelled as a stable sort.
  - The block editor also keeps a parallel list of "editing" flags. Its invariant `|editing| == |workouts|` is proved across all handlers.
  - The block view (`show-block.tsx`) adds an image modal and a map of exercises whose image failed to load.
  - The block view's state-changing handlers are textually the same as the block editor's (`show-block.tsx:48-105`). So `ShowBlock` holds a `BlockForm` and reuses its methods.
- **The workout forms** (`app/ui/workouts/...`).
  - The exercise picker appends one exercise when the selected id is found in the catalogue.
  - The submit step zips six parallel form fields into exercise records. It then appends one `workout_exercises` entry holding the records and deletes the six fields.
  - A browser `FormData` is modelled as a class over an ordered entry list.
  - It is proved that, for the form these components render, record i gets exercise i's values and position i.
- **Two pure functions.**
  - The login redirect rule (`middleware.ts`).
  - The image-key sanitisation, key and URL construction, and the "vercel" filter of the image migration script (`scripts/optimizeExercisesImages.js`).

## Conventions

- **The database.** The SQL text and the database are not modelled. A query result is an input `seq` of rows in the order the database returns them. No data-layer sort is added, because only the workout list query has an `ORDER BY`.
- **Nullable columns.** A join-key column is an `Option<Id>`.
- **Column truthiness.** A key column counts as present when it is `Some(v)` with `v != ""`, as JavaScript truthiness of a string (`Grouping.Truthy`).
- **Other columns.** Columns the code only copies are plain values.
- **Object fields.** A field that one construction site sets and another leaves out is an `Option` (`None` is `undefined`).
- **Server actions.** The server actions the editors call (`createSession`, `deleteSessionBlock`, `duplicateSession`, `updatePlan`, ...) are not part of this model. Their answers are parameters: a returned id, a success flag, or a result record. Each handler returns the arguments it sends.
- **Browser inputs.**
  - `window.confirm` is a boolean parameter.
  - The `block` search parameter is an `Option<string>`.
  - `Date.now()` is a per-row stamp parameter.
- **JavaScript conversions.**
  - `Number(...)` is applied to a form field. It is modelled on decimal digit strings, where the empty string gives 0. Anything else is NaN, written `None`.
  - `String(n)` and `'...' + n` are modelled as the decimal rendering (`Text.NatToString`).
- **`Object.values(groupedWorkouts)`.** It is modelled as first-insertion order. The keys are UUIDs, and JavaScript lists non-numeric keys in insertion order.

## Model

| member | source | states |
|---|---|---|
| Pagination.PageOffset | app/lib/data.ts:88 | `(currentPage-1)*perPage`; page 1 has offset 0 and no page from 1 on has a negative offset |
| Pagination.PageOffsetStep | app/lib/data.ts:88 | consecutive pages start exactly `perPage` rows apart, so pages never overlap |
| Pagination.TotalPages | app/lib/data.ts:125 | `ceil(count/perPage)`: zero pages exactly for zero rows, and `(pages-1)*perPage < count <= pages*perPage` otherwise |
| Pagination.PagesCoverRows | app/lib/data.ts:243 | every page from 1 to the page count starts at an existing row; the page after the last starts past the end |
| Pagination.ExercisesPageOffset | app/lib/data.ts:86-88 | exercise list offset with 10 rows per page: non-negative and a multiple of 10 |
| Pagination.ExercisesTotalPages | app/lib/data.ts:125 | exercise page count with 10 per page, with the ceiling bounds |
| Pagination.WorkoutsPageOffset | app/lib/data.ts:157-159 | workout list offset with 10 rows per page |
| Pagination.WorkoutsTotalPages | app/lib/data.ts:243 | workout page count with 10 per page, with the ceiling bounds |
| Pagination.PlansPageOffset | app/lib/data.ts:320-322 | plan list offset with 20 rows per page |
| Pagination.PlansTotalPages | app/lib/data.ts:355 | plan page count with 20 per page, with the ceiling bounds |
| Grouping.KeyOf | app/lib/data.ts:404 | a key column counts exactly when it is a non-empty string |
| Grouping.Firsts | app/lib/data.ts:400-424 | the rows where a key is seen for the first time: increasing, every listed row is a first occurrence, every first occurrence is listed, and listed rows have distinct keys |
| Grouping.FirstsSnoc | app/lib/data.ts:406-422 | one more row adds its index exactly when its key is present and new |
| Grouping.FirstsCover | app/lib/data.ts:404-421 | every row with a present key has its key's first row listed |
| Grouping.FirstsOrder | app/lib/data.ts:421 | nodes come out in the order their keys first appear in the rows |
| WorkoutQueries.AddNewGroup | app/lib/data.ts:201-221 | a row of a workout not seen before creates that workout after the ones already listed, with the row's exercise as its only entry; the id map gains that workout and still locates every workout |
| WorkoutQueries.AddToGroup | app/lib/data.ts:212-221 | a row of a workout already seen appends its exercise to that workout only; the list equals the reference grouping of the rows so far and the id map still locates every workout |
| WorkoutQueries.FetchFilteredWorkoutsByPage | app/lib/data.ts:196-224 | the grouping loop's result equals the reference list: one workout per distinct workout id in first-seen order, taking its attributes from its first row, holding one entry per row of that workout |
| WorkoutQueries.EntriesOf | app/lib/data.ts:212-221 | a workout never has more entries than there are rows |
| WorkoutQueries.WorkoutListIds | app/lib/data.ts:201-210 | listed workouts have distinct ids, and every row's workout is listed |
| WorkoutQueries.RowWithoutExerciseListed | app/lib/data.ts:212-221 | every row adds its entry to its workout, including a row whose join found no exercise |
| WorkoutQueries.WorkoutListOrder | app/lib/data.ts:224 | workouts come in the order their ids first appear in the rows |
| WorkoutQueries.FetchWorkoutById | app/lib/data.ts:278-308 | null exactly when there are no rows; otherwise the first row's workout, with an exercise for each row that names one, in row order, each carrying the first row's id |
| WorkoutQueries.ExercisesOfFacts | app/lib/data.ts:292-307 | the workout has exactly as many exercises as there are rows with an exercise id; each has `workout_id` = the fetched id and a non-empty exercise id |
| PlanQueries.FetchPlanById | app/lib/data.ts:385-424 | null exactly when there are no rows; otherwise the first row's plan, with the cicles built by the deduplicating loop equal to the reference list |
| PlanQueries.CiclesOfFacts | app/lib/data.ts:400-424 | distinct cicle ids; every cicle id of the rows has its cicle; each cicle has no sessions and the plan id of a row |
| PlanQueries.CiclesOfOrder | app/lib/data.ts:402-421 | cicles come in first-seen order of their ids, attributes from the first occurrence |
| PlanQueries.FetchCicleById | app/lib/data.ts:457-486 | null exactly when there are no rows; otherwise the first row's cicle with one session per row naming a session, in row order |
| PlanQueries.SessionsOfFacts | app/lib/data.ts:472-486 | the session count equals the number of rows with a session id; every session has `cicle_id` and `plan_id` from the first row and no blocks |
| PlanQueries.SessionsOfKeepsRepeats | app/lib/data.ts:473-484 | a row naming a session always appends it, even when the same session was already added: no deduplication |
| SessionQuery.RowWorkoutKey | app/lib/data.ts:560-580 | a row's workout id counts only when both its block id and its workout id are present |
| SessionQuery.SessionBlocksSnoc | app/lib/data.ts:558-612 | the reference tree of `rows + [r]` is the tree of `rows` after the loop body's three steps for `r`: new block, new workout, pushed exercise |
| SessionQuery.AddBlockStep | app/lib/data.ts:560-577 | the loop body's first step creates the row's block exactly when its id is present and new, and keeps `blockMap` locating exactly the tree's blocks |
| SessionQuery.AddWorkoutStep | app/lib/data.ts:580-593 | the second step creates the row's workout under the row's block exactly when its id is present and new, and keeps `workoutMap` locating exactly the tree's workouts |
| SessionQuery.AddExerciseStep | app/lib/data.ts:596-609 | the third step pushes the row's exercise onto the workout `workoutMap` names, and the maps still agree with the tree |
| SessionQuery.MapsAgreeUnique | app/lib/data.ts:555-556 | while the two maps agree with the tree, block ids and workout ids are unique in it |
| SessionQuery.AddBlockAgrees | app/lib/data.ts:564-577 | creating a block with a new id keeps the maps in agreement |
| SessionQuery.AddWorkoutAgrees | app/lib/data.ts:583-593 | creating a workout with a new id under the row's block keeps the maps in agreement |
| SessionQuery.AddExerciseAgrees | app/lib/data.ts:596-609 | pushing an exercise through `workoutMap` changes exactly the workout it names, wherever it lives |
| SessionQuery.FetchSessionById | app/lib/data.ts:537-612 | null exactly when there are no rows; otherwise the first row's session with the blocks equal to the reference tree; block ids and workout ids are unique across the tree |
| SessionQuery.BlocklessRowIgnored | app/lib/data.ts:560 | a row with no block id changes nothing, whatever its workout and exercise columns hold |
| SessionQuery.RepeatedWorkoutStays | app/lib/data.ts:580-609 | a row whose block and workout were both seen before only pushes its exercise onto that workout's first placement, even under another block |
| SessionQuery.SessionBlockAt | app/lib/data.ts:564-576 | block k is the one created by the k-th row whose block id is new |
| SessionQuery.SessionBlocksIds | app/lib/data.ts:560-577 | block ids are distinct and every block id of the rows has its block |
| SessionQuery.SessionBlocksOrder | app/lib/data.ts:575-576 | blocks come in the order their ids first appear |
| Positions.NextPositionAbove | app/ui/cicles/edit-cicle-form.tsx:56 | on a list ascending by position, the next position is above every position |
| Positions.AppendAtNextPosition | app/ui/cicles/edit-cicle-form.tsx:51-66 | appending at the next position keeps an (strictly) ascending list (strictly) ascending |
| Positions.RemoveAt | app/ui/cicles/edit-cicle-form.tsx:76 | the index filter: one fewer element, the elements before and after the index in order, and the removed one is all that is lost |
| Positions.RemoveAtKeepsOrder | app/ui/plans/edit-plan-form.tsx:72 | removing an index keeps an ascending list ascending |
| Positions.SortByKeyCorrect | app/ui/cicles/edit-cicle-form.tsx:341 | the sort by position returns an ascending permutation of the list, and it is stable: elements with equal positions keep their order |
| Positions.SortByKeyOfSorted | app/ui/plans/edit-plan-form.tsx:316 | a list already in ascending order by position, equal positions included, is left as it is |
| Positions.SortedNextPositionAbove | app/ui/cicles/edit-cicle-form.tsx:340-341 | after the render sort, `last.position + 1` is above the position of every child, whatever the earlier order |
| Positions.AllFalse | app/ui/sessions/edit-block-form.tsx:37 | `new Array(n).fill(false)`: n flags, all false |
| Positions.OnlyTrue | app/ui/sessions/edit-block-form.tsx:39-40 | all flags false and then flag i set; the list grows by one when i is its length |
| BlockEditors.InitiallyCollapsed | app/ui/sessions/show-block.tsx:59 | a block starts expanded exactly when the `block` search parameter equals its id |
| BlockEditors.NewWorkout | app/ui/sessions/edit-block-form.tsx:52-60 | the new workout has the returned id, the given position and no exercises |
| BlockEditors.BlockForm.constructor | app/ui/sessions/edit-block-form.tsx:35-49 | the workouts are the block's, the flags are all false and as many, and the block starts collapsed unless named |
| BlockEditors.BlockForm.HandleSubmit | app/ui/sessions/edit-block-form.tsx:24-33 | on success, name and description come from the result and editing ends; otherwise nothing changes |
| BlockEditors.BlockForm.HandleIsEditingWorkout | app/ui/sessions/edit-block-form.tsx:38-42 | exactly flag i is true; the workouts are untouched; equal lengths are kept for an index in range |
| BlockEditors.BlockForm.HandleCancelIsEditing | app/ui/sessions/edit-block-form.tsx:44-47 | every flag false, length unchanged |
| BlockEditors.BlockForm.HandleAddWorkout | app/ui/sessions/edit-block-form.tsx:51-70 | the next position is both sent to the server and stored; exactly one workout with the returned id is appended; the flags grow by one with only the new last flag true |
| BlockEditors.BlockForm.HandleDeleteWorkout | app/ui/sessions/edit-block-form.tsx:72-81 | the chosen workout's id is sent only after confirmation; workout and flag at the index are removed only when confirmed and successful; the lengths stay equal |
| BlockEditors.BlockForm.SortWorkouts | app/ui/sessions/edit-block-form.tsx:228 | the render sort replaces the workouts by their stable sort by position |
| BlockEditors.ShowBlock.constructor | app/ui/sessions/show-block.tsx:24-61 | modal closed with empty selection, no image marked invalid, and the block state as in the editor: the block's id, name, description and workouts, all flags false, not editing, collapse from the search parameter |
| BlockEditors.ShowBlock.OpenImageModal | app/ui/sessions/show-block.tsx:30-37 | the five selected fields take the arguments and the modal opens |
| BlockEditors.ShowBlock.CloseImageModal | app/ui/sessions/show-block.tsx:39-46 | the modal closes and the five selected fields are reset to '' |
| BlockEditors.ShowBlock.SetExercisesIdInvalidImage | app/ui/sessions/show-block.tsx:121-127 | the entry for the id becomes the value, every other entry is kept, and the exercise's image is shown exactly when it has a url and was not marked invalid (line 188); the modal flag and the five selected fields stay as they were |
| ListEditors.DeleteErrorText | app/ui/cicles/edit-cicle-form.tsx:79 | `result.message \|\| 'Error desconocido'`: never empty; the message when it is a non-empty string |
| ListEditors.DefaultName | app/ui/sessions/edit-session-form.tsx:39 | the prefix followed by text that reads back as the number n+1 |
| ListEditors.NewBlock | app/ui/sessions/edit-session-form.tsx:37-45 | named 'Bloque ' + (n+1), at the given position, with the session's ids, no video url and no workouts |
| ListEditors.SessionForm.constructor | app/ui/sessions/edit-session-form.tsx:34 | the block list starts as the session's blocks |
| ListEditors.SessionForm.HandleSubmit | app/ui/sessions/edit-session-form.tsx:20-32 | on success name and description come from the result; on failure the session is untouched |
| ListEditors.SessionForm.HandleAddBlock | app/ui/sessions/edit-session-form.tsx:36-50 | sends the new block at the next position and appends it, carrying the returned id; earlier blocks are unchanged |
| ListEditors.SessionForm.HandleDeleteBlock | app/ui/sessions/edit-session-form.tsx:52-60 | removes exactly the chosen index when confirmed and successful; otherwise unchanged |
| ListEditors.SessionForm.SortBlocks | app/ui/sessions/edit-session-form.tsx:318 | the blocks become their stable sort by position |
| ListEditors.NewSession | app/ui/cicles/edit-cicle-form.tsx:52-62 | named 'Día ' + (n+1), empty description, image and video, the cicle's ids, no blocks |
| ListEditors.SessionOfDuplicate | app/ui/cicles/edit-cicle-form.tsx:89-99 | the duplicated session takes every field from the server's answer and has no blocks |
| ListEditors.CicleForm.constructor | app/ui/cicles/edit-cicle-form.tsx:49-69 | the sessions start as the cicle's and the delete error is empty |
| ListEditors.CicleForm.HandleSubmit | app/ui/cicles/edit-cicle-form.tsx:19-32 | on success name, description and image url come from the result |
| ListEditors.CicleForm.HandleIsEditing | app/ui/cicles/edit-cicle-form.tsx:34-47 | sets the editing flag; name, description, image url, sessions and delete error stay as they were |
| ListEditors.CicleForm.HandleAddSession | app/ui/cicles/edit-cicle-form.tsx:51-67 | sends the new session at the next position and appends exactly it with the returned id; name, description and image url stay as they were |
| ListEditors.CicleForm.HandleDeleteSession | app/ui/cicles/edit-cicle-form.tsx:71-82 | success removes exactly the chosen index; failure keeps the list and sets the error text; unconfirmed changes nothing; name, description and image url stay as they were |
| ListEditors.CicleForm.HandleDuplicateSession | app/ui/cicles/edit-cicle-form.tsx:84-102 | confirmed: sends the session's id and the next position, and appends the server's copy with no blocks; unconfirmed: nothing sent, nothing changed; name, description and image url stay as they were |
| ListEditors.CicleForm.SortSessions | app/ui/cicles/edit-cicle-form.tsx:341 | the sessions become their stable sort by position; name, description and image url stay as they were |
| ListEditors.NewCicle | app/ui/plans/edit-plan-form.tsx:49-58 | named 'Ciclo ' + (n+1), at the given position, with the plan's id and no sessions |
| ListEditors.PlanForm.constructor | app/ui/plans/edit-plan-form.tsx:46-65 | the cicles start as the plan's and the delete error is empty |
| ListEditors.PlanForm.HandleSubmit | app/ui/plans/edit-plan-form.tsx:19-29 | on success name, description and image url come from the result |
| ListEditors.PlanForm.HandleIsEditing | app/ui/plans/edit-plan-form.tsx:31-44 | sets the editing flag; name, description, image url, cicles and delete error stay as they were |
| ListEditors.PlanForm.HandleAddCicle | app/ui/plans/edit-plan-form.tsx:48-63 | sends the new cicle at the next position and appends exactly it with the returned id; name, description and image url stay as they were |
| ListEditors.PlanForm.HandleDeleteCicle | app/ui/plans/edit-plan-form.tsx:67-78 | success removes exactly the chosen index; failure keeps the list and sets the error text; name, description and image url stay as they were |
| ListEditors.PlanForm.SortCicles | app/ui/plans/edit-plan-form.tsx:316 | the cicles become their stable sort by position; name, description and image url stay as they were |
| Text.NatToString | app/ui/sessions/edit-session-form.tsx:39 | the decimal text of a number: non-empty, digits only, no leading zero |
| Text.NumberOf | app/ui/workouts/create-workout-form.tsx:45 | `Number(s)` is a number exactly for a digit string, and then non-negative |
| Text.NumberOfNatToString | app/ui/workouts/create-workout-form.tsx:45 | `Number(String(n)) == n`: reading back a rendered number gives the number |
| Text.ContainsAt | scripts/optimizeExercisesImages.js:50 | `includes` holds exactly when the text occurs at some offset |
| WorkoutForms.FormData.Append | app/ui/workouts/create-workout-form.tsx:52 | adds one entry at the end |
| WorkoutForms.FormData.Delete | app/ui/workouts/create-workout-form.tsx:53 | removes every entry of that name, keeping the rest in order |
| WorkoutForms.At | app/ui/workouts/create-workout-form.tsx:46-49 | `values[i]` is the i-th value when it exists, `undefined` otherwise |
| WorkoutForms.PositionAt | app/ui/workouts/create-workout-form.tsx:45 | `Number(positions[i])`: the number read from a digit string, NaN past the end |
| WorkoutForms.Zipped | app/ui/workouts/create-workout-form.tsx:41-51 | one record per `exercise_id` value |
| WorkoutForms.ZipExercises | app/ui/workouts/create-workout-form.tsx:41-51 | the loop's records are exactly the zip: record i takes the i-th id, position, weight, reps, notes and rest |
| WorkoutForms.FormatExercises | app/ui/workouts/create-workout-form.tsx:33-53 | the records are the zip of the form's six fields; the form ends as its other entries in order plus one `workout_exercises` entry holding the records |
| WorkoutForms.DeleteExerciseFields | app/ui/workouts/create-workout-form.tsx:53 | deleting the six per-exercise fields leaves every other entry, in order, and nothing of those fields |
| WorkoutForms.KeepMore | app/ui/workouts/create-workout-form.tsx:53 | deleting the fields one after another equals deleting them all at once |
| WorkoutForms.FormattedFormFields | app/ui/workouts/create-workout-form.tsx:52-53 | after the submit step no per-exercise field remains, and other fields keep their values |
| WorkoutForms.KeepTextValues | app/ui/workouts/create-workout-form.tsx:53 | deleting some names leaves the values of every other name as they were |
| WorkoutForms.InputsAtValues | app/ui/workouts/create-workout-form.tsx:254-290 | one rendered exercise holds exactly one value of each of the six fields |
| WorkoutForms.OneValue | app/ui/workouts/create-workout-form.tsx:254-290 | a field name carried by exactly one text input reads back as that input's value alone |
| WorkoutForms.RenderedField | app/ui/workouts/create-workout-form.tsx:251-290 | in a rendered form, field f lists that field of every exercise, in list order |
| WorkoutForms.RenderedFormZips | app/ui/workouts/create-workout-form.tsx:255 | submitting a rendered form zips exercise i with its own entered values and position i, so the positions are 0..n-1 in order |
| WorkoutForms.ZippedFields | app/ui/workouts/create-workout-form.tsx:42-50 | the zip of field lists that come from one exercise list is that list's records |
| WorkoutForms.Find | app/ui/workouts/create-workout-form.tsx:25 | `find`: none exactly when no entry has the id; otherwise the first entry with the id |
| WorkoutForms.CreateWorkoutForm.constructor | app/ui/workouts/create-workout-form.tsx:15-21 | the type starts as 'rounds', no selection, no exercises |
| WorkoutForms.CreateWorkoutForm.HandleOptionChange | app/ui/workouts/create-workout-form.tsx:16-18 | the type becomes the chosen option |
| WorkoutForms.CreateWorkoutForm.SelectExercise | app/ui/workouts/create-workout-form.tsx:231 | the selection becomes the chosen id |
| WorkoutForms.CreateWorkoutForm.HandleAddExercise | app/ui/workouts/create-workout-form.tsx:23-31 | appends the catalogue entry and clears the selection only when the selection is non-empty and found; otherwise nothing changes |
| WorkoutForms.CreateWorkoutForm.FormatDataAndCreateWorkout | app/ui/workouts/create-workout-form.tsx:33-56 | what `createWorkout` receives is the submit step's form |
| WorkoutForms.NewExercise | app/ui/workouts/edit-workout-form.tsx:27-37 | the picked exercise, attached to the workout, at the given position, with empty weight, reps, notes, rest and image url |
| WorkoutForms.EditWorkoutForm.constructor | app/ui/workouts/edit-workout-form.tsx:15-21 | the list starts as the workout's exercises, or empty when it has none |
| WorkoutForms.EditWorkoutForm.HandleOptionChange | app/ui/workouts/edit-workout-form.tsx:16-18 | the type becomes the chosen option |
| WorkoutForms.EditWorkoutForm.SelectExercise | app/ui/workouts/edit-workout-form.tsx:190 | the selection becomes the chosen id |
| WorkoutForms.EditWorkoutForm.HandleAddExercise | app/ui/workouts/edit-workout-form.tsx:23-42 | appends a new exercise at position = current list length only when the selection is non-empty and found, then clears the selection |
| WorkoutForms.EditWorkoutForm.FormatDataAndUpdateWorkout | app/ui/workouts/edit-workout-form.tsx:44-67 | `updateWorkout` receives the workout's id and the submit step's form |
| Middleware.Middleware | middleware.ts:4-15 | a session on a '/login' path goes to '/dashboard'; no session off '/login' goes to '/login'; nothing else is redirected |
| Middleware.PassThrough | middleware.ts:8-14 | a request passes exactly when the session is present and the path is off '/login', or absent and on it |
| Middleware.NoRedirectLoop | middleware.ts:8-14 | following either redirect with the same cookie state is not redirected again |
| ImageMigration.Sanitize | scripts/optimizeExercisesImages.js:48 | same length; each ' ' and '/' becomes '-', every other character stays |
| ImageMigration.SanitizeRemoves | scripts/optimizeExercisesImages.js:48 | no space and no slash is left |
| ImageMigration.SanitizeIdempotent | scripts/optimizeExercisesImages.js:48 | sanitising twice is sanitising once |
| ImageMigration.KeyShape | scripts/optimizeExercisesImages.js:44-66 | the key starts with 'exercise_images/'; its only slash is that one; the sanitised name and then the stamp's digits follow, and those digits read back as the stamp |
| ImageMigration.NewUrlShape | scripts/optimizeExercisesImages.js:76 | the new url is the bucket's address followed by the key |
| ImageMigration.MigrateImages | scripts/optimizeExercisesImages.js:46-91 | the loop's updates and error outcome equal the reference migration |
| ImageMigration.MigrationAt | scripts/optimizeExercisesImages.js:50-84 | from row i on: a non-Vercel row is skipped, a failed transfer ends the run with an error, otherwise the row's update (when the database accepted it) comes before the rest |
| ImageMigration.MigrationUpdates | scripts/optimizeExercisesImages.js:50-84 | every update rewrites a Vercel-hosted exercise, whose transfer and update succeeded, to the url built from its own name and stamp |
| ImageMigration.MigrationAllOk | scripts/optimizeExercisesImages.js:46-91 | with no failures, each Vercel-hosted exercise is updated once, in row order, and no error is raised |
| ImageMigration.VercelUpdates | scripts/optimizeExercisesImages.js:50 | there are never more updates than rows |
| ImageMigration.VercelOnly | scripts/optimizeExercisesImages.js:50 | an exercise whose image url does not contain "vercel" is never updated |

## Left out

- The SQL text, the `sql` calls, `noStore` and the catch-and-rethrow wrappers of `app/lib/data.ts`. A database error is not modelled.
- Non-key columns that may be NULL are plain values here. A NULL, an absent join and an empty string all read the same in JavaScript's truthiness test. So the model keeps only the key columns optional.
- The aliasing of prop objects. The handlers' `block.name = ...`, `session.name = ...` and `newBlock.id = ...` mutate the object the parent component holds. Here the editor's fields are updated and the parent is not modelled.
- The in-render sort of each workout's exercises (`show-block.tsx:173`, `edit-block-form.tsx:242`). It mutates rows of the tree in place and has no effect on the modelled state.
- `isCollapsed` toggling, `handleEditWorkout` (a URL change), `useEffect`/`scrollIntoView`, and the JSX itself.
- The YouTube preview regex (`handleVideoPreview`). Its meaning depends on JavaScript regular-expression semantics.
- JSON serialisation of `workout_exercises`. The entry holds the records themselves, so how `JSON.stringify` writes `undefined` and NaN is not modelled.
- `Number(...)` on text other than decimal digits. Signs, spaces, decimals and exponents are all read as NaN here, although JavaScript accepts some of them.
- WorkoutForms.RenderedFormZips: proved for forms whose other fields come before the exercise list, as both components render them. A field with one of the six names placed elsewhere is not covered.
- The server actions the editors call. Their effects (cascade deletes, duplication) cannot be read from the code, so their answers are parameters.
- `optimizeGif` (a child process), `fetch`, the S3 upload, the S3 client set-up and the logging in the image migration script. Whether the transfer and the update succeed is a per-row parameter.
- The migration script's SQL `WHERE image_url IS NOT NULL AND image_url LIKE '%vercel%'` filter. The rows are an input, and the in-loop `includes("vercel")` test is modelled.
- `scripts/migrate.js`, which is table definitions only.
- The read-only plan, cicle and session views, which only sort and render.
- The login, registration, invoice and currency code of `app/lib/actions.ts` and `app/lib/data.ts`.
- `fetchCardData`'s concurrent queries.
- Interleaving of the asynchronous handlers. `BlockForm.HandleAddWorkout`, `BlockForm.HandleDeleteWorkout`, `SessionForm.HandleAddBlock`, `SessionForm.HandleDeleteBlock`, `CicleForm.HandleAddSession`, `CicleForm.HandleDeleteSession`, `CicleForm.HandleDuplicateSession`, `PlanForm.HandleAddCicle` and `PlanForm.HandleDeleteCicle` each read the list, await the server, then store a list built from what they read before the call. Each is modelled as one atomic step, so two overlapping clicks are not captured: in the source both adds send the same position and default name, and the second write drops the first child from the state while the server keeps both.
- Pagination.PageOffset: the page number is an integer. The list pages pass `Number(searchParams.page) || 1` (`app/dashboard/workouts/page.tsx:22`), which can also be fractional (`?page=1.5` gives offset 5 with 10 rows per page); negative integer pages are covered, fractional ones are not.
