/** The state of the block editor and of the read-only block view: the block's
    workout list with a parallel list of "editing" flags, plus, in the view, an
    image modal and a map of exercises whose image failed to load. Server calls
    are parameters carrying their answer; each handler returns what it sends. */
module BlockEditors {
  import opened Wrappers
  import opened Entities
  import opened Positions

  /** A collapsed block unless the `block` search parameter names this block. */
  function InitiallyCollapsed(blockParam: Option<string>, blockId: Id): (collapsed: bool)
    ensures !collapsed <==> blockParam == Some(blockId)
  {
    blockParam != Some(blockId)
  }

  /** The workout appended by "add workout": the id the server returned, empty
      strings everywhere and no exercises. */
  function NewWorkout(id: Id, position: int): (w: BlockWorkout)
    ensures w.id == id && w.position == position && w.exercises == []
  {
    BlockWorkout(id, Some(""), "", position, "", Some(""), [])
  }

  /** The arguments of `createSessionBlockWorkout`. */
  datatype WorkoutCreation = WorkoutCreation(blockId: Id, position: int)

  /** `EditBlockForm`: the block's name and description (mutated in place on a
      successful submit), the workout list and its editing flags. */
  class BlockForm {
    const blockId: Id
    const isCollapsed: bool
    var name: string
    var description: string
    var isEditing: bool
    var workouts: seq<BlockWorkout>
    var editing: seq<bool>

    /** One editing flag per workout. */
    predicate Valid()
      reads this
    {
      |editing| == |workouts|
    }

    constructor(block: Block, blockParam: Option<string>)
      ensures Valid()
      ensures blockId == block.id && name == block.name && description == block.description
      ensures isCollapsed == InitiallyCollapsed(blockParam, block.id) && !isEditing
      ensures workouts == block.workouts && editing == AllFalse(|block.workouts|)
    {
      blockId := block.id;
      name := block.name;
      description := block.description;
      isEditing := false;
      isCollapsed := InitiallyCollapsed(blockParam, block.id);
      workouts := block.workouts;
      editing := AllFalse(|block.workouts|);
    }

    /** On success, the block takes the name and description the server
        returned and leaves edit mode; otherwise nothing changes. */
    method HandleSubmit(success: bool, resultName: string, resultDescription: string)
      modifies this
      ensures success ==> name == resultName && description == resultDescription && !isEditing
      ensures !success ==> name == old(name) && description == old(description) && isEditing == old(isEditing)
      ensures workouts == old(workouts) && editing == old(editing)
    {
      if success {
        name := resultName;
        description := resultDescription;
        isEditing := false;
      }
    }

    /** Exactly flag `index` is set; writing past the end lengthens the list. */
    method HandleIsEditingWorkout(index: nat)
      modifies this
      ensures editing == OnlyTrue(|old(editing)|, index)
      ensures workouts == old(workouts) && name == old(name) && description == old(description)
      ensures isEditing == old(isEditing)
      ensures old(Valid()) && index < |workouts| ==> Valid()
    {
      editing := OnlyTrue(|editing|, index);
    }

    method HandleCancelIsEditing()
      modifies this
      ensures editing == AllFalse(|old(editing)|)
      ensures workouts == old(workouts) && name == old(name) && description == old(description)
      ensures isEditing == old(isEditing)
      ensures old(Valid()) ==> Valid()
    {
      editing := AllFalse(|editing|);
    }

    /** The server is asked for a workout at the next position and the workout
        it created (`newId`) is appended at that position, being edited alone. */
    method HandleAddWorkout(newId: Id) returns (sent: WorkoutCreation)
      modifies this
      ensures sent == WorkoutCreation(blockId, NextPosition(old(workouts), WorkoutPosition))
      ensures workouts == old(workouts) + [NewWorkout(newId, sent.position)]
      ensures editing == OnlyTrue(|old(editing)|, |old(editing)|)
      ensures name == old(name) && description == old(description) && isEditing == old(isEditing)
      ensures old(Valid()) ==> Valid()
    {
      var position := NextPosition(workouts, WorkoutPosition);
      sent := WorkoutCreation(blockId, position);
      workouts := workouts + [NewWorkout(newId, position)];
      editing := OnlyTrue(|editing|, |editing|);
    }

    /** After confirmation the server is asked to delete workout `index`; when it
        reports success the workout and its flag are removed. */
    method HandleDeleteWorkout(index: nat, confirmed: bool, success: bool) returns (sent: Option<Id>)
      requires Valid()
      requires confirmed ==> index < |workouts|
      modifies this
      ensures sent == (if confirmed then Some(old(workouts)[index].id) else None)
      ensures confirmed && success ==>
                workouts == RemoveAt(old(workouts), index) && editing == RemoveAt(old(editing), index)
      ensures !(confirmed && success) ==> workouts == old(workouts) && editing == old(editing)
      ensures name == old(name) && description == old(description) && isEditing == old(isEditing)
      ensures Valid()
    {
      sent := None;
      if confirmed {
        sent := Some(workouts[index].id);
        if success {
          workouts := RemoveAt(workouts, index);
          editing := RemoveAt(editing, index);
        }
      }
    }

    /** Rendering sorts the workout list in place, ascending and stable by position. */
    method SortWorkouts()
      modifies this
      ensures workouts == SortByKey(old(workouts), WorkoutPosition)
      ensures editing == old(editing) && name == old(name) && description == old(description)
      ensures isEditing == old(isEditing)
      ensures old(Valid()) ==> Valid()
    {
      SortByKeyCorrect(workouts, WorkoutPosition);
      workouts := SortByKey(workouts, WorkoutPosition);
    }
  }

  /** `ShowBlock`: the same workout list state as the editor, plus the image
      modal and the exercises whose image failed to load. */
  class ShowBlock {
    const form: BlockForm
    var isImageModalOpen: bool
    var selectedName: string
    var selectedDescription: string
    var selectedNotes: string
    var selectedImage: string
    var selectedVideo: string
    var invalidImage: map<Id, bool>

    predicate Valid()
      reads this, form
    {
      form.Valid()
    }

    constructor(block: Block, blockParam: Option<string>)
      ensures fresh(form) && Valid()
      ensures form.blockId == block.id && form.workouts == block.workouts
      ensures form.name == block.name && form.description == block.description && !form.isEditing
      ensures form.editing == AllFalse(|block.workouts|)
      ensures form.isCollapsed == InitiallyCollapsed(blockParam, block.id)
      ensures !isImageModalOpen && selectedName == "" && selectedDescription == ""
      ensures selectedNotes == "" && selectedImage == "" && selectedVideo == ""
      ensures invalidImage == map[]
    {
      form := new BlockForm(block, blockParam);
      isImageModalOpen := false;
      selectedName, selectedDescription, selectedNotes := "", "", "";
      selectedImage, selectedVideo := "", "";
      invalidImage := map[];
    }

    method OpenImageModal(name: string, description: string, notes: string, imageUrl: string, videoUrl: string)
      modifies this
      ensures isImageModalOpen
      ensures selectedName == name && selectedDescription == description && selectedNotes == notes
      ensures selectedImage == imageUrl && selectedVideo == videoUrl
      ensures invalidImage == old(invalidImage)
    {
      selectedName := name;
      selectedDescription := description;
      selectedNotes := notes;
      selectedImage := imageUrl;
      selectedVideo := videoUrl;
      isImageModalOpen := true;
    }

    method CloseImageModal()
      modifies this
      ensures !isImageModalOpen
      ensures selectedName == "" && selectedDescription == "" && selectedNotes == ""
      ensures selectedImage == "" && selectedVideo == ""
      ensures invalidImage == old(invalidImage)
    {
      isImageModalOpen := false;
      selectedDescription := "";
      selectedName := "";
      selectedNotes := "";
      selectedImage := "";
      selectedVideo := "";
    }

    /** An exercise's image is shown when it has a url and has not been marked
        invalid (a missing entry reads as not invalid). */
    predicate ImageShown(e: WorkoutExercise)
      reads this
    {
      e.imageUrl != "" && !(e.exerciseId in invalidImage && invalidImage[e.exerciseId])
    }

    /** Record whether exercise `id`'s image failed; every other entry is kept. */
    method SetExercisesIdInvalidImage(id: Id, value: bool)
      modifies this
      ensures invalidImage == old(invalidImage)[id := value]
      ensures forall k :: k in old(invalidImage) && k != id ==> k in invalidImage && invalidImage[k] == old(invalidImage)[k]
      ensures forall e: WorkoutExercise :: e.exerciseId == id ==> (ImageShown(e) <==> e.imageUrl != "" && !value)
      ensures isImageModalOpen == old(isImageModalOpen) && selectedName == old(selectedName)
      ensures selectedDescription == old(selectedDescription) && selectedNotes == old(selectedNotes)
      ensures selectedImage == old(selectedImage) && selectedVideo == old(selectedVideo)
    {
      invalidImage := invalidImage[id := value];
    }
  }
}
