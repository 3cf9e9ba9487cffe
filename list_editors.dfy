/** The editors of a session's blocks, a cicle's sessions and a plan's cicles.
    Each keeps an ordered child list in state: "add" appends one child at the
    next position carrying the id the server returned, "delete" removes one
    index after confirmation and a successful server call, and rendering sorts
    the list in place by position. Server calls are parameters carrying their
    answer; each handler returns what it sends. */
module ListEditors {
  import opened Wrappers
  import opened Entities
  import opened Text
  import opened Grouping
  import opened Positions

  /** The answer of `deleteSession` and `deleteCicle`. */
  datatype DeleteResult = DeleteResult(success: bool, message: Option<string>)

  /** The error shown after a failed delete: the server's message, or a fixed
      text when the message is missing or empty. */
  function DeleteErrorText(message: Option<string>): (text: string)
    ensures text != ""
    ensures Truthy(message) ==> text == message.value
    ensures !Truthy(message) ==> text == "Error desconocido"
  {
    if Truthy(message) then message.value else "Error desconocido"
  }

  /** The default name of the (n+1)-th child: a fixed prefix and the decimal count. */
  function DefaultName(prefix: string, count: nat): (name: string)
    ensures |name| > |prefix| && name[..|prefix|] == prefix
    ensures NumberOf(name[|prefix|..]) == Some(count + 1)
  {
    NumberOfNatToString(count + 1);
    assert (prefix + NatToString(count + 1))[|prefix|..] == NatToString(count + 1);
    prefix + NatToString(count + 1)
  }

  // ---------------------------------------------------------------------------
  // edit-session-form: the session's blocks.

  /** The block sent to `createSessionBlock`; the id is still empty then. */
  function NewBlock(sessionId: Id, planId: Id, count: nat, position: int): (b: Block)
    ensures b.id == "" && b.position == position && b.workouts == [] && b.videoUrl.None?
    ensures b.name == DefaultName("Bloque ", count) && b.sessionId == sessionId && b.planId == Some(planId)
  {
    Block("", DefaultName("Bloque ", count), "", None, position, sessionId, Some(planId), [])
  }

  class SessionForm {
    const sessionId: Id
    const planId: Id
    var name: string
    var description: string
    var isEditing: bool
    var blocks: seq<Block>

    constructor(session: Session)
      ensures sessionId == session.id && planId == session.planId
      ensures name == session.name && description == session.description
      ensures blocks == session.blocks && !isEditing
    {
      sessionId := session.id;
      planId := session.planId;
      name := session.name;
      description := session.description;
      isEditing := false;
      blocks := session.blocks;
    }

    method HandleSubmit(success: bool, resultName: string, resultDescription: string)
      modifies this
      ensures success ==> name == resultName && description == resultDescription && !isEditing
      ensures !success ==> name == old(name) && description == old(description) && isEditing == old(isEditing)
      ensures blocks == old(blocks)
    {
      if success {
        name := resultName;
        description := resultDescription;
        isEditing := false;
      }
    }

    /** Send a new block at the next position, then append it with the id the
        server returned; earlier blocks are untouched. */
    method HandleAddBlock(newId: Id) returns (sent: Block)
      modifies this
      ensures sent == NewBlock(sessionId, planId, |old(blocks)|, NextPosition(old(blocks), BlockPosition))
      ensures blocks == old(blocks) + [sent.(id := newId)]
      ensures name == old(name) && description == old(description) && isEditing == old(isEditing)
    {
      sent := NewBlock(sessionId, planId, |blocks|, NextPosition(blocks, BlockPosition));
      blocks := blocks + [sent.(id := newId)];
    }

    method HandleDeleteBlock(index: nat, confirmed: bool, success: bool) returns (sent: Option<Id>)
      requires confirmed ==> index < |blocks|
      modifies this
      ensures sent == (if confirmed then Some(old(blocks)[index].id) else None)
      ensures confirmed && success ==> blocks == RemoveAt(old(blocks), index)
      ensures !(confirmed && success) ==> blocks == old(blocks)
      ensures name == old(name) && description == old(description) && isEditing == old(isEditing)
    {
      sent := None;
      if confirmed {
        sent := Some(blocks[index].id);
        if success {
          blocks := RemoveAt(blocks, index);
        }
      }
    }

    method SortBlocks()
      modifies this
      ensures blocks == SortByKey(old(blocks), BlockPosition)
      ensures name == old(name) && description == old(description) && isEditing == old(isEditing)
    {
      blocks := SortByKey(blocks, BlockPosition);
    }
  }

  // ---------------------------------------------------------------------------
  // edit-cicle-form: the cicle's sessions.

  /** The session sent to `createSession`; the id is still empty then. */
  function NewSession(cicleId: Id, planId: Id, count: nat, position: int): (s: Session)
    ensures s.id == "" && s.position == position && s.blocks == []
    ensures s.name == DefaultName("Día ", count) && s.description == "" && s.imageUrl == "" && s.videoUrl == ""
    ensures s.cicleId == cicleId && s.planId == planId
  {
    Session("", DefaultName("Día ", count), "", position, "", "", planId, cicleId, [])
  }

  /** The answer of `duplicateSession`: the copy the server created. */
  datatype DuplicatedSession = DuplicatedSession(
    id: Id, name: string, description: string, position: int, planId: Id, cicleId: Id,
    imageUrl: string, videoUrl: string)

  /** The session appended for a duplicate: every field from the server's
      answer, with no blocks. */
  function SessionOfDuplicate(d: DuplicatedSession): (s: Session)
    ensures s.id == d.id && s.name == d.name && s.position == d.position && s.blocks == []
    ensures s.cicleId == d.cicleId && s.planId == d.planId
  {
    Session(d.id, d.name, d.description, d.position, d.imageUrl, d.videoUrl, d.planId, d.cicleId, [])
  }

  /** The arguments of `duplicateSession`. */
  datatype DuplicateCall = DuplicateCall(sessionId: Id, position: int)

  class CicleForm {
    const cicleId: Id
    const planId: Id
    var name: string
    var description: string
    var imageUrl: string
    var isEditing: bool
    var sessions: seq<Session>
    var deleteError: string

    constructor(cicle: Cicle)
      ensures cicleId == cicle.id && planId == cicle.planId
      ensures name == cicle.name && description == cicle.description && imageUrl == cicle.imageUrl
      ensures sessions == cicle.sessions && deleteError == "" && !isEditing
    {
      cicleId := cicle.id;
      planId := cicle.planId;
      name := cicle.name;
      description := cicle.description;
      imageUrl := cicle.imageUrl;
      isEditing := false;
      sessions := cicle.sessions;
      deleteError := "";
    }

    method HandleSubmit(success: bool, result: Cicle)
      modifies this
      ensures success ==> name == result.name && description == result.description
                          && imageUrl == result.imageUrl && !isEditing
      ensures !success ==> name == old(name) && description == old(description)
                           && imageUrl == old(imageUrl) && isEditing == old(isEditing)
      ensures sessions == old(sessions) && deleteError == old(deleteError)
    {
      if success {
        name := result.name;
        description := result.description;
        imageUrl := result.imageUrl;
        isEditing := false;
      }
    }

    method HandleIsEditing(value: bool)
      modifies this
      ensures isEditing == value
      ensures name == old(name) && description == old(description) && imageUrl == old(imageUrl)
      ensures sessions == old(sessions) && deleteError == old(deleteError)
    {
      isEditing := value;
    }

    method HandleAddSession(newId: Id) returns (sent: Session)
      modifies this
      ensures sent == NewSession(cicleId, planId, |old(sessions)|, NextPosition(old(sessions), SessionPosition))
      ensures sessions == old(sessions) + [sent.(id := newId)]
      ensures name == old(name) && description == old(description) && imageUrl == old(imageUrl)
      ensures deleteError == old(deleteError) && isEditing == old(isEditing)
    {
      sent := NewSession(cicleId, planId, |sessions|, NextPosition(sessions, SessionPosition));
      sessions := sessions + [sent.(id := newId)];
    }

    /** A confirmed delete that succeeds removes the session; one that fails
        keeps the list and records the error text. */
    method HandleDeleteSession(index: nat, confirmed: bool, result: DeleteResult) returns (sent: Option<Id>)
      requires confirmed ==> index < |sessions|
      modifies this
      ensures sent == (if confirmed then Some(old(sessions)[index].id) else None)
      ensures confirmed && result.success ==> sessions == RemoveAt(old(sessions), index) && deleteError == old(deleteError)
      ensures confirmed && !result.success ==> sessions == old(sessions) && deleteError == DeleteErrorText(result.message)
      ensures !confirmed ==> sessions == old(sessions) && deleteError == old(deleteError)
      ensures name == old(name) && description == old(description) && imageUrl == old(imageUrl)
      ensures isEditing == old(isEditing)
    {
      sent := None;
      if confirmed {
        sent := Some(sessions[index].id);
        if result.success {
          sessions := RemoveAt(sessions, index);
        } else {
          deleteError := DeleteErrorText(result.message);
        }
      }
    }

    /** A confirmed duplicate sends the session's id and the next position and
        appends the server's copy, whatever the copy says; the answer is not
        checked for success. */
    method HandleDuplicateSession(index: nat, confirmed: bool, result: DuplicatedSession) returns (sent: Option<DuplicateCall>)
      requires confirmed ==> index < |sessions|
      modifies this
      ensures sent == (if confirmed then Some(DuplicateCall(old(sessions)[index].id, NextPosition(old(sessions), SessionPosition))) else None)
      ensures confirmed ==> sessions == old(sessions) + [SessionOfDuplicate(result)]
      ensures !confirmed ==> sessions == old(sessions)
      ensures name == old(name) && description == old(description) && imageUrl == old(imageUrl)
      ensures deleteError == old(deleteError) && isEditing == old(isEditing)
    {
      sent := None;
      if confirmed {
        var position := NextPosition(sessions, SessionPosition);
        sent := Some(DuplicateCall(sessions[index].id, position));
        sessions := sessions + [SessionOfDuplicate(result)];
      }
    }

    method SortSessions()
      modifies this
      ensures sessions == SortByKey(old(sessions), SessionPosition)
      ensures name == old(name) && description == old(description) && imageUrl == old(imageUrl)
      ensures deleteError == old(deleteError) && isEditing == old(isEditing)
    {
      sessions := SortByKey(sessions, SessionPosition);
    }
  }

  // ---------------------------------------------------------------------------
  // edit-plan-form: the plan's cicles.

  /** The cicle sent to `createCicle`; the id is still empty then. */
  function NewCicle(planId: Id, count: nat, position: int): (c: Cicle)
    ensures c.id == "" && c.position == position && c.sessions == [] && c.planId == planId
    ensures c.name == DefaultName("Ciclo ", count) && c.description == "" && c.imageUrl == "" && c.videoUrl == ""
  {
    Cicle("", DefaultName("Ciclo ", count), "", position, "", "", planId, [])
  }

  class PlanForm {
    const planId: Id
    var name: string
    var description: string
    var imageUrl: string
    var isEditing: bool
    var cicles: seq<Cicle>
    var deleteError: string

    constructor(plan: Plan)
      ensures planId == plan.id && name == plan.name && description == plan.description
      ensures imageUrl == plan.imageUrl && cicles == plan.cicles && deleteError == "" && !isEditing
    {
      planId := plan.id;
      name := plan.name;
      description := plan.description;
      imageUrl := plan.imageUrl;
      isEditing := false;
      cicles := plan.cicles;
      deleteError := "";
    }

    method HandleSubmit(success: bool, result: Plan)
      modifies this
      ensures success ==> name == result.name && description == result.description
                          && imageUrl == result.imageUrl && !isEditing
      ensures !success ==> name == old(name) && description == old(description)
                           && imageUrl == old(imageUrl) && isEditing == old(isEditing)
      ensures cicles == old(cicles) && deleteError == old(deleteError)
    {
      if success {
        name := result.name;
        description := result.description;
        imageUrl := result.imageUrl;
        isEditing := false;
      }
    }

    method HandleIsEditing(value: bool)
      modifies this
      ensures isEditing == value
      ensures name == old(name) && description == old(description) && imageUrl == old(imageUrl)
      ensures cicles == old(cicles) && deleteError == old(deleteError)
    {
      isEditing := value;
    }

    method HandleAddCicle(newId: Id) returns (sent: Cicle)
      modifies this
      ensures sent == NewCicle(planId, |old(cicles)|, NextPosition(old(cicles), CiclePosition))
      ensures cicles == old(cicles) + [sent.(id := newId)]
      ensures name == old(name) && description == old(description) && imageUrl == old(imageUrl)
      ensures deleteError == old(deleteError) && isEditing == old(isEditing)
    {
      sent := NewCicle(planId, |cicles|, NextPosition(cicles, CiclePosition));
      cicles := cicles + [sent.(id := newId)];
    }

    method HandleDeleteCicle(index: nat, confirmed: bool, result: DeleteResult) returns (sent: Option<Id>)
      requires confirmed ==> index < |cicles|
      modifies this
      ensures sent == (if confirmed then Some(old(cicles)[index].id) else None)
      ensures confirmed && result.success ==> cicles == RemoveAt(old(cicles), index) && deleteError == old(deleteError)
      ensures confirmed && !result.success ==> cicles == old(cicles) && deleteError == DeleteErrorText(result.message)
      ensures !confirmed ==> cicles == old(cicles) && deleteError == old(deleteError)
      ensures name == old(name) && description == old(description) && imageUrl == old(imageUrl)
      ensures isEditing == old(isEditing)
    {
      sent := None;
      if confirmed {
        sent := Some(cicles[index].id);
        if result.success {
          cicles := RemoveAt(cicles, index);
        } else {
          deleteError := DeleteErrorText(result.message);
        }
      }
    }

    method SortCicles()
      modifies this
      ensures cicles == SortByKey(old(cicles), CiclePosition)
      ensures name == old(name) && description == old(description) && imageUrl == old(imageUrl)
      ensures deleteError == old(deleteError) && isEditing == old(isEditing)
    {
      cicles := SortByKey(cicles, CiclePosition);
    }
  }
}
