/** Hydration of a plan with its cicles and of a cicle with its sessions, from
    the rows of a LEFT JOIN. The query result is the input row sequence. */
module PlanQueries {
  import opened Wrappers
  import opened Entities
  import opened Grouping

  // ---------------------------------------------------------------------------
  // fetchPlanById: plans LEFT JOIN cicles.

  /** A row of the plan query; `cicleId` is null when the plan has no cicle. */
  datatype PlanRow = PlanRow(
    id: Id, name: string, description: string, imageUrl: string, videoUrl: string,
    cicleId: Option<Id>, cicleName: string, cicleDescription: string, ciclePosition: int,
    cicleImageUrl: string, cicleVideoUrl: string)

  function CicleKeys(rows: seq<PlanRow>): (keys: seq<Option<Id>>)
    ensures |keys| == |rows|
  {
    seq(|rows|, j requires 0 <= j < |rows| => KeyOf(rows[j].cicleId))
  }

  /** The cicle a row with a cicle id creates; its plan id is the row's plan id. */
  function CicleOf(r: PlanRow): Cicle
    requires r.cicleId.Some?
  {
    Cicle(r.cicleId.value, r.cicleName, r.cicleDescription, r.ciclePosition,
          r.cicleImageUrl, r.cicleVideoUrl, r.id, [])
  }

  /** The reference result: one cicle per distinct non-empty cicle id, built
      from the first row naming it, in first-seen order. */
  ghost function CiclesOf(rows: seq<PlanRow>): (cs: seq<Cicle>)
  {
    var f := Firsts(CicleKeys(rows));
    seq(|f|, k requires 0 <= k < |f| => CicleOf(rows[f[k]]))
  }

  function PlanOf(r: PlanRow, cicles: seq<Cicle>): Plan {
    Plan(r.id, r.name, r.description, r.imageUrl, r.videoUrl, cicles)
  }

  lemma CicleKeysSnoc(rows: seq<PlanRow>, r: PlanRow)
    ensures CicleKeys(rows + [r]) == CicleKeys(rows) + [KeyOf(r.cicleId)]
  {
    var p := rows + [r];
    assert forall j :: 0 <= j < |rows| ==> p[j] == rows[j];
  }

  /** A row whose cicle is absent or already seen leaves the cicles as they are;
      a row with a new cicle id appends its cicle. */
  lemma CiclesOfSnoc(rows: seq<PlanRow>, r: PlanRow)
    ensures CiclesOf(rows + [r]) ==
            CiclesOf(rows) + (if Truthy(r.cicleId) && r.cicleId.value !in KeySet(CicleKeys(rows))
                              then [CicleOf(r)] else [])
  {
    var p := rows + [r];
    CicleKeysSnoc(rows, r);
    FirstsSnoc(CicleKeys(rows), KeyOf(r.cicleId));
    var f := Firsts(CicleKeys(rows));
    var cs, cs2 := CiclesOf(rows), CiclesOf(p);
    forall k | 0 <= k < |f| ensures cs2[k] == cs[k] {
      assert p[f[k]] == rows[f[k]];
    }
    if Truthy(r.cicleId) && r.cicleId.value !in KeySet(CicleKeys(rows)) {
      assert cs2[|cs|] == CicleOf(p[|rows|]);
      assert cs2 == cs + [CicleOf(r)];
    } else {
      assert cs2 == cs;
    }
  }

  /** fetchPlanById, after the query: null when there are no rows, otherwise
      the first row's plan with one cicle per distinct cicle id, deduplicated
      through a map from cicle id to the cicle already pushed. */
  method FetchPlanById(rows: seq<PlanRow>) returns (plan: Option<Plan>)
    ensures plan.None? <==> rows == []
    ensures plan.Some? ==> plan.value == PlanOf(rows[0], CiclesOf(rows))
  {
    if |rows| == 0 {
      return None;
    }
    var cicles: seq<Cicle> := [];
    var cicleMap: map<Id, nat> := map[];
    for i := 0 to |rows|
      invariant cicleMap.Keys == KeySet(CicleKeys(rows[..i]))
      invariant forall c :: c in cicleMap ==> cicleMap[c] < |cicles| && cicles[cicleMap[c]].id == c
      invariant cicles == CiclesOf(rows[..i])
    {
      var row := rows[i];
      assert rows[..i + 1] == rows[..i] + [row];
      CicleKeysSnoc(rows[..i], row);
      KeySetSnoc(CicleKeys(rows[..i]), KeyOf(row.cicleId));
      CiclesOfSnoc(rows[..i], row);
      if Truthy(row.cicleId) {
        if row.cicleId.value !in cicleMap {
          cicleMap := cicleMap[row.cicleId.value := |cicles|];
          cicles := cicles + [CicleOf(row)];
        }
      }
    }
    assert rows[..|rows|] == rows;
    plan := Some(PlanOf(rows[0], cicles));
  }

  /** The cicles have distinct ids, every cicle id of the rows is among them,
      and each cicle belongs to the row's plan and has no sessions yet. */
  lemma CiclesOfFacts(rows: seq<PlanRow>)
    ensures forall a, b :: 0 <= a < b < |CiclesOf(rows)| ==> CiclesOf(rows)[a].id != CiclesOf(rows)[b].id
    ensures forall j :: 0 <= j < |rows| && Truthy(rows[j].cicleId) ==>
              exists k :: 0 <= k < |CiclesOf(rows)| && CiclesOf(rows)[k].id == rows[j].cicleId.value
    ensures forall c :: c in CiclesOf(rows) ==> c.sessions == [] && exists j :: 0 <= j < |rows| && rows[j].id == c.planId
  {
    var keys := CicleKeys(rows);
    var f := Firsts(keys);
    var cs := CiclesOf(rows);
    forall a, b | 0 <= a < b < |cs| ensures cs[a].id != cs[b].id {
      assert keys[f[a]] != keys[f[b]];
    }
    forall j | 0 <= j < |rows| && Truthy(rows[j].cicleId)
      ensures exists k :: 0 <= k < |cs| && cs[k].id == rows[j].cicleId.value
    {
      var k := FirstsCover(keys, j);
      assert cs[k].id == rows[j].cicleId.value;
    }
    forall c | c in cs ensures c.sessions == [] && exists j :: 0 <= j < |rows| && rows[j].id == c.planId {
      var k :| 0 <= k < |cs| && cs[k] == c;
      assert rows[f[k]].id == c.planId;
    }
  }

  /** Cicles come in the order their ids first appear in the rows. */
  lemma CiclesOfOrder(rows: seq<PlanRow>, a: nat, b: nat, j: nat)
    requires a < b < |CiclesOf(rows)| && j < |rows|
    requires rows[j].cicleId == Some(CiclesOf(rows)[b].id)
    ensures exists i :: 0 <= i < j && rows[i].cicleId == Some(CiclesOf(rows)[a].id)
  {
    var keys := CicleKeys(rows);
    var f := Firsts(keys);
    assert keys[f[b]] == Some(CiclesOf(rows)[b].id);
    FirstsOrder(keys, a, b, j);
    assert keys[f[a]] == Some(CiclesOf(rows)[a].id);
  }

  // ---------------------------------------------------------------------------
  // fetchCicleById: cicles LEFT JOIN sessions.

  /** A row of the cicle query; `sessionId` is null when the cicle has no session. */
  datatype CicleRow = CicleRow(
    id: Id, name: string, description: string, position: int, imageUrl: string,
    videoUrl: string, planId: Id,
    sessionId: Option<Id>, sessionName: string, sessionDescription: string,
    sessionPosition: int, sessionImageUrl: string, sessionVideoUrl: string)

  /** A session of the fetched cicle; cicle and plan ids come from the first row. */
  function SessionOf(r: CicleRow, root: CicleRow): Session
    requires r.sessionId.Some?
  {
    Session(r.sessionId.value, r.sessionName, r.sessionDescription, r.sessionPosition,
            r.sessionImageUrl, r.sessionVideoUrl, root.planId, root.id, [])
  }

  /** One session per row with a session id, in row order, without deduplication. */
  function SessionsOf(rows: seq<CicleRow>, root: CicleRow): seq<Session>
    decreases |rows|
  {
    if rows == [] then []
    else
      var r := rows[|rows| - 1];
      SessionsOf(rows[..|rows| - 1], root) + (if Truthy(r.sessionId) then [SessionOf(r, root)] else [])
  }

  function CountWithSession(rows: seq<CicleRow>): nat
    decreases |rows|
  {
    if rows == [] then 0
    else CountWithSession(rows[..|rows| - 1]) + (if Truthy(rows[|rows| - 1].sessionId) then 1 else 0)
  }

  function CicleOfRoot(root: CicleRow, sessions: seq<Session>): Cicle {
    Cicle(root.id, root.name, root.description, root.position, root.imageUrl, root.videoUrl,
          root.planId, sessions)
  }

  /** fetchCicleById, after the query: null when there are no rows, otherwise
      the first row's cicle with a session for each row that names one. */
  method FetchCicleById(rows: seq<CicleRow>) returns (cicle: Option<Cicle>)
    ensures cicle.None? <==> rows == []
    ensures cicle.Some? ==> cicle.value == CicleOfRoot(rows[0], SessionsOf(rows, rows[0]))
  {
    if |rows| == 0 {
      return None;
    }
    var sessions: seq<Session> := [];
    for i := 0 to |rows|
      invariant sessions == SessionsOf(rows[..i], rows[0])
    {
      assert rows[..i + 1][..i] == rows[..i];
      if Truthy(rows[i].sessionId) {
        sessions := sessions + [SessionOf(rows[i], rows[0])];
      }
    }
    assert rows[..|rows| - 0] == rows;
    cicle := Some(CicleOfRoot(rows[0], sessions));
  }

  /** There is one session per row naming a session, each of them attached to
      the root cicle and its plan. */
  lemma {:induction false} SessionsOfFacts(rows: seq<CicleRow>, root: CicleRow)
    ensures |SessionsOf(rows, root)| == CountWithSession(rows)
    ensures forall s :: s in SessionsOf(rows, root) ==>
              s.cicleId == root.id && s.planId == root.planId && s.blocks == [] && s.id != ""
    decreases |rows|
  {
    if rows != [] {
      SessionsOfFacts(rows[..|rows| - 1], root);
    }
  }

  /** A row naming a session always adds it, even when an earlier row already
      named the same session: the cicle query does not deduplicate. */
  lemma SessionsOfKeepsRepeats(rows: seq<CicleRow>, r: CicleRow, root: CicleRow)
    requires Truthy(r.sessionId)
    ensures SessionsOf(rows + [r], root) == SessionsOf(rows, root) + [SessionOf(r, root)]
  {
    assert (rows + [r])[..|rows|] == rows;
  }
}
