/** When the services delete and when they refuse, in terms of the rows alone. */
module DeletionAnswers {
  import opened Sqlite
  import opened Store
  import opened SchemaV1
  import opened Texts
  import opened Services
  import opened Graph
  import opened GraphDeletes

  /** The row's column holds this id. */
  predicate Names(row: Row, c: Column, id: int) {
    c in row.refs && row.refs[c] == id
  }

  /** The texts of a row, none of which looks like a date. */
  predicate Legible(row: Row) {
    match row.data
    case WorkflowData(caption, description) =>
      !LooksLikeDate(caption) && (description == None || !LooksLikeDate(description.value))
    case StateData(caption, description, _, _, _, _) =>
      !LooksLikeDate(caption) && (description == None || !LooksLikeDate(description.value))
    case _ => true
  }

  lemma LegibleIsReadable(row: Row)
    ensures Legible(row) <==> Readable(row)
  {
  }

  // ---------------------------------------------------------------- workflows

  /** The workflow and all its states are there to read. */
  ghost predicate AllLegible(rows: Rows, w: int) {
    && Ref(Workflow, w) in rows && Legible(rows[Ref(Workflow, w)])
    && forall s | s in rows && s.table.State? && Names(rows[s], WorkflowId, w) :: Legible(rows[s])
  }

  /** Some item is in a state of the workflow. */
  ghost predicate HasItems(rows: Rows, w: int) {
    exists r, s :: r in rows && s in rows && r.table.Item? && s.table.State?
                   && Names(rows[s], WorkflowId, w) && Names(rows[r], StateId, s.id)
  }

  lemma StatesAre(db: Db, w: int)
    requires Sound(db) && w > 0
    ensures forall s :: s in StatesOf(db.rows, w) <==> s in db.rows && s.table.State? && Names(db.rows[s], WorkflowId, w)
  {
    hide Shaped, Integrity, EdgesInWorkflows, NoTwinEdges;
  }

  lemma PositiveId(db: Db, r: Ref)
    requires Sound(db) && r in db.rows
    ensures r.id > 0
  {
    hide Shaped, Integrity, EdgesInWorkflows, NoTwinEdges;
  }

  lemma UsedIff(db: Db, s: Ref)
    requires Sound(db) && s in db.rows && s.table.State?
    ensures UsedByItems(db.rows, s.id) <==> exists r :: r in db.rows && r.table.Item? && Names(db.rows[r], StateId, s.id)
  {
    PositiveId(db, s);
    hide Sound;
    if UsedByItems(db.rows, s.id) {
      var r :| r in db.rows && r.table.Item? && ValueOf(db.rows[r], StateId) == s.id;
      assert Names(db.rows[r], StateId, s.id);
    }
  }

  lemma CanDeleteIff(db: Db, w: int)
    requires Sound(db) && w > 0 && Ref(Workflow, w) in db.rows && Legible(db.rows[Ref(Workflow, w)])
    ensures CanDeleteWorkflow(db.rows, w)
            == if AllLegible(db.rows, w) then Some(!HasItems(db.rows, w)) else None
  {
    StatesAre(db, w);
    forall s | s in StatesOf(db.rows, w) ensures Legible(db.rows[s]) <==> Readable(db.rows[s]) { LegibleIsReadable(db.rows[s]); }
    forall s | s in StatesOf(db.rows, w)
      ensures UsedByItems(db.rows, s.id) <==> exists r :: r in db.rows && r.table.Item? && Names(db.rows[r], StateId, s.id)
    {
      UsedIff(db, s);
    }
    hide Sound, StatesOf, UsedByItems, Legible, Readable, Names;
  }

  /**
   deleteWorkflow: 404 exactly when there is no such workflow; done exactly when it and all its states can be
   read and no item is in one of them; 409 exactly when they can be read and an item is; an exception
   otherwise. What is not done leaves the database as it was.
   */
  lemma WorkflowDeleteAnswers(db: Db, w: int)
    requires Sound(db)
    ensures var (after, result) := DeleteWorkflow(db, w);
            && (result.Missing404? <==> Ref(Workflow, w) !in db.rows)
            && (result.Deleted? <==> AllLegible(db.rows, w) && !HasItems(db.rows, w))
            && (result.Conflict409? <==> AllLegible(db.rows, w) && HasItems(db.rows, w))
            && (result.Broken? <==> Ref(Workflow, w) in db.rows && !AllLegible(db.rows, w))
            && (!result.Deleted? ==> after == db)
  {
    var r := Ref(Workflow, w);
    if r in db.rows {
      PositiveId(db, r);
      LegibleIsReadable(db.rows[r]);
      if Legible(db.rows[r]) { CanDeleteIff(db, w); }
    }
    hide Sound, CanDeleteWorkflow, HasItems, Legible, Readable, Delete, Names;
  }

  // ---------------------------------------------------------------- states

  /** An item is in the state, or an edge begins or ends there. */
  ghost predicate InUse(rows: Rows, id: int) {
    exists r :: r in rows && ((r.table.Item? && Names(rows[r], StateId, id))
                              || (r.table.Edge? && (Names(rows[r], BeginStateId, id) || Names(rows[r], EndStateId, id))))
  }

  lemma EdgesAtIff(db: Db, id: int)
    requires Sound(db) && id > 0
    ensures EdgesAt(db.rows, id) != {} <==>
              exists r :: r in db.rows && r.table.Edge? && (Names(db.rows[r], BeginStateId, id) || Names(db.rows[r], EndStateId, id))
  {
    hide Sound;
    if EdgesAt(db.rows, id) != {} {
      var r :| r in EdgesAt(db.rows, id);
      assert Names(db.rows[r], BeginStateId, id) || Names(db.rows[r], EndStateId, id);
    }
    if r :| r in db.rows && r.table.Edge? && (Names(db.rows[r], BeginStateId, id) || Names(db.rows[r], EndStateId, id)) {
      assert r in EdgesAt(db.rows, id);
    }
  }

  lemma CanDeleteStateIff(db: Db, id: int)
    requires Sound(db) && Ref(State, id) in db.rows
    ensures CanDeleteState(db.rows, id) <==> !InUse(db.rows, id)
  {
    PositiveId(db, Ref(State, id));
    UsedIff(db, Ref(State, id));
    EdgesAtIff(db, id);
    hide Sound, Names, UsedByItems, EdgesAt;
  }

  /** deleteState: 404, done, 409 for a state in use, or an exception for one that cannot be read. */
  lemma StateDeleteAnswers(db: Db, id: int)
    requires Sound(db)
    ensures var (after, result) := DeleteState(db, id);
            var r := Ref(State, id);
            && (result.Missing404? <==> r !in db.rows)
            && (result.Deleted? <==> r in db.rows && Legible(db.rows[r]) && !InUse(db.rows, id))
            && (result.Conflict409? <==> r in db.rows && Legible(db.rows[r]) && InUse(db.rows, id))
            && (result.Broken? <==> r in db.rows && !Legible(db.rows[r]))
            && (!result.Deleted? ==> after == db)
  {
    var r := Ref(State, id);
    if r in db.rows {
      PositiveId(db, r);
      LegibleIsReadable(db.rows[r]);
      CanDeleteStateIff(db, id);
    }
    hide Sound, CanDeleteState, InUse, Legible, Readable, Delete;
  }

  // ---------------------------------------------------------------- edges

  lemma NothingRefersToEdges(rows: Rows, id: int)
    ensures Delete(V1, rows, {Ref(Edge, id)}) == rows - {Ref(Edge, id)}
  {
    hide Delete, Doomed;
    DeleteUnreferenced(V1, rows, {Ref(Edge, id)});
  }

  /** deleteEdge takes that edge and nothing else, or answers 404 exactly when it is not there. */
  lemma EdgeDeleteAnswers(db: Db, id: int)
    requires Sound(db)
    ensures var (after, result) := DeleteEdge(db, id);
            var r := Ref(Edge, id);
            && (result.Deleted? <==> r in db.rows) && (result.Missing404? <==> r !in db.rows)
            && after == db.(rows := db.rows - {r})
  {
    var r := Ref(Edge, id);
    if r in db.rows {
      PositiveId(db, r);
      EdgeHasNoTexts(db, r);
    }
    NothingRefersToEdges(db.rows, id);
    hide Sound, Delete, Readable;
    assert r !in db.rows ==> db.rows - {r} == db.rows;
  }

  lemma EdgeHasNoTexts(db: Db, r: Ref)
    requires Sound(db) && r in db.rows && r.table.Edge?
    ensures Readable(db.rows[r])
  {
  }

  // ---------------------------------------------------------------- the check of a new edge

  predicate Archive(row: Row) {
    match row.data case StateData(_, _, _, _, isArchive, _) => isArchive case _ => false
  }

  /**
   validateEdge: 404 when a state is missing that is looked up, an exception when one that is looked up
   cannot be read, 400 for different workflows or an archived state, 200 otherwise.
   */
  lemma EdgeCheckAnswers(db: Db, begin: int, end: int)
    requires Sound(db)
    ensures var b, e := Ref(State, begin), Ref(State, end);
            var looked := b in db.rows && Legible(db.rows[b]);
            var both := looked && e in db.rows && Legible(db.rows[e]);
            var answer := ValidateEdge(db.rows, begin, end);
            && (answer == Some(404) <==> b !in db.rows || (looked && e !in db.rows))
            && (answer == None <==> (b in db.rows && !looked) || (looked && e in db.rows && !both))
            && (answer == Some(200) <==> both && (exists w :: Names(db.rows[b], WorkflowId, w) && Names(db.rows[e], WorkflowId, w))
                                         && !Archive(db.rows[b]) && !Archive(db.rows[e]))
            && (answer.Some? ==> answer.value in {404, 400, 200})
  {
    var b, e := Ref(State, begin), Ref(State, end);
    if b in db.rows {
      PositiveId(db, b);
      LegibleIsReadable(db.rows[b]);
      StateHasWorkflow(db, b);
    }
    if e in db.rows {
      PositiveId(db, e);
      LegibleIsReadable(db.rows[e]);
      StateHasWorkflow(db, e);
    }
    hide Sound, Legible, Readable;
  }

  lemma StateHasWorkflow(db: Db, s: Ref)
    requires Sound(db) && s in db.rows && s.table.State?
    ensures Names(db.rows[s], WorkflowId, ValueOf(db.rows[s], WorkflowId))
  {
    SoundShape(db, s);
    hide Sound;
  }
}
