/** What the services show of what they have done: reading back, undoing, and rows that nobody can read. */
module ServiceAnswers {
  import opened Sqlite
  import opened Store
  import opened SchemaV1
  import opened Texts
  import opened Services
  import opened Graph
  import opened GraphDeletes

  // ---------------------------------------------------------------- rows as transfer objects

  function AsWorkflow(id: int, row: Row): WorkflowDto
    requires row.data.WorkflowData?
  {
    WorkflowDto(Some(id), Some(row.data.caption), row.data.description)
  }

  function AsState(id: int, row: Row): StateDto
    requires row.data.StateData?
  {
    StateDto(Some(id), Some(ValueOf(row, WorkflowId)), Some(row.data.caption), row.data.description, Some(row.data.weight),
             Some(row.data.orderNumber), Some(row.data.isArchive), Some(row.data.isQueue))
  }

  function AsEdge(row: Row): EdgeDto {
    EdgeDto(Some(ValueOf(row, BeginStateId)), Some(ValueOf(row, EndStateId)))
  }

  /** What the engine keeps of a text. */
  function Stored(text: Option<string>): Option<string> {
    Map(text, UpToNul)
  }

  function Given<T>(o: Option<T>, other: Option<T>): Option<T> {
    if o.Some? then o else other
  }

  /** Everything but one row is as it was. */
  ghost predicate OnlyRow(before: Rows, after: Rows, r: Ref) {
    after.Keys == before.Keys + {r} && forall k | k in before && k != r :: after[k] == before[k]
  }

  /** The row has been written; the answer gives it back, unless reading it throws. */
  ghost predicate WritesRow(before: Rows, after: Rows, r: Ref, answer: Answer) {
    OnlyRow(before, after, r) && answer == if Readable(after[r]) then Done(r.id) else Thrown
  }

  // ---------------------------------------------------------------- creating

  lemma PutsOnlyRow(rows: Rows, r: Ref, row: Row)
    ensures OnlyRow(rows, rows[r := row], r) && rows[r := row][r] == row
  {
  }

  lemma InsertWrites(db: Db, t: Table, row: Row)
    requires WellTyped(db) && Insert(db, t, row).Some?
    ensures var r := Ref(t, NextId(db, t));
            && r !in db.rows && Insert(db, t, row).value.rows == db.rows[r := row]
            && WritesRow(db.rows, Insert(db, t, row).value.rows, r, ReadBack(row, r.id))
  {
    hide Shaped, Insert, OnlyRow, Readable, NextId;
    InsertPuts(db, t, row);
    PutsOnlyRow(db.rows, Ref(t, NextId(db, t)), row);
    assert 0 < NextId(db, t);
  }

  lemma InsertsWorkflow(db: Db, caption: string, description: Option<string>)
    ensures Insert(db, Workflow, WorkflowRow(caption, description)).Some?
  {
  }

  ghost predicate WorkflowIsCreated(db: Db, dto: WorkflowDto, after: Db, answer: Answer) {
    var r := Ref(Workflow, NextId(db, Workflow));
    && r !in db.rows && WritesRow(db.rows, after.rows, r, answer) && after.rows[r].data.WorkflowData?
    && AsWorkflow(r.id, after.rows[r]) == WorkflowDto(Some(r.id), Stored(dto.caption), Stored(dto.description))
  }

  ghost predicate CaptionIsNew(rows: Rows, caption: string) {
    forall k | k in rows && k.table.Workflow? :: Caption(rows[k]) != UpToNul(caption)
  }

  /** A caption of 1 to 255 characters, and a description, if any, of at most 1000. */
  lemma TextsInBounds(w: WorkflowDto, s: StateDto)
    ensures ValidWorkflow(w) <==> (exists c :: w.caption == Some(c) && 1 <= |c| <= 255)
                                  && (w.description == None || |w.description.value| <= 1000)
    ensures ValidState(s) <==> s.workflowId != None && (exists c :: s.caption == Some(c) && 1 <= |c| <= 255)
                               && (s.description == None || |s.description.value| <= 1000)
                               && (s.weight == None || 0 <= s.weight.value <= 100)
  {
    if w.caption.Some? { assert w.caption == Some(w.caption.value); }
    if s.caption.Some? { assert s.caption == Some(s.caption.value); }
  }

  /** A workflow is created exactly when its data are valid and its caption is new, and reads as it was given. */
  lemma WorkflowCreated(db: Db, dto: WorkflowDto)
    requires Sound(db)
    ensures var (after, answer) := CreateWorkflow(db, dto);
            if ValidWorkflow(dto) && CaptionIsNew(db.rows, dto.caption.value)
            then WorkflowIsCreated(db, dto, after, answer) else after == db && answer.Refused?
  {
    hide WellTyped, Integrity, EdgesInWorkflows, NoTwinEdges, Insert, WritesRow, ReadBack, NextId;
    if ValidWorkflow(dto) {
      InsertsWorkflow(db, dto.caption.value, dto.description);
      InsertWrites(db, Workflow, WorkflowRow(dto.caption.value, dto.description));
    }
  }

  ghost predicate StateIsCreated(db: Db, dto: StateDto, after: Db, answer: Answer) {
    var r := Ref(State, NextId(db, State));
    && r !in db.rows && WritesRow(db.rows, after.rows, r, answer) && after.rows[r].data.StateData?
    && AsState(r.id, after.rows[r])
       == StateDto(Some(r.id), dto.workflowId, Stored(dto.caption), Stored(dto.description), Given(dto.weight, Some(0)),
                   Given(dto.orderNumber, Some(0)), Given(dto.isArchive, Some(false)), Given(dto.isQueue, Some(false)))
  }

  /**
   A state is created exactly when its data are valid and its workflow is there and can be read; what is
   not given is zero or false.
   */
  lemma StateCreated(db: Db, dto: StateDto)
    requires Sound(db)
    ensures var (after, answer) := CreateState(db, dto);
            if ValidState(dto) && Ref(Workflow, dto.workflowId.value) in db.rows && Readable(db.rows[Ref(Workflow, dto.workflowId.value)])
            then StateIsCreated(db, dto, after, answer)
            else after == db
                 && answer == if ValidState(dto) && Ref(Workflow, dto.workflowId.value) in db.rows then Thrown else Refused
  {
    hide WellTyped, Integrity, EdgesInWorkflows, NoTwinEdges, Insert, WritesRow, ReadBack, NextId, Readable;
    if ValidState(dto) {
      PositiveIds(db, Ref(Workflow, dto.workflowId.value));
      if Ref(Workflow, dto.workflowId.value) in db.rows {
        InsertsState(db, dto);
        InsertWrites(db, State, StateRow(dto));
      }
    }
  }

  lemma PositiveIds(db: Db, r: Ref)
    requires WellTyped(db)
    ensures r in db.rows ==> r.id > 0
  {
    hide Shaped, NextId;
  }

  lemma InsertsState(db: Db, dto: StateDto)
    requires dto.workflowId.Some? && dto.caption.Some? && Ref(Workflow, dto.workflowId.value) in db.rows
    ensures Insert(db, State, StateRow(dto)).Some?
  {
    hide UpToNul, Clashes;
    var row := StateRow(dto);
    assert Target(V1, Ref(State, NextId(db, State)), row, WorkflowId) == Some((Ref(Workflow, dto.workflowId.value), Cascade));
    assert forall c | c in row.refs :: c == WorkflowId;
    NoStateClash(db.rows, row);
  }

  lemma NoStateClash(rows: Rows, row: Row)
    ensures !Clashes(rows, State, row)
  {
  }

  /** Two states that an edge may join. */
  predicate Joinable(rows: Rows, b: Ref, e: Ref) {
    b in rows && e in rows && Readable(rows[b]) && Readable(rows[e])
    && ValueOf(rows[b], WorkflowId) == ValueOf(rows[e], WorkflowId) && !Archived(rows[b]) && !Archived(rows[e])
  }

  /** A state that the check of a new edge looks at, and cannot read. */
  predicate MeetsUnreadable(rows: Rows, dto: EdgeDto) {
    && dto.beginStateId.Some? && dto.endStateId.Some?
    && var b, e := Ref(State, dto.beginStateId.value), Ref(State, dto.endStateId.value);
       b in rows && (!Readable(rows[b]) || (e in rows && !Readable(rows[e])))
  }

  ghost predicate NewEdgeFits(rows: Rows, dto: EdgeDto) {
    && dto.beginStateId.Some? && dto.endStateId.Some?
    && Joinable(rows, Ref(State, dto.beginStateId.value), Ref(State, dto.endStateId.value))
    && forall r | r in rows && r.table.Edge? :: AsEdge(rows[r]) != dto
  }

  /**
   An edge is created exactly when both its ends are there and can be read, lie in one workflow, are not
   archived and not joined yet; then the edges shown for that workflow are one more, and those of others
   as before.
   */
  lemma EdgeCreated(db: Db, dto: EdgeDto, w: int)
    requires Sound(db)
    ensures var (after, answer) := CreateEdge(db, dto);
            var r := Ref(Edge, NextId(db, Edge));
            if NewEdgeFits(db.rows, dto)
            then r !in db.rows && OnlyRow(db.rows, after.rows, r) && answer == Done(r.id) && AsEdge(after.rows[r]) == dto
                 && EdgesOf(after.rows, w)
                    == EdgesOf(db.rows, w) + if w == ValueOf(db.rows[Ref(State, dto.beginStateId.value)], WorkflowId) then {r} else {}
            else after == db && answer == if MeetsUnreadable(db.rows, dto) then Thrown else Refused
  {
    hide Sound, CreateEdge, MeetsUnreadable, EdgesOf, Joinable, OnlyRow;
    EdgeCreatedIff(db, dto);
    if NewEdgeFits(db.rows, dto) {
      HomeIsPositive(db, dto);
      EdgesGrow(db.rows, Ref(Edge, NextId(db, Edge)), dto.beginStateId.value, dto.endStateId.value, w);
    }
  }

  lemma ValidatesJoinable(db: Db, begin: int, end: int)
    requires WellTyped(db)
    ensures ValidateEdge(db.rows, begin, end) == Some(200) <==> Joinable(db.rows, Ref(State, begin), Ref(State, end))
  {
    hide Shaped, Readable, NextId;
  }

  lemma ValidationThrows(db: Db, dto: EdgeDto)
    requires WellTyped(db) && dto.beginStateId.Some? && dto.endStateId.Some?
    ensures ValidateEdge(db.rows, dto.beginStateId.value, dto.endStateId.value).None? <==> MeetsUnreadable(db.rows, dto)
  {
    hide Shaped, Readable, NextId;
  }

  lemma EdgeExistsIff(db: Db, begin: int, end: int)
    requires begin > 0 && end > 0
    ensures EdgeExists(db.rows, begin, end)
            <==> !forall r | r in db.rows && r.table.Edge? :: AsEdge(db.rows[r]) != EdgeDto(Some(begin), Some(end))
  {
    hide ValueOf;
  }

  lemma InsertsEdge(db: Db, begin: int, end: int)
    requires Ref(State, begin) in db.rows && Ref(State, end) in db.rows && begin > 0 && end > 0 && !EdgeExists(db.rows, begin, end)
    ensures Insert(db, Edge, EdgeRow(begin, end)).Some?
  {
    EdgeClashesIff(db.rows, begin, end);
    hide Clashes, EdgeExists;
    var r, row := Ref(Edge, NextId(db, Edge)), EdgeRow(begin, end);
    assert Target(V1, r, row, BeginStateId) == Some((Ref(State, begin), Cascade));
    assert Target(V1, r, row, EndStateId) == Some((Ref(State, end), Cascade));
    assert forall c | c in row.refs :: c == BeginStateId || c == EndStateId;
    hide V1, Target;
  }

  /** The UNIQUE constraint forbids just what the service looks for. */
  lemma EdgeClashesIff(rows: Rows, begin: int, end: int)
    requires begin > 0 && end > 0
    ensures Clashes(rows, Edge, EdgeRow(begin, end)) <==> EdgeExists(rows, begin, end)
  {
  }

  lemma EdgeCreatedIff(db: Db, dto: EdgeDto)
    requires Sound(db)
    ensures var (after, answer) := CreateEdge(db, dto);
            var r := Ref(Edge, NextId(db, Edge));
            if NewEdgeFits(db.rows, dto)
            then r !in db.rows && after.rows == db.rows[r := EdgeRow(dto.beginStateId.value, dto.endStateId.value)]
                 && OnlyRow(db.rows, after.rows, r) && answer == Done(r.id) && AsEdge(after.rows[r]) == dto
            else after == db && answer == if MeetsUnreadable(db.rows, dto) then Thrown else Refused
  {
    hide Readable, Insert, ValidateEdge, EdgeExists, Joinable, Shaped, Integrity, EdgesInWorkflows, NoTwinEdges;
    if dto.beginStateId.Some? && dto.endStateId.Some? {
      var begin, end := dto.beginStateId.value, dto.endStateId.value;
      ValidatesJoinable(db, begin, end);
      ValidationThrows(db, dto);
      if ValidateEdge(db.rows, begin, end) == Some(200) {
        JoinableIds(db, begin, end);
        EdgeExistsIff(db, begin, end);
        if !EdgeExists(db.rows, begin, end) {
          EdgeIsReadable(begin, end);
          InsertsEdge(db, begin, end);
          InsertPuts(db, Edge, EdgeRow(begin, end));
        }
      }
    }
  }

  lemma EdgeIsReadable(begin: int, end: int)
    ensures Readable(EdgeRow(begin, end))
  {
  }

  lemma JoinableIds(db: Db, begin: int, end: int)
    requires WellTyped(db) && Joinable(db.rows, Ref(State, begin), Ref(State, end))
    ensures Ref(State, begin) in db.rows && Ref(State, end) in db.rows && begin > 0 && end > 0
  {
    hide Shaped, Readable, NextId;
  }

  lemma EdgesGrow(rows: Rows, r: Ref, begin: int, end: int, w: int)
    requires r.table.Edge? && r !in rows && Joinable(rows, Ref(State, begin), Ref(State, end))
    requires ValueOf(rows[Ref(State, begin)], WorkflowId) > 0
    ensures EdgesOf(rows[r := EdgeRow(begin, end)], w)
            == EdgesOf(rows, w) + if w == ValueOf(rows[Ref(State, begin)], WorkflowId) then {r} else {}
  {
    hide Readable, Archived;
    var after := rows[r := EdgeRow(begin, end)];
    assert StatesOf(after, w) == StatesOf(rows, w);
  }

  lemma HomeIsPositive(db: Db, dto: EdgeDto)
    requires Sound(db) && NewEdgeFits(db.rows, dto)
    ensures ValueOf(db.rows[Ref(State, dto.beginStateId.value)], WorkflowId) > 0
  {
    hide Readable, Archived, EdgesInWorkflows, NoTwinEdges;
    var state := Ref(State, dto.beginStateId.value);
    assert Shaped(state, db.rows[state]);
    assert Target(V1, state, db.rows[state], WorkflowId).value.0 in db.rows;
  }

  // ---------------------------------------------------------------- undoing

  /** Nothing refers to a row that is not there, so what was just created goes alone. */
  lemma NewRowGoesAlone(db: Db, t: Table, row: Row)
    requires Consistent(db) && Insert(db, t, row).Some? && !t.Project? && !t.Item?
    ensures var r := Ref(t, NextId(db, t)); Delete(V1, Insert(db, t, row).value.rows, {r}) == db.rows
  {
    hide Delete, Doomed, Insert, Shaped, Unreferenced;
    var r, rows' := Ref(t, NextId(db, t)), Insert(db, t, row).value.rows;
    InsertPuts(db, t, row);
    assert r !in db.rows;
    NothingRefersYet(db, t, row);
    DeleteUnreferenced(V1, rows', {r});
    assert rows' - {r} == db.rows;
  }

  lemma NothingRefersYet(db: Db, t: Table, row: Row)
    requires Consistent(db) && Insert(db, t, row).Some? && !t.Project? && !t.Item?
    ensures Unreferenced(V1, Insert(db, t, row).value.rows, {Ref(t, NextId(db, t))})
  {
    hide Insert, Shaped, Declares;
    var r, rows' := Ref(t, NextId(db, t)), Insert(db, t, row).value.rows;
    InsertPuts(db, t, row);
    assert r !in db.rows;
    forall k, c | k in rows' && Target(V1, k, rows'[k], c).Some? ensures Target(V1, k, rows'[k], c).value.0 !in {r} {
      if k != r { assert Target(V1, k, db.rows[k], c).value.0 in db.rows; } else { NoOwnTable(t, c); }
    }
  }

  lemma NoOwnTable(t: Table, c: Column)
    requires Declares(t, c) && !t.Project? && !t.Item?
    ensures ParentTable(t, c) != t
  {
  }

  /** A created workflow is deleted without a trace exactly when its texts can be read; else it cannot be deleted. */
  lemma CreateThenDeleteWorkflow(db: Db, dto: WorkflowDto)
    requires Sound(db) && CreateWorkflow(db, dto).0 != db
    ensures var after, row := CreateWorkflow(db, dto).0, WorkflowRow(dto.caption.value, dto.description);
            var (deleted, result) := DeleteWorkflow(after, NextId(db, Workflow));
            if Readable(row) then result.Deleted? && deleted.rows == db.rows else result.Broken? && deleted == after
  {
    hide Delete, Insert, Readable, ExistsByCaption, Shaped, Integrity, EdgesInWorkflows, NoTwinEdges, CanDeleteWorkflow;
    var row := WorkflowRow(dto.caption.value, dto.description);
    InsertPuts(db, Workflow, row);
    NewRowGoesAlone(db, Workflow, row);
    NewWorkflowIsUnused(db, row);
  }

  lemma CreateThenDeleteState(db: Db, dto: StateDto)
    requires Sound(db) && CreateState(db, dto).0 != db
    ensures var after, row := CreateState(db, dto).0, StateRow(dto);
            var (deleted, result) := DeleteState(after, NextId(db, State));
            if Readable(row) then result.Deleted? && deleted.rows == db.rows else result.Broken? && deleted == after
  {
    hide Delete, Insert, Readable, Shaped, Integrity, EdgesInWorkflows, NoTwinEdges, CanDeleteState;
    InsertPuts(db, State, StateRow(dto));
    NewRowGoesAlone(db, State, StateRow(dto));
    NewStateIsUnused(db, StateRow(dto));
  }

  /** An edge has no texts, and its deletion always restores every row. */
  lemma CreateThenDeleteEdge(db: Db, dto: EdgeDto)
    requires Sound(db) && CreateEdge(db, dto).0 != db
    ensures var (deleted, result) := DeleteEdge(CreateEdge(db, dto).0, NextId(db, Edge));
            result.Deleted? && deleted.rows == db.rows
  {
    hide Delete, Insert, ValidateEdge, EdgeExists, Shaped, Integrity, EdgesInWorkflows, NoTwinEdges;
    var row := EdgeRow(dto.beginStateId.value, dto.endStateId.value);
    InsertPuts(db, Edge, row);
    NewRowGoesAlone(db, Edge, row);
  }

  lemma NextIsUnused(db: Db, t: Table, k: Ref, c: Column)
    requires Consistent(db) && k in db.rows && c in db.rows[k].refs && Declares(k.table, c) && ParentTable(k.table, c) == t
    ensures db.rows[k].refs[c] != NextId(db, t)
  {
    hide Shaped;
    assert Target(V1, k, db.rows[k], c).value.0 == Ref(t, db.rows[k].refs[c]);
  }

  lemma NewWorkflowIsUnused(db: Db, row: Row)
    requires Sound(db)
    ensures CanDeleteWorkflow(db.rows[Ref(Workflow, NextId(db, Workflow)) := row], NextId(db, Workflow)) == Some(true)
  {
    hide NextId, Sound;
    var r := Ref(Workflow, NextId(db, Workflow));
    var rows' := db.rows[r := row];
    forall s | s in rows' && s.table.State? ensures ValueOf(rows'[s], WorkflowId) != r.id { NotIn(db, s, WorkflowId, Workflow); }
    assert StatesOf(rows', r.id) == {};
  }

  lemma NotIn(db: Db, k: Ref, c: Column, t: Table)
    requires Sound(db) && k in db.rows && Declares(k.table, c) && ParentTable(k.table, c) == t
    requires c.WorkflowId? || c.StateId? || c.BeginStateId? || c.EndStateId?
    ensures ValueOf(db.rows[k], c) != NextId(db, t)
  {
    hide Shaped, Integrity, EdgesInWorkflows, NoTwinEdges;
    if c in db.rows[k].refs { NextIsUnused(db, t, k, c); } else { assert 0 < NextId(db, t); }
  }

  lemma NewStateIsUnused(db: Db, row: Row)
    requires Sound(db)
    ensures CanDeleteState(db.rows[Ref(State, NextId(db, State)) := row], NextId(db, State))
  {
    hide NextId, Sound;
    var r := Ref(State, NextId(db, State));
    var rows' := db.rows[r := row];
    forall k | k in rows' && k.table.Item? ensures ValueOf(rows'[k], StateId) != r.id { NotIn(db, k, StateId, State); }
    forall k | k in rows' && k.table.Edge? ensures ValueOf(rows'[k], BeginStateId) != r.id && ValueOf(rows'[k], EndStateId) != r.id {
      NotIn(db, k, BeginStateId, State);
      NotIn(db, k, EndStateId, State);
    }
    assert EdgesAt(rows', r.id) == {};
  }

  // ---------------------------------------------------------------- updating

  ghost predicate StateMayChange(rows: Rows, dto: StateDto) {
    && dto.id.Some? && Ref(State, dto.id.value) in rows && Readable(rows[Ref(State, dto.id.value)])
    && dto.(id := None, workflowId := None) != StateDto(None, None, None, None, None, None, None, None)
    && (dto.isArchive == Some(true) ==> forall r | r in rows && r.table.Item? :: ValueOf(rows[r], StateId) != dto.id.value)
  }

  ghost predicate StateIsChanged(before: Rows, dto: StateDto, after: Rows, answer: Answer)
    requires dto.id.Some? && Ref(State, dto.id.value) in before && before[Ref(State, dto.id.value)].data.StateData?
  {
    var r := Ref(State, dto.id.value);
    var was := AsState(r.id, before[r]);
    && WritesRow(before, after, r, answer) && after[r].data.StateData?
    && AsState(r.id, after[r])
       == StateDto(dto.id, was.workflowId, Given(Stored(dto.caption), was.caption), Given(Stored(dto.description), was.description),
                   Given(dto.weight, was.weight), Given(dto.orderNumber, was.orderNumber), Given(dto.isArchive, was.isArchive),
                   Given(dto.isQueue, was.isQueue))
  }

  /** A row that is there and whose texts throw. */
  predicate CannotRead(rows: Rows, t: Table, id: Option<int>) {
    id.Some? && Ref(t, id.value) in rows && !Readable(rows[Ref(t, id.value)])
  }

  lemma StateHasData(db: Db, id: int)
    requires Sound(db) && Ref(State, id) in db.rows
    ensures db.rows[Ref(State, id)].data.StateData? && id > 0
    ensures StoredText(db.rows[Ref(State, id)].data.caption, db.rows[Ref(State, id)].data.description)
  {
    hide Integrity, EdgesInWorkflows, NoTwinEdges;
    assert Shaped(Ref(State, id), db.rows[Ref(State, id)]);
  }

  lemma WorkflowHasData(db: Db, id: int)
    requires Sound(db) && Ref(Workflow, id) in db.rows
    ensures db.rows[Ref(Workflow, id)].data.WorkflowData? && id > 0 && '\0' !in Caption(db.rows[Ref(Workflow, id)])
  {
    hide Integrity, EdgesInWorkflows, NoTwinEdges;
    assert Shaped(Ref(Workflow, id), db.rows[Ref(Workflow, id)]);
  }

  /**
   An update of a state changes nothing when there is none that can be read, when nothing is given, and
   when a state in use would be archived; else it reads back as what it was, overlaid with what was given
   but for the workflow.
   */
  lemma StateUpdated(db: Db, dto: StateDto)
    requires Sound(db)
    ensures var (after, answer) := UpdateState(db, dto);
            if StateMayChange(db.rows, dto)
            then db.rows[Ref(State, dto.id.value)].data.StateData? && StateIsChanged(db.rows, dto, after.rows, answer)
            else after == db && answer == if CannotRead(db.rows, State, dto.id) then Thrown else Refused
  {
    hide Sound, Readable, OnlyRow;
    if dto.id.Some? && Ref(State, dto.id.value) in db.rows {
      var r := Ref(State, dto.id.value);
      StateHasData(db, r.id);
      PutsOnlyRow(db.rows, r, StateOverlay(db.rows[r], dto));
    }
  }

  /** A workflow that the check of updateWorkflow finds: another one, or itself by a text that goes on after a NUL. */
  predicate InTheWay(rows: Rows, id: int, caption: string) {
    caption != "" && exists r | r in rows :: r.table.Workflow? && Caption(rows[r]) == UpToNul(caption) && (r.id != id || '\0' in caption)
  }

  ghost predicate WorkflowMayChange(rows: Rows, dto: WorkflowDto) {
    && dto.id.Some? && Ref(Workflow, dto.id.value) in rows && Readable(rows[Ref(Workflow, dto.id.value)])
    && (dto.caption.Some? || dto.description.Some?)
    && (dto.caption.Some? ==> !InTheWay(rows, dto.id.value, dto.caption.value))
  }

  ghost predicate WorkflowIsChanged(before: Rows, dto: WorkflowDto, after: Rows, answer: Answer)
    requires dto.id.Some? && Ref(Workflow, dto.id.value) in before && before[Ref(Workflow, dto.id.value)].data.WorkflowData?
  {
    var r := Ref(Workflow, dto.id.value);
    var was := AsWorkflow(r.id, before[r]);
    && WritesRow(before, after, r, answer) && after[r].data.WorkflowData?
    && AsWorkflow(r.id, after[r])
       == WorkflowDto(dto.id, Given(Stored(dto.caption), was.caption), Given(Stored(dto.description), was.description))
  }

  lemma CheckFindsInTheWay(rows: Rows, id: int, caption: string)
    requires CaptionsDiffer(rows) && Ref(Workflow, id) in rows && '\0' !in Caption(rows[Ref(Workflow, id)])
    ensures caption != Caption(rows[Ref(Workflow, id)]) && ExistsByCaption(rows, caption) <==> InTheWay(rows, id, caption)
  {
  }

  /** An update of a workflow: its own caption is never in the way, another's is. */
  lemma WorkflowUpdated(db: Db, dto: WorkflowDto)
    requires Sound(db) && CaptionsDiffer(db.rows)
    ensures var (after, answer) := UpdateWorkflow(db, dto);
            if WorkflowMayChange(db.rows, dto)
            then db.rows[Ref(Workflow, dto.id.value)].data.WorkflowData? && WorkflowIsChanged(db.rows, dto, after.rows, answer)
            else after == db && answer == if CannotRead(db.rows, Workflow, dto.id) then Thrown else Refused
  {
    hide Sound, CaptionsDiffer, Readable, InTheWay, ExistsByCaption, OnlyRow;
    if dto.id.Some? && Ref(Workflow, dto.id.value) in db.rows {
      var r := Ref(Workflow, dto.id.value);
      WorkflowHasData(db, r.id);
      if dto.caption.Some? { CheckFindsInTheWay(db.rows, r.id, dto.caption.value); }
      PutsOnlyRow(db.rows, r, WorkflowOverlay(db.rows[r], dto));
    }
  }

  /** Sending a state back as it was read changes nothing. */
  lemma StateSentBack(db: Db, id: int)
    requires Sound(db) && Ref(State, id) in db.rows
    ensures db.rows[Ref(State, id)].data.StateData?
    ensures UpdateState(db, AsState(id, db.rows[Ref(State, id)])).0 == db
  {
    hide Sound, Readable, UsedByItems;
    StateHasData(db, id);
    var r := Ref(State, id);
    OverlaidByItself(id, db.rows[r]);
    assert db.rows[r := db.rows[r]] == db.rows;
  }

  lemma OverlaidByItself(id: int, row: Row)
    requires row.data.StateData? && StoredText(row.data.caption, row.data.description)
    ensures StateOverlay(row, AsState(id, row)) == row
  {
  }

  // ---------------------------------------------------------------- rows that cannot be read

  ghost predicate Stuck(rows: Rows, r: Ref) {
    r in rows && (r.table.Workflow? || r.table.State?) && !Readable(rows[r])
  }

  lemma CreatesElsewhere(db: Db, q: Request, r: Ref)
    requires Sound(db) && r in db.rows && (q.NewWorkflow? || q.NewState? || q.NewEdge?)
    ensures r in Serve(db, q).rows && Serve(db, q).rows[r] == db.rows[r]
  {
    hide Shaped, Integrity, EdgesInWorkflows, NoTwinEdges, Readable, ExistsByCaption, ValidateEdge, EdgeExists;
  }

  lemma UpdatesPassBy(db: Db, q: Request, r: Ref)
    requires Stuck(db.rows, r) && (q.ChangeWorkflow? || q.ChangeState?)
    ensures r in Serve(db, q).rows && Serve(db, q).rows[r] == db.rows[r]
  {
    hide Readable, ExistsByCaption, UsedByItems, WorkflowOverlay, StateOverlay;
  }

  lemma WorkflowDropPassesBy(db: Db, w: int, r: Ref)
    requires Sound(db) && Stuck(db.rows, r)
    ensures r in DeleteWorkflow(db, w).0.rows && DeleteWorkflow(db, w).0.rows[r] == db.rows[r]
  {
    hide Sound, Delete, Readable, UsedByItems, Independent;
    if DeleteWorkflow(db, w).1.Deleted? {
      assert r.table.State? ==> r !in StatesOf(db.rows, w);
      WorkflowDeletion(db, w);
    }
  }

  lemma StateDropPassesBy(db: Db, id: int, r: Ref)
    requires Stuck(db.rows, r)
    ensures r in DeleteState(db, id).0.rows && DeleteState(db, id).0.rows[r] == db.rows[r]
  {
    hide Delete, Readable, CanDeleteState;
    if DeleteState(db, id).1.Deleted? { StateDeletion(db, id); }
  }

  lemma EdgeDropPassesBy(db: Db, id: int, r: Ref)
    requires Stuck(db.rows, r)
    ensures r in DeleteEdge(db, id).0.rows && DeleteEdge(db, id).0.rows[r] == db.rows[r]
  {
    hide Readable, Doomed;
    EdgesGoAlone(db.rows, id);
  }

  /** Nothing refers to edges. */
  lemma EdgesGoAlone(rows: Rows, id: int)
    ensures Delete(V1, rows, {Ref(Edge, id)}) == rows - {Ref(Edge, id)}
  {
    hide Delete, Doomed;
    DeleteUnreferenced(V1, rows, {Ref(Edge, id)});
  }

  lemma StuckPassedBy(db: Db, q: Request, r: Ref)
    requires Sound(db) && Stuck(db.rows, r)
    ensures r in Serve(db, q).rows && Serve(db, q).rows[r] == db.rows[r]
  {
    hide Sound, Readable, DeleteWorkflow, DeleteState, DeleteEdge, CreateWorkflow, CreateState, CreateEdge, UpdateWorkflow, UpdateState,
         Consistent;
    match q
    case NewWorkflow(_) => CreatesElsewhere(db, q, r);
    case NewState(_) => CreatesElsewhere(db, q, r);
    case NewEdge(_) => CreatesElsewhere(db, q, r);
    case ChangeWorkflow(_) => UpdatesPassBy(db, q, r);
    case ChangeState(_) => UpdatesPassBy(db, q, r);
    case DropWorkflow(id) => WorkflowDropPassesBy(db, id, r);
    case DropState(id) => StateDropPassesBy(db, id, r);
    case DropEdge(id) => EdgeDropPassesBy(db, id, r);
    case Elsewhere(_) =>
  }

  /**
   A workflow or a state whose text looks like a date stays for good: no run of the services changes or
   deletes it, and so the workflow of such a state stays too.
   */
  lemma {:induction false} UnreadableRowsStay(db: Db, qs: seq<Request>, r: Ref)
    requires Sound(db) && Stuck(db.rows, r)
    ensures r in ServeAll(db, qs).rows && ServeAll(db, qs).rows[r] == db.rows[r]
    decreases |qs|
  {
    hide Sound, Serve, Readable;
    if qs != [] {
      ServeKeepsSound(db, qs[0]);
      StuckPassedBy(db, qs[0], r);
      UnreadableRowsStay(Serve(db, qs[0]), qs[1..], r);
    }
  }
}
