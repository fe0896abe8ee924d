/** What every run of the workflow, state and edge services keeps, and what their deletes leave alone. */
module Graph {
  import opened Sqlite
  import opened Store
  import opened SchemaV1
  import opened Texts
  import opened Services

  /** The NOT NULL columns that the services rely on. */
  predicate Shaped(r: Ref, row: Row) {
    match r.table
    case Workflow => row.data.WorkflowData? && StoredText(row.data.caption, row.data.description)
    case State => row.data.StateData? && StoredText(row.data.caption, row.data.description) && WorkflowId in row.refs
    case Edge => row.data.NoData? && BeginStateId in row.refs && EndStateId in row.refs
    case ItemType => WorkflowId in row.refs
    case Item => ItemTypeId in row.refs && StateId in row.refs
    case User => row.data.UserData?
    case _ => true
  }

  /** Typed rows, and ids below the counters. */
  ghost predicate WellTyped(db: Db) {
    && (forall r | r in db.rows :: Shaped(r, db.rows[r]))
    && (forall r | r in db.rows :: 0 < r.id < NextId(db, r.table))
    && (forall t :: 0 < NextId(db, t))
  }

  /** A database as the engine keeps it: typed rows, ids below the counters, no dangling reference. */
  ghost predicate Consistent(db: Db) {
    WellTyped(db) && Integrity(V1, db.rows)
  }

  function StateOf(rows: Rows, edge: Ref, c: Column): Ref
    requires edge in rows
  {
    Ref(State, ValueOf(rows[edge], c))
  }

  /** Both ends of an edge are states of one workflow. */
  ghost predicate EdgeInWorkflow(rows: Rows, e: Ref)
    requires e in rows
  {
    var b, f := StateOf(rows, e, BeginStateId), StateOf(rows, e, EndStateId);
    b in rows && f in rows && ValueOf(rows[b], WorkflowId) == ValueOf(rows[f], WorkflowId)
  }

  ghost predicate EdgesInWorkflows(rows: Rows) {
    forall e | e in rows && e.table.Edge? :: EdgeInWorkflow(rows, e)
  }

  ghost predicate NoTwinEdges(rows: Rows) {
    forall d, e | d in rows && e in rows && d.table.Edge? && e.table.Edge? && d != e ::
      ValueOf(rows[d], BeginStateId) != ValueOf(rows[e], BeginStateId) || ValueOf(rows[d], EndStateId) != ValueOf(rows[e], EndStateId)
  }

  ghost predicate CaptionsDiffer(rows: Rows) {
    forall v, w | v in rows && w in rows && v.table.Workflow? && w.table.Workflow? && v != w && Caption(rows[v]) != "" ::
      Caption(rows[v]) != Caption(rows[w])
  }

  /** The structure that any interleaving keeps. */
  ghost predicate Sound(db: Db) {
    Consistent(db) && EdgesInWorkflows(db.rows) && NoTwinEdges(db.rows)
  }

  // ---------------------------------------------------------------- inserts, updates and deletes

  lemma SameCounters(db: Db, rows: Rows)
    requires forall t :: 0 < NextId(db, t)
    requires forall r | r in db.rows :: 0 < r.id < NextId(db, r.table)
    requires rows.Keys <= db.rows.Keys
    ensures forall t :: 0 < NextId(db.(rows := rows), t)
    ensures forall r | r in rows :: 0 < r.id < NextId(db.(rows := rows), r.table)
  {
    forall t ensures 0 < NextId(db.(rows := rows), t) { assert 0 < NextId(db, t); }
    forall r | r in rows ensures 0 < r.id < NextId(db.(rows := rows), r.table) { assert r in db.rows; }
  }

  lemma InsertCounts(db: Db, t: Table, row: Row, k: Table)
    requires Insert(db, t, row).Some?
    ensures NextId(Insert(db, t, row).value, k) == NextId(db, k) + if k == t then 1 else 0
  {
    hide Clashes, V1, Target;
  }

  lemma InsertPuts(db: Db, t: Table, row: Row)
    requires Insert(db, t, row).Some?
    ensures Insert(db, t, row).value.rows == db.rows[Ref(t, NextId(db, t)) := row]
  {
    hide Clashes, V1, Target;
  }

  lemma InsertKeepsTyped(db: Db, t: Table, row: Row)
    requires WellTyped(db) && Insert(db, t, row).Some? && Shaped(Ref(t, NextId(db, t)), row)
    ensures WellTyped(Insert(db, t, row).value) && Ref(t, NextId(db, t)) !in db.rows
  {
    hide Shaped, Insert, NextId;
    var r, db' := Ref(t, NextId(db, t)), Insert(db, t, row).value;
    InsertPuts(db, t, row);
    forall k ensures 0 < NextId(db', k) && NextId(db, k) <= NextId(db', k) {
      InsertCounts(db, t, row, k);
    }
    forall k | k in db'.rows ensures 0 < k.id < NextId(db', k.table) {
      InsertCounts(db, t, row, k.table);
    }
  }

  lemma InsertKeepsConsistent(db: Db, t: Table, row: Row)
    requires Consistent(db) && Insert(db, t, row).Some? && Shaped(Ref(t, NextId(db, t)), row)
    ensures Consistent(Insert(db, t, row).value)
    ensures Ref(t, NextId(db, t)) !in db.rows
  {
    hide WellTyped, Insert, Shaped, Integrity;
    InsertKeepsTyped(db, t, row);
    InsertKeepsIntegrity(db, t, row);
  }

  lemma InsertKeepsTwinless(rows: Rows, r: Ref, row: Row)
    requires NoTwinEdges(rows) && r !in rows && !Clashes(rows, r.table, row)
    ensures NoTwinEdges(rows[r := row])
  {
  }

  lemma InsertKeepsEdges(rows: Rows, r: Ref, row: Row)
    requires EdgesInWorkflows(rows) && r !in rows && (r.table.Edge? ==> EdgeInWorkflow(rows[r := row], r))
    ensures EdgesInWorkflows(rows[r := row])
  {
    forall e | e in rows[r := row] && e.table.Edge? ensures EdgeInWorkflow(rows[r := row], e) {
      if e != r { assert EdgeInWorkflow(rows, e); }
    }
  }

  lemma InsertKeeps(db: Db, t: Table, row: Row)
    requires Sound(db) && Insert(db, t, row).Some? && Shaped(Ref(t, NextId(db, t)), row)
    requires t.Edge? ==> EdgeInWorkflow(db.rows[Ref(t, NextId(db, t)) := row], Ref(t, NextId(db, t)))
    ensures Sound(Insert(db, t, row).value)
  {
    hide Shaped, Consistent, EdgeInWorkflow, EdgesInWorkflows, NoTwinEdges, Clashes;
    InsertKeepsConsistent(db, t, row);
    InsertKeepsTwinless(db.rows, Ref(t, NextId(db, t)), row);
    InsertKeepsEdges(db.rows, Ref(t, NextId(db, t)), row);
  }

  lemma InsertKeepsIntegrity(db: Db, t: Table, row: Row)
    requires Integrity(V1, db.rows) && Insert(db, t, row).Some? && Ref(t, NextId(db, t)) !in db.rows
    ensures Integrity(V1, Insert(db, t, row).value.rows)
  {
    var r, rows' := Ref(t, NextId(db, t)), Insert(db, t, row).value.rows;
    forall k, c | k in rows' && Target(V1, k, rows'[k], c).Some?
      ensures Target(V1, k, rows'[k], c).value.0 in rows'
    {
      if k == r { assert c in row.refs; } else { assert Target(V1, k, db.rows[k], c).Some?; }
    }
  }

  lemma UpdateKeepsIntegrity(rows: Rows, r: Ref, row: Row)
    requires Integrity(V1, rows) && r in rows && row.refs == rows[r].refs
    ensures Integrity(V1, rows[r := row])
  {
    hide V1;
    var rows' := rows[r := row];
    forall k, c | k in rows' && Target(V1, k, rows'[k], c).Some? ensures Target(V1, k, rows'[k], c).value.0 in rows' {
      assert Target(V1, k, rows'[k], c) == Target(V1, k, rows[k], c);
    }
  }

  lemma UpdateKeepsEdges(rows: Rows, r: Ref, row: Row)
    requires EdgesInWorkflows(rows) && NoTwinEdges(rows) && r in rows && row.refs == rows[r].refs
    ensures EdgesInWorkflows(rows[r := row]) && NoTwinEdges(rows[r := row])
  {
    forall e | e in rows[r := row] && e.table.Edge? ensures EdgeInWorkflow(rows[r := row], e) {
      assert EdgeInWorkflow(rows, e);
    }
  }

  lemma UpdateKeepsTyped(db: Db, r: Ref, row: Row)
    requires WellTyped(db) && r in db.rows && Shaped(r, row)
    ensures WellTyped(db.(rows := db.rows[r := row]))
  {
    hide Shaped;
    SameCounters(db, db.rows[r := row]);
  }

  /** An update that leaves the foreign keys alone. */
  lemma UpdateKeeps(db: Db, r: Ref, row: Row)
    requires Sound(db) && r in db.rows && row.refs == db.rows[r].refs && Shaped(r, row)
    ensures Sound(db.(rows := db.rows[r := row]))
  {
    hide Shaped, WellTyped, Integrity, EdgesInWorkflows, NoTwinEdges;
    UpdateKeepsTyped(db, r, row);
    UpdateKeepsIntegrity(db.rows, r, row);
    UpdateKeepsEdges(db.rows, r, row);
  }

  /** Of a surviving row only parentId and phaseId can change. */
  lemma SurvivorKeeps(rows: Rows, dead: set<Ref>, r: Ref, c: Column)
    requires r in Without(V1, rows, dead)
    ensures Without(V1, rows, dead)[r].data == rows[r].data
    ensures !c.ParentId? && !c.PhaseId? ==>
              (c in Without(V1, rows, dead)[r].refs <==> c in rows[r].refs)
              && ValueOf(Without(V1, rows, dead)[r], c) == ValueOf(rows[r], c)
  {
  }

  lemma DeleteKeeps(db: Db, selected: set<Ref>)
    requires Sound(db)
    ensures Sound(db.(rows := Delete(V1, db.rows, selected)))
  {
    var dead := Doomed(V1, db.rows, selected);
    var rows' := Without(V1, db.rows, dead);
    SameCounters(db, rows');
    DeleteKeepsIntegrity(V1, db.rows, selected);
    forall r | r in rows' ensures Shaped(r, rows'[r]) {
      SurvivorShaped(db.rows, dead, r);
    }
    forall e | e in rows' && e.table.Edge? ensures EdgeInWorkflow(rows', e) {
      SurvivingEdge(db.rows, dead, e);
    }
    forall d, e | d in rows' && e in rows' && d.table.Edge? && e.table.Edge? && d != e
      ensures ValueOf(rows'[d], BeginStateId) != ValueOf(rows'[e], BeginStateId)
              || ValueOf(rows'[d], EndStateId) != ValueOf(rows'[e], EndStateId)
    {
      SurvivorKeeps(db.rows, dead, d, BeginStateId);
      SurvivorKeeps(db.rows, dead, d, EndStateId);
      SurvivorKeeps(db.rows, dead, e, BeginStateId);
      SurvivorKeeps(db.rows, dead, e, EndStateId);
    }
  }

  lemma SurvivorShaped(rows: Rows, dead: set<Ref>, r: Ref)
    requires r in Without(V1, rows, dead) && Shaped(r, rows[r])
    ensures Shaped(r, Without(V1, rows, dead)[r])
  {
    SurvivorKeeps(rows, dead, r, WorkflowId);
    SurvivorKeeps(rows, dead, r, BeginStateId);
    SurvivorKeeps(rows, dead, r, EndStateId);
    SurvivorKeeps(rows, dead, r, ItemTypeId);
    SurvivorKeeps(rows, dead, r, StateId);
  }

  lemma SurvivingEdge(rows: Rows, dead: set<Ref>, e: Ref)
    requires Integrity(V1, Without(V1, rows, dead))
    requires e in Without(V1, rows, dead) && e.table.Edge? && Shaped(e, rows[e]) && EdgeInWorkflow(rows, e)
    ensures EdgeInWorkflow(Without(V1, rows, dead), e)
  {
    var rows' := Without(V1, rows, dead);
    SurvivorKeeps(rows, dead, e, BeginStateId);
    SurvivorKeeps(rows, dead, e, EndStateId);
    var b, f := StateOf(rows, e, BeginStateId), StateOf(rows, e, EndStateId);
    assert Target(V1, e, rows'[e], BeginStateId) == Some((b, Cascade));
    assert Target(V1, e, rows'[e], EndStateId) == Some((f, Cascade));
    SurvivorKeeps(rows, dead, b, WorkflowId);
    SurvivorKeeps(rows, dead, f, WorkflowId);
  }

  // ---------------------------------------------------------------- one service call after the other

  datatype Request =
    | NewWorkflow(w: WorkflowDto) | ChangeWorkflow(w: WorkflowDto) | DropWorkflow(id: int)
    | NewState(s: StateDto) | ChangeState(s: StateDto) | DropState(id: int)
    | NewEdge(e: EdgeDto) | DropEdge(id: int)
    | Elsewhere(after: Db)

  /** Writes of the rest of the server: rows of other tables, checked by the engine. */
  ghost predicate OnlyElsewhere(before: Db, after: Db) {
    && Consistent(after)
    && (forall t :: NextId(before, t) <= NextId(after, t))
    && (forall r: Ref | r.table.Workflow? || r.table.State? || r.table.Edge? ::
          (r in before.rows <==> r in after.rows) && (r in before.rows ==> before.rows[r] == after.rows[r]))
  }

  ghost function Serve(db: Db, q: Request): Db {
    match q
    case NewWorkflow(w) => CreateWorkflow(db, w).0
    case ChangeWorkflow(w) => UpdateWorkflow(db, w).0
    case DropWorkflow(id) => DeleteWorkflow(db, id).0
    case NewState(s) => CreateState(db, s).0
    case ChangeState(s) => UpdateState(db, s).0
    case DropState(id) => DeleteState(db, id).0
    case NewEdge(e) => CreateEdge(db, e).0
    case DropEdge(id) => DeleteEdge(db, id).0
    case Elsewhere(after) => if OnlyElsewhere(db, after) then after else db
  }

  ghost function ServeAll(db: Db, qs: seq<Request>): Db
    decreases |qs|
  {
    if qs == [] then db else ServeAll(Serve(db, qs[0]), qs[1..])
  }

  lemma CreateWorkflowKeeps(db: Db, dto: WorkflowDto)
    requires Sound(db)
    ensures Sound(CreateWorkflow(db, dto).0)
  {
    hide Sound, Insert, ExistsByCaption;
    if ValidWorkflow(dto) && Insert(db, Workflow, WorkflowRow(dto.caption.value, dto.description)).Some? {
      InsertKeeps(db, Workflow, WorkflowRow(dto.caption.value, dto.description));
    }
  }

  lemma CreateStateKeeps(db: Db, dto: StateDto)
    requires Sound(db)
    ensures Sound(CreateState(db, dto).0)
  {
    hide Sound, Insert, FindById;
    if ValidState(dto) && Insert(db, State, StateRow(dto)).Some? { InsertKeeps(db, State, StateRow(dto)); }
  }

  lemma ValidatedEnds(rows: Rows, begin: int, end: int, r: Ref)
    requires ValidateEdge(rows, begin, end) == Some(200) && r.table.Edge?
    ensures EdgeInWorkflow(rows[r := EdgeRow(begin, end)], r)
  {
  }

  lemma CreateEdgeKeeps(db: Db, dto: EdgeDto)
    requires Sound(db)
    ensures Sound(CreateEdge(db, dto).0)
  {
    hide Sound, Insert, ValidateEdge, EdgeInWorkflow, EdgeExists;
    if dto.beginStateId.Some? && dto.endStateId.Some? {
      var begin, end := dto.beginStateId.value, dto.endStateId.value;
      if ValidateEdge(db.rows, begin, end) == Some(200) && Insert(db, Edge, EdgeRow(begin, end)).Some? {
        ValidatedEnds(db.rows, begin, end, Ref(Edge, NextId(db, Edge)));
        InsertKeeps(db, Edge, EdgeRow(begin, end));
      }
    }
  }

  /** Overlays leave the foreign keys and the shape of a row. */
  lemma OverlaysFit(r: Ref, row: Row, s: StateDto, w: WorkflowDto)
    requires Shaped(r, row)
    ensures StateOverlay(row, s).refs == row.refs && WorkflowOverlay(row, w).refs == row.refs
    ensures Shaped(r, StateOverlay(row, s)) && Shaped(r, WorkflowOverlay(row, w))
  {
  }

  lemma SoundIsConsistent(db: Db)
    requires Sound(db)
    ensures Consistent(db)
  {
    hide Consistent;
  }

  lemma SoundShape(db: Db, r: Ref)
    requires Sound(db) && r in db.rows
    ensures Shaped(r, db.rows[r])
  {
    hide Shaped, Integrity, EdgesInWorkflows, NoTwinEdges;
  }

  lemma UpdateWorkflowKeeps(db: Db, dto: WorkflowDto)
    requires Sound(db)
    ensures Sound(UpdateWorkflow(db, dto).0)
  {
    hide Sound, Shaped, WorkflowOverlay, StateOverlay, ExistsByCaption, Readable;
    if dto.id.Some? && Ref(Workflow, dto.id.value) in db.rows {
      var r := Ref(Workflow, dto.id.value);
      SoundShape(db, r);
      OverlaysFit(r, db.rows[r], StateDto(None, None, None, None, None, None, None, None), dto);
      UpdateKeeps(db, r, WorkflowOverlay(db.rows[r], dto));
    }
  }

  lemma UpdateStateKeeps(db: Db, dto: StateDto)
    requires Sound(db)
    ensures Sound(UpdateState(db, dto).0)
  {
    hide Sound, Shaped, WorkflowOverlay, StateOverlay, UsedByItems, Readable;
    if dto.id.Some? && Ref(State, dto.id.value) in db.rows {
      var r := Ref(State, dto.id.value);
      SoundShape(db, r);
      OverlaysFit(r, db.rows[r], dto, WorkflowDto(None, None, None));
      UpdateKeeps(db, r, StateOverlay(db.rows[r], dto));
    }
  }

  lemma ElsewhereKeeps(db: Db, after: Db)
    requires Sound(db) && OnlyElsewhere(db, after)
    ensures Sound(after)
  {
    forall e | e in after.rows && e.table.Edge? ensures EdgeInWorkflow(after.rows, e) {
      assert EdgeInWorkflow(db.rows, e);
    }
  }

  lemma ServeKeepsSound(db: Db, q: Request)
    requires Sound(db)
    ensures Sound(Serve(db, q))
  {
    hide Sound, Delete, OnlyElsewhere, CreateWorkflow, UpdateWorkflow, CreateState, UpdateState, CreateEdge, CanDeleteWorkflow,
         CanDeleteState, FindById;
    match q
    case NewWorkflow(w) => CreateWorkflowKeeps(db, w);
    case ChangeWorkflow(w) => UpdateWorkflowKeeps(db, w);
    case DropWorkflow(id) => DeleteKeeps(db, {Ref(Workflow, id)});
    case NewState(s) => CreateStateKeeps(db, s);
    case ChangeState(s) => UpdateStateKeeps(db, s);
    case DropState(id) => DeleteKeeps(db, {Ref(State, id)});
    case NewEdge(e) => CreateEdgeKeeps(db, e);
    case DropEdge(id) => DeleteKeeps(db, {Ref(Edge, id)});
    case Elsewhere(after) => if OnlyElsewhere(db, after) { ElsewhereKeeps(db, after); }
  }

  lemma DeleteKeepsCaptions(rows: Rows, selected: set<Ref>)
    requires CaptionsDiffer(rows)
    ensures CaptionsDiffer(Delete(V1, rows, selected))
  {
    var dead := Doomed(V1, rows, selected);
    forall v | v in Without(V1, rows, dead) ensures Caption(Without(V1, rows, dead)[v]) == Caption(rows[v]) {
      SurvivorKeeps(rows, dead, v, WorkflowId);
    }
  }

  /** Some workflow other than the given one has the caption, as the engine stores it, and it is not empty. */
  predicate HeldByOther(rows: Rows, caption: string, id: int) {
    UpToNul(caption) != "" && exists r | r in rows :: r.table.Workflow? && r.id != id && Caption(rows[r]) == UpToNul(caption)
  }

  /** One workflow gets a caption, by an insert or an update. */
  lemma CaptionsAfterPut(rows: Rows, r: Ref, row: Row, caption: string)
    requires CaptionsDiffer(rows) && r.table.Workflow? && Caption(row) == UpToNul(caption)
    ensures CaptionsDiffer(rows[r := row]) <==> !HeldByOther(rows, caption, r.id)
  {
    var rows' := rows[r := row];
    if HeldByOther(rows, caption, r.id) {
      var v :| v in rows && v.table.Workflow? && v.id != r.id && Caption(rows[v]) == UpToNul(caption);
      assert v in rows' && r in rows' && v != r && Caption(rows'[v]) == Caption(rows'[r]);
    } else {
      forall v, w | v in rows' && w in rows' && v.table.Workflow? && w.table.Workflow? && v != w && Caption(rows'[v]) != ""
        ensures Caption(rows'[v]) != Caption(rows'[w])
      {
        assert v != r ==> v in rows && rows'[v] == rows[v];
        assert w != r ==> w in rows && rows'[w] == rows[w];
        assert v == r ==> w.id != r.id;
        assert w == r ==> v.id != r.id;
      }
    }
  }

  lemma SameCaptions(rows: Rows, rows': Rows)
    requires CaptionsDiffer(rows)
    requires forall r | r in rows' && r.table.Workflow? :: r in rows && Caption(rows'[r]) == Caption(rows[r])
    ensures CaptionsDiffer(rows')
  {
  }

  lemma CreateWorkflowKeepsCaptions(db: Db, dto: WorkflowDto)
    requires CaptionsDiffer(db.rows)
    ensures CaptionsDiffer(CreateWorkflow(db, dto).0.rows)
  {
    hide CaptionsDiffer;
    if ValidWorkflow(dto) && !ExistsByCaption(db.rows, dto.caption.value) {
      CaptionsAfterPut(db.rows, Ref(Workflow, NextId(db, Workflow)), WorkflowRow(dto.caption.value, dto.description),
                       dto.caption.value);
    }
  }

  lemma UpdateWorkflowKeepsCaptions(db: Db, dto: WorkflowDto)
    requires Consistent(db) && CaptionsDiffer(db.rows)
    ensures CaptionsDiffer(UpdateWorkflow(db, dto).0.rows)
  {
    hide Integrity;
    if dto.id.Some? && FindById(db.rows, Workflow, dto.id.value).Present? {
      var r := Ref(Workflow, dto.id.value);
      assert Shaped(r, db.rows[r]);
      if dto.caption.Some? && !(dto.caption.value != Caption(db.rows[r]) && ExistsByCaption(db.rows, dto.caption.value)) {
        OwnOrFree(db.rows, r, dto.caption.value);
        CaptionsAfterPut(db.rows, r, WorkflowOverlay(db.rows[r], dto), dto.caption.value);
      } else {
        SameCaptions(db.rows, UpdateWorkflow(db, dto).0.rows);
      }
    }
  }

  /** The check of updateWorkflow: the workflow's own caption, or one that is not there. */
  lemma OwnOrFree(rows: Rows, r: Ref, caption: string)
    requires CaptionsDiffer(rows) && r in rows && r.table.Workflow? && '\0' !in Caption(rows[r])
    requires caption == Caption(rows[r]) || !ExistsByCaption(rows, caption)
    ensures !HeldByOther(rows, caption, r.id)
  {
  }

  lemma ServeKeepsCaptions(db: Db, q: Request)
    requires Consistent(db) && CaptionsDiffer(db.rows)
    ensures CaptionsDiffer(Serve(db, q).rows)
  {
    hide Consistent, CaptionsDiffer, CreateWorkflow, UpdateWorkflow, Delete;
    match q
    case NewWorkflow(w) => CreateWorkflowKeepsCaptions(db, w);
    case ChangeWorkflow(w) => UpdateWorkflowKeepsCaptions(db, w);
    case DropWorkflow(id) => DeleteKeepsCaptions(db.rows, {Ref(Workflow, id)});
    case DropState(id) => DeleteKeepsCaptions(db.rows, {Ref(State, id)});
    case DropEdge(id) => DeleteKeepsCaptions(db.rows, {Ref(Edge, id)});
    case _ => SameWorkflowsKeepCaptions(db, q);
  }

  lemma SameWorkflowsKeepCaptions(db: Db, q: Request)
    requires CaptionsDiffer(db.rows) && (q.NewState? || q.ChangeState? || q.NewEdge? || q.Elsewhere?)
    ensures CaptionsDiffer(Serve(db, q).rows)
  {
    hide CaptionsDiffer, Consistent;
    SameCaptions(db.rows, Serve(db, q).rows);
  }

  /**
   Any sequence of service calls, with any other writes in between that the engine accepts, keeps:
   every reference resolved (so each state has its workflow and each edge its two states), both ends of
   an edge in one workflow, no two edges for one ordered pair, no two workflows of one non-empty caption.
   */
  lemma {:induction false} ServicesKeepGraph(db: Db, qs: seq<Request>)
    requires Sound(db) && CaptionsDiffer(db.rows)
    ensures Sound(ServeAll(db, qs)) && CaptionsDiffer(ServeAll(db, qs).rows)
    decreases |qs|
  {
    if qs != [] {
      ServeKeepsSound(db, qs[0]);
      ServeKeepsCaptions(db, qs[0]);
      ServicesKeepGraph(Serve(db, qs[0]), qs[1..]);
    }
  }
}
