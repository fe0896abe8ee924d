/**
 Service calls of several threads on one database. A call reads and then writes, and other threads
 write in between, so a check may be out of date by the time of the write. What the engine enforces
 carries the structure of the graph through every interleaving; the uniqueness of captions is only
 checked by reading.
 */
module GraphThreads {
  import opened Sqlite
  import opened Store
  import opened SchemaV1
  import opened Texts
  import opened Services
  import opened Graph

  type Tid = nat

  /**
   What a thread has read: the workflow of a state, a caption that no workflow had, the caption that a
   workflow had, each at the time it looked.
   */
  datatype Notes = Notes(homes: map<int, int>, free: set<string>, own: set<(int, string)>)

  datatype Shared = Shared(db: Db, notes: map<Tid, Notes>)

  datatype Action =
    | Look(t: Tid, state: int)
    | LookCaption(t: Tid, caption: string)
    | LookWorkflow(t: Tid, id: int)
    | PutEdge(t: Tid, begin: int, end: int)
    | PutState(s: StateDto)
    | PutWorkflow(t: Tid, w: WorkflowDto)
    | SetState(s: StateDto)
    | SetWorkflow(t: Tid, w: WorkflowDto)
    | Remove(r: Ref)
    | Other(after: Db)

  /** A write follows the looks that let it pass, however long ago they were. */
  predicate Allowed(s: Shared, a: Action) {
    match a
    case Look(t, _) => t in s.notes
    case LookCaption(t, _) => t in s.notes
    case LookWorkflow(t, _) => t in s.notes
    case PutEdge(t, b, e) =>
      t in s.notes && b in s.notes[t].homes && e in s.notes[t].homes && s.notes[t].homes[b] == s.notes[t].homes[e]
    case PutState(dto) => ValidState(dto)
    case PutWorkflow(t, dto) => t in s.notes && ValidWorkflow(dto) && dto.caption.value in s.notes[t].free
    case SetState(dto) => dto.id.Some?
    case SetWorkflow(t, dto) =>
      t in s.notes && dto.id.Some?
      && (dto.caption.Some? ==> dto.caption.value in s.notes[t].free || (dto.id.value, dto.caption.value) in s.notes[t].own)
    case Remove(r) => r.table.Workflow? || r.table.State? || r.table.Edge?
    case Other(_) => true
  }

  function Inserted(db: Db, t: Table, row: Row): Db {
    match Insert(db, t, row) case None => db case Some(db') => db'
  }

  function Updated(db: Db, r: Ref, row: Row): Db {
    db.(rows := db.rows[r := row])
  }

  /** What a look adds to the notes of its thread. */
  function Noted(db: Db, n: Notes, a: Action): Notes {
    match a
    case Look(_, id) =>
      (match FindById(db.rows, State, id)
       case Present(row) => n.(homes := n.homes[id := ValueOf(row, WorkflowId)])
       case _ => n)
    case LookCaption(_, caption) => if ExistsByCaption(db.rows, caption) then n else n.(free := n.free + {caption})
    case LookWorkflow(_, id) =>
      (match FindById(db.rows, Workflow, id)
       case Present(row) => n.(own := n.own + {(id, Caption(row))})
       case _ => n)
    case _ => n
  }

  /** What a write makes of the database. */
  ghost function Written(db: Db, a: Action): Db {
    match a
    case PutEdge(_, b, e) => Inserted(db, Edge, EdgeRow(b, e))
    case PutState(dto) => if ValidState(dto) then Inserted(db, State, StateRow(dto)) else db
    case PutWorkflow(_, dto) =>
      if ValidWorkflow(dto) then Inserted(db, Workflow, WorkflowRow(dto.caption.value, dto.description)) else db
    case SetState(dto) =>
      if dto.id.Some? && Ref(State, dto.id.value) in db.rows
      then Updated(db, Ref(State, dto.id.value), StateOverlay(db.rows[Ref(State, dto.id.value)], dto)) else db
    case SetWorkflow(_, dto) =>
      if dto.id.Some? && Ref(Workflow, dto.id.value) in db.rows
      then Updated(db, Ref(Workflow, dto.id.value), WorkflowOverlay(db.rows[Ref(Workflow, dto.id.value)], dto)) else db
    case Remove(r) => if r in db.rows then db.(rows := Delete(V1, db.rows, {r})) else db
    case Other(after) => if OnlyElsewhere(db, after) then after else db
    case _ => db
  }

  predicate Looks(a: Action) {
    a.Look? || a.LookCaption? || a.LookWorkflow?
  }

  ghost function Act(s: Shared, a: Action): Shared
    requires Allowed(s, a)
  {
    if Looks(a) then s.(notes := s.notes[a.t := Noted(s.db, s.notes[a.t], a)]) else s.(db := Written(s.db, a))
  }

  ghost predicate Run(s: Shared, acts: seq<Action>)
    decreases |acts|
  {
    acts == [] || (Allowed(s, acts[0]) && Run(Act(s, acts[0]), acts[1..]))
  }

  ghost function After(s: Shared, acts: seq<Action>): Shared
    requires Run(s, acts)
    decreases |acts|
  {
    if acts == [] then s else After(Act(s, acts[0]), acts[1..])
  }

  // ---------------------------------------------------------------- the structure holds in every interleaving

  /** A note stays true as long as the state exists, and its id is never given to another state. */
  predicate NoteHolds(db: Db, id: int, w: int) {
    0 < id < NextId(db, State) && (Ref(State, id) in db.rows ==> ValueOf(db.rows[Ref(State, id)], WorkflowId) == w)
  }

  ghost predicate NotesHold(db: Db, notes: map<Tid, Notes>) {
    forall t, id | t in notes && id in notes[t].homes :: NoteHolds(db, id, notes[t].homes[id])
  }

  ghost predicate Inv(s: Shared) {
    Sound(s.db) && NotesHold(s.db, s.notes)
  }

  /** What a write may do to the states: add new ones under new ids, delete, or keep the workflow. */
  ghost predicate StatesKept(a: Db, b: Db) {
    && NextId(a, State) <= NextId(b, State)
    && (forall r | r in b.rows && r.table.State? && r.id < NextId(a, State) ::
          r in a.rows && ValueOf(b.rows[r], WorkflowId) == ValueOf(a.rows[r], WorkflowId))
  }

  lemma InsertedKeeps(db: Db, t: Table, row: Row)
    requires Sound(db) && Shaped(Ref(t, NextId(db, t)), row)
    requires t.Edge? && Insert(db, t, row).Some? ==>
               EdgeInWorkflow(db.rows[Ref(t, NextId(db, t)) := row], Ref(t, NextId(db, t)))
    ensures Sound(Inserted(db, t, row)) && StatesKept(db, Inserted(db, t, row))
  {
    hide Sound, Shaped, EdgeInWorkflow;
    if Insert(db, t, row).Some? { InsertKeeps(db, t, row); }
  }

  lemma EdgeBetweenNoted(db: Db, notes: Notes, b: int, e: int)
    requires Integrity(V1, db.rows) && Insert(db, Edge, EdgeRow(b, e)).Some?
    requires b in notes.homes && e in notes.homes && notes.homes[b] == notes.homes[e]
    requires NoteHolds(db, b, notes.homes[b]) && NoteHolds(db, e, notes.homes[e])
    ensures EdgeInWorkflow(db.rows[Ref(Edge, NextId(db, Edge)) := EdgeRow(b, e)], Ref(Edge, NextId(db, Edge)))
  {
    var r, row := Ref(Edge, NextId(db, Edge)), EdgeRow(b, e);
    assert BeginStateId in row.refs && EndStateId in row.refs;
    assert Target(V1, r, row, BeginStateId).value.0 == Ref(State, b);
    assert Target(V1, r, row, EndStateId).value.0 == Ref(State, e);
  }

  lemma PutEdgeKeeps(s: Shared, t: Tid, b: int, e: int)
    requires Inv(s) && Allowed(s, PutEdge(t, b, e))
    ensures Sound(Inserted(s.db, Edge, EdgeRow(b, e))) && StatesKept(s.db, Inserted(s.db, Edge, EdgeRow(b, e)))
  {
    hide StatesKept, NoteHolds, Insert, EdgeInWorkflow, EdgesInWorkflows, NoTwinEdges, Integrity;
    assert NoteHolds(s.db, b, s.notes[t].homes[b]) && NoteHolds(s.db, e, s.notes[t].homes[e]);
    if Insert(s.db, Edge, EdgeRow(b, e)).Some? { EdgeBetweenNoted(s.db, s.notes[t], b, e); }
    InsertedKeeps(s.db, Edge, EdgeRow(b, e));
  }

  lemma RemoveKeeps(db: Db, r: Ref)
    requires Sound(db)
    ensures var db' := db.(rows := Delete(V1, db.rows, {r})); Sound(db') && StatesKept(db, db')
  {
    hide Sound;
    DeleteKeeps(db, {r});
    var dead := Doomed(V1, db.rows, {r});
    forall k | k in Without(V1, db.rows, dead)
      ensures ValueOf(Without(V1, db.rows, dead)[k], WorkflowId) == ValueOf(db.rows[k], WorkflowId)
    {
      SurvivorKeeps(db.rows, dead, k, WorkflowId);
    }
  }

  lemma UpdatedKeeps(db: Db, r: Ref, row: Row)
    requires Sound(db) && r in db.rows && row.refs == db.rows[r].refs && Shaped(r, row)
    ensures Sound(Updated(db, r, row)) && StatesKept(db, Updated(db, r, row))
  {
    hide Sound, Shaped;
    UpdateKeeps(db, r, row);
  }

  lemma SetsKeep(s: Shared, a: Action)
    requires Inv(s) && Allowed(s, a) && (a.SetState? || a.SetWorkflow?)
    ensures Sound(Written(s.db, a)) && StatesKept(s.db, Written(s.db, a))
  {
    hide StatesKept, Shaped, EdgesInWorkflows, NoTwinEdges, Consistent, StateOverlay, WorkflowOverlay;
    var r := if a.SetState? then Ref(State, a.s.id.value) else Ref(Workflow, a.w.id.value);
    var sdto := if a.SetState? then a.s else StateDto(None, None, None, None, None, None, None, None);
    var wdto := if a.SetWorkflow? then a.w else WorkflowDto(None, None, None);
    if r in s.db.rows {
      SoundShape(s.db, r);
      OverlaysFit(r, s.db.rows[r], sdto, wdto);
      UpdatedKeeps(s.db, r, if a.SetState? then StateOverlay(s.db.rows[r], sdto) else WorkflowOverlay(s.db.rows[r], wdto));
    } else {
      NothingKept(s.db);
    }
  }

  lemma NothingKept(db: Db)
    requires Consistent(db)
    ensures StatesKept(db, db)
  {
  }

  lemma OtherKeeps(db: Db, after: Db)
    requires Sound(db) && OnlyElsewhere(db, after)
    ensures Sound(after) && StatesKept(db, after)
  {
    ElsewhereKeeps(db, after);
    ElsewhereKeepsStates(db, after);
  }

  lemma ElsewhereKeepsStates(db: Db, after: Db)
    requires OnlyElsewhere(db, after)
    ensures StatesKept(db, after)
  {
    hide Consistent;
  }

  lemma WrittenKeeps(s: Shared, a: Action)
    requires Inv(s) && Allowed(s, a)
    ensures Sound(Written(s.db, a)) && StatesKept(s.db, Written(s.db, a))
  {
    hide Sound, StatesKept, Insert, Delete, OnlyElsewhere, ExistsByCaption, NoteHolds, StateOverlay, WorkflowOverlay;
    SoundKeepsItself(s.db);
    match a
    case PutEdge(t, b, e) => PutEdgeKeeps(s, t, b, e);
    case PutState(dto) => InsertedKeeps(s.db, State, StateRow(dto));
    case PutWorkflow(_, dto) => InsertedKeeps(s.db, Workflow, WorkflowRow(dto.caption.value, dto.description));
    case SetState(_) => SetsKeep(s, a);
    case SetWorkflow(_, _) => SetsKeep(s, a);
    case Remove(r) => RemoveKeeps(s.db, r);
    case Other(after) => if OnlyElsewhere(s.db, after) { OtherKeeps(s.db, after); }
    case _ =>
  }

  lemma SoundKeepsItself(db: Db)
    requires Sound(db)
    ensures StatesKept(db, db)
  {
    NothingKept(db);
  }

  lemma NotesStay(db: Db, db': Db, notes: map<Tid, Notes>)
    requires NotesHold(db, notes) && StatesKept(db, db')
    ensures NotesHold(db', notes)
  {
    forall t, id | t in notes && id in notes[t].homes ensures NoteHolds(db', id, notes[t].homes[id]) {
      assert NoteHolds(db, id, notes[t].homes[id]);
    }
  }

  lemma NotedHolds(db: Db, notes: map<Tid, Notes>, a: Action)
    requires NotesHold(db, notes) && Looks(a) && a.t in notes
    requires forall r | r in db.rows :: 0 < r.id < NextId(db, r.table)
    ensures NotesHold(db, notes[a.t := Noted(db, notes[a.t], a)])
  {
    var notes' := notes[a.t := Noted(db, notes[a.t], a)];
    forall t, id | t in notes' && id in notes'[t].homes ensures NoteHolds(db, id, notes'[t].homes[id]) {
      if t in notes && id in notes[t].homes { assert NoteHolds(db, id, notes[t].homes[id]); }
    }
  }

  lemma ActKeeps(s: Shared, a: Action)
    requires Inv(s) && Allowed(s, a)
    ensures Inv(Act(s, a))
  {
    hide StatesKept, NotesHold, Noted, Written, Shaped, Integrity, EdgesInWorkflows, NoTwinEdges;
    if Looks(a) {
      NotedHolds(s.db, s.notes, a);
    } else {
      WrittenKeeps(s, a);
      NotesStay(s.db, Written(s.db, a), s.notes);
    }
  }

  /**
   However the threads' reads and writes interleave, references resolve, both ends of an edge lie in
   one workflow and no ordered pair of states has two edges.
   */
  lemma {:induction false} ThreadsKeepGraph(s: Shared, acts: seq<Action>)
    requires Inv(s) && Run(s, acts)
    ensures Inv(After(s, acts)) && Sound(After(s, acts).db)
    decreases |acts|
  {
    hide Sound, NotesHold, Allowed, Act;
    if acts != [] {
      ActKeeps(s, acts[0]);
      ThreadsKeepGraph(Act(s, acts[0]), acts[1..]);
    }
  }

  // ---------------------------------------------------------------- captions

  /** At this very moment the write brings no caption that another workflow has. */
  predicate KeepsCaptions(db: Db, a: Action) {
    match a
    case PutWorkflow(_, dto) => dto.caption.Some? ==> !HeldByOther(db.rows, dto.caption.value, NextId(db, Workflow))
    case SetWorkflow(_, dto) =>
      dto.id.Some? && dto.caption.Some? && Ref(Workflow, dto.id.value) in db.rows ==>
        !HeldByOther(db.rows, dto.caption.value, dto.id.value)
    case _ => true
  }

  /** createWorkflow's insert keeps captions distinct exactly when the caption is empty or absent at that moment. */
  lemma CaptionsAfterInsert(db: Db, dto: WorkflowDto)
    requires CaptionsDiffer(db.rows) && dto.caption.Some?
    ensures CaptionsDiffer(Inserted(db, Workflow, WorkflowRow(dto.caption.value, dto.description)).rows)
            <==> !HeldByOther(db.rows, dto.caption.value, NextId(db, Workflow))
  {
    CaptionsAfterPut(db.rows, Ref(Workflow, NextId(db, Workflow)), WorkflowRow(dto.caption.value, dto.description), dto.caption.value);
  }

  /** updateWorkflow's update keeps them exactly when the caption is not given, empty, or held by no other workflow then. */
  lemma CaptionsAfterUpdate(db: Db, dto: WorkflowDto)
    requires Consistent(db) && CaptionsDiffer(db.rows) && dto.id.Some? && Ref(Workflow, dto.id.value) in db.rows
    ensures var r := Ref(Workflow, dto.id.value);
            CaptionsDiffer(Updated(db, r, WorkflowOverlay(db.rows[r], dto)).rows)
            <==> dto.caption.None? || !HeldByOther(db.rows, dto.caption.value, dto.id.value)
  {
    var r := Ref(Workflow, dto.id.value);
    assert Shaped(r, db.rows[r]);
    if dto.caption.Some? {
      CaptionsAfterPut(db.rows, r, WorkflowOverlay(db.rows[r], dto), dto.caption.value);
    } else {
      SameCaptions(db.rows, db.rows[r := WorkflowOverlay(db.rows[r], dto)]);
    }
  }

  lemma OtherInsertKeepsCaptions(db: Db, t: Table, row: Row)
    requires CaptionsDiffer(db.rows) && !t.Workflow?
    ensures CaptionsDiffer(Inserted(db, t, row).rows)
  {
    SameCaptions(db.rows, Inserted(db, t, row).rows);
  }

  lemma StateUpdateKeepsCaptions(db: Db, r: Ref, row: Row)
    requires CaptionsDiffer(db.rows) && !r.table.Workflow?
    ensures CaptionsDiffer(Updated(db, r, row).rows)
  {
    SameCaptions(db.rows, Updated(db, r, row).rows);
  }

  lemma ElsewhereKeepsCaptions(db: Db, after: Db)
    requires CaptionsDiffer(db.rows) && OnlyElsewhere(db, after)
    ensures CaptionsDiffer(after.rows)
  {
    hide Consistent;
    SameCaptions(db.rows, after.rows);
  }

  /** A write keeps captions distinct exactly when its condition holds at that moment. */
  lemma WriteKeepsCaptionsIff(db: Db, a: Action)
    requires Consistent(db) && CaptionsDiffer(db.rows) && (a.PutWorkflow? ==> ValidWorkflow(a.w))
    ensures CaptionsDiffer(Written(db, a).rows) <==> KeepsCaptions(db, a)
  {
    hide Consistent, CaptionsDiffer, HeldByOther, Inserted, Updated, Delete, OnlyElsewhere, StateOverlay, WorkflowOverlay;
    match a
    case PutEdge(_, b, e) => OtherInsertKeepsCaptions(db, Edge, EdgeRow(b, e));
    case PutState(dto) => if ValidState(dto) { OtherInsertKeepsCaptions(db, State, StateRow(dto)); }
    case PutWorkflow(_, dto) => CaptionsAfterInsert(db, dto);
    case SetState(dto) =>
      if dto.id.Some? && Ref(State, dto.id.value) in db.rows {
        StateUpdateKeepsCaptions(db, Ref(State, dto.id.value), StateOverlay(db.rows[Ref(State, dto.id.value)], dto));
      }
    case SetWorkflow(_, dto) => if dto.id.Some? && Ref(Workflow, dto.id.value) in db.rows { CaptionsAfterUpdate(db, dto); }
    case Remove(r) => DeleteKeepsCaptions(db.rows, {r});
    case Other(after) => if OnlyElsewhere(db, after) { ElsewhereKeepsCaptions(db, after); }
    case _ =>
  }

  /** Captions are distinct now and after every action of the run. */
  ghost predicate AlwaysDistinct(s: Shared, acts: seq<Action>)
    requires Run(s, acts)
    decreases |acts|
  {
    CaptionsDiffer(s.db.rows) && (acts == [] || AlwaysDistinct(Act(s, acts[0]), acts[1..]))
  }

  /** Every write of the run meets its condition when it happens. */
  ghost predicate AllKeep(s: Shared, acts: seq<Action>)
    requires Run(s, acts)
    decreases |acts|
  {
    acts == [] || (KeepsCaptions(s.db, acts[0]) && AllKeep(Act(s, acts[0]), acts[1..]))
  }

  lemma ActKeepsCaptionsIff(s: Shared, a: Action)
    requires Inv(s) && CaptionsDiffer(s.db.rows) && Allowed(s, a)
    ensures CaptionsDiffer(Act(s, a).db.rows) <==> KeepsCaptions(s.db, a)
  {
    hide Sound, NotesHold, CaptionsDiffer, HeldByOther, Written, Noted, ExistsByCaption;
    SoundIsConsistent(s.db);
    if !Looks(a) { WriteKeepsCaptionsIff(s.db, a); }
  }

  /**
   In any interleaving captions stay distinct exactly as long as every write meets its condition: the
   first one that does not leaves two workflows of one caption.
   */
  lemma {:induction false} CaptionsStayDistinctIff(s: Shared, acts: seq<Action>)
    requires Inv(s) && CaptionsDiffer(s.db.rows) && Run(s, acts)
    ensures AlwaysDistinct(s, acts) <==> AllKeep(s, acts)
    decreases |acts|
  {
    hide Inv, CaptionsDiffer, Allowed, Act, KeepsCaptions;
    if acts != [] {
      ActKeeps(s, acts[0]);
      ActKeepsCaptionsIff(s, acts[0]);
      if KeepsCaptions(s.db, acts[0]) { CaptionsStayDistinctIff(Act(s, acts[0]), acts[1..]); }
    }
  }

  /** One thread at a time, each write right after its look, meets the condition. */
  lemma FreshLookKeeps(db: Db, t: Tid, dto: WorkflowDto)
    requires dto.caption.Some? && !ExistsByCaption(db.rows, dto.caption.value)
    ensures KeepsCaptions(db, PutWorkflow(t, dto)) && KeepsCaptions(db, SetWorkflow(t, dto))
  {
    assert dto.caption.value == "" ==> UpToNul(dto.caption.value) == "";
  }

  // ---------------------------------------------------------------- the races

  lemma RunFrom(s: Shared, a: Action, rest: seq<Action>)
    requires Allowed(s, a) && Run(Act(s, a), rest)
    ensures Run(s, [a] + rest) && After(s, [a] + rest) == After(Act(s, a), rest)
  {
    hide Allowed, Act;
    assert ([a] + rest)[1..] == rest;
  }

  lemma FourActs(s: Shared, a: Action, b: Action, c: Action, d: Action)
    requires Allowed(s, a) && Allowed(Act(s, a), b) && Allowed(Act(Act(s, a), b), c)
    requires Allowed(Act(Act(Act(s, a), b), c), d)
    ensures Run(s, [a, b, c, d]) && After(s, [a, b, c, d]) == Act(Act(Act(Act(s, a), b), c), d)
  {
    hide Allowed, Act;
    RunFrom(Act(Act(Act(s, a), b), c), d, []);
    RunFrom(Act(Act(s, a), b), c, [d] + []);
    RunFrom(Act(s, a), b, [c] + ([d] + []));
    RunFrom(s, a, [b] + ([c] + ([d] + [])));
    assert [a, b, c, d] == [a] + ([b] + ([c] + ([d] + [])));
  }

  lemma LookFindsFree(s: Shared, t: Tid, caption: string)
    requires t in s.notes && !ExistsByCaption(s.db.rows, caption)
    ensures var s' := Act(s, LookCaption(t, caption));
            s'.db == s.db && s'.notes.Keys == s.notes.Keys && caption in s'.notes[t].free
            && forall u | u in s.notes :: s.notes[u].free <= s'.notes[u].free
  {
  }

  /** Both threads look first, and both create then: the run is possible and ends with one caption twice. */
  lemma CaptionRace(s: Shared, t: Tid, u: Tid, dto: WorkflowDto)
    requires Inv(s) && CaptionsDiffer(s.db.rows) && t in s.notes && u in s.notes && t != u
    requires ValidWorkflow(dto) && UpToNul(dto.caption.value) != "" && !ExistsByCaption(s.db.rows, dto.caption.value)
    ensures var acts := [LookCaption(t, dto.caption.value), LookCaption(u, dto.caption.value), PutWorkflow(t, dto), PutWorkflow(u, dto)];
            Run(s, acts) && !CaptionsDiffer(After(s, acts).db.rows)
  {
    hide Sound, NotesHold, CaptionsDiffer, HeldByOther, ExistsByCaption, Noted;
    var c := dto.caption.value;
    var s1 := Act(s, LookCaption(t, c));
    LookFindsFree(s, t, c);
    var s2 := Act(s1, LookCaption(u, c));
    LookFindsFree(s1, u, c);
    FourActs(s, LookCaption(t, c), LookCaption(u, c), PutWorkflow(t, dto), PutWorkflow(u, dto));
    CaptionTwice(s.db, dto);
  }

  lemma CaptionTwice(db: Db, dto: WorkflowDto)
    requires dto.caption.Some? && UpToNul(dto.caption.value) != ""
    ensures var row := WorkflowRow(dto.caption.value, dto.description);
            !CaptionsDiffer(Inserted(Inserted(db, Workflow, row), Workflow, row).rows)
  {
    var row := WorkflowRow(dto.caption.value, dto.description);
    var r := Ref(Workflow, NextId(db, Workflow));
    var db1 := Inserted(db, Workflow, row);
    assert db1.rows == db.rows[r := row] && NextId(db1, Workflow) == r.id + 1;
    var r1 := Ref(Workflow, r.id + 1);
    var rows2 := Inserted(db1, Workflow, row).rows;
    assert rows2 == db1.rows[r1 := row] && r in rows2 && r1 in rows2 && Caption(rows2[r]) == Caption(rows2[r1]);
  }

  function Recaption(id: int, caption: string): WorkflowDto {
    WorkflowDto(Some(id), Some(caption), None)
  }

  lemma SetsRow(s: Shared, t: Tid, id: int, caption: string)
    requires t in s.notes && caption in s.notes[t].free && Ref(Workflow, id) in s.db.rows
    ensures Allowed(s, SetWorkflow(t, Recaption(id, caption)))
    ensures var r := Ref(Workflow, id);
            Act(s, SetWorkflow(t, Recaption(id, caption)))
            == s.(db := Updated(s.db, r, WorkflowOverlay(s.db.rows[r], Recaption(id, caption))))
  {
    hide WorkflowOverlay;
  }

  /** The same with two updates of different workflows. */
  lemma UpdateRace(s: Shared, t: Tid, u: Tid, v: int, w: int, caption: string)
    requires Inv(s) && t in s.notes && u in s.notes && t != u
    requires Ref(Workflow, v) in s.db.rows && Ref(Workflow, w) in s.db.rows && v != w
    requires UpToNul(caption) != "" && !ExistsByCaption(s.db.rows, caption)
    ensures var acts := [ LookCaption(t, caption), LookCaption(u, caption), SetWorkflow(t, Recaption(v, caption)),
                          SetWorkflow(u, Recaption(w, caption)) ];
            Run(s, acts) && !CaptionsDiffer(After(s, acts).db.rows)
  {
    SoundShape(s.db, Ref(Workflow, v));
    SoundShape(s.db, Ref(Workflow, w));
    UpdatedTwice(s.db.rows, v, w, Recaption(v, caption), Recaption(w, caption), caption);
    hide *;
    LookFindsFree(s, t, caption);
    var s1 := Act(s, LookCaption(t, caption));
    LookFindsFree(s1, u, caption);
    var s2 := Act(s1, LookCaption(u, caption));
    SetsRow(s2, t, v, caption);
    var s3 := Act(s2, SetWorkflow(t, Recaption(v, caption)));
    RowsStay(s2.db, Ref(Workflow, v), WorkflowOverlay(s2.db.rows[Ref(Workflow, v)], Recaption(v, caption)));
    SetsRow(s3, u, w, caption);
    FourActs(s, LookCaption(t, caption), LookCaption(u, caption), SetWorkflow(t, Recaption(v, caption)), SetWorkflow(u, Recaption(w, caption)));
    RowsStay(s3.db, Ref(Workflow, w), WorkflowOverlay(s3.db.rows[Ref(Workflow, w)], Recaption(w, caption)));
  }

  lemma RowsStay(db: Db, r: Ref, row: Row)
    ensures Updated(db, r, row).rows == db.rows[r := row]
  {
  }

  lemma UpdatedTwice(rows: Rows, v: int, w: int, dto1: WorkflowDto, dto2: WorkflowDto, caption: string)
    requires Ref(Workflow, v) in rows && Ref(Workflow, w) in rows && v != w && UpToNul(caption) != ""
    requires rows[Ref(Workflow, v)].data.WorkflowData? && rows[Ref(Workflow, w)].data.WorkflowData?
    requires dto1.caption == Some(caption) && dto2.caption == Some(caption)
    ensures var rows1 := rows[Ref(Workflow, v) := WorkflowOverlay(rows[Ref(Workflow, v)], dto1)];
            !CaptionsDiffer(rows1[Ref(Workflow, w) := WorkflowOverlay(rows1[Ref(Workflow, w)], dto2)])
  {
    var rows1 := rows[Ref(Workflow, v) := WorkflowOverlay(rows[Ref(Workflow, v)], dto1)];
    var rows2 := rows1[Ref(Workflow, w) := WorkflowOverlay(rows1[Ref(Workflow, w)], dto2)];
    assert Ref(Workflow, v) in rows2 && Ref(Workflow, w) in rows2;
    assert Caption(rows2[Ref(Workflow, v)]) == Caption(rows2[Ref(Workflow, w)]) == UpToNul(caption);
  }
}
