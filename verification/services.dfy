/**
 The workflow, state and edge services with the repositories under them, as functions from one
 database to the next.
 */
module Services {
  import opened Sqlite
  import opened Store
  import opened SchemaV1
  import opened Texts

  datatype WorkflowDto = WorkflowDto(id: Option<int>, caption: Option<string>, description: Option<string>)

  datatype StateDto = StateDto(id: Option<int>, workflowId: Option<int>, caption: Option<string>, description: Option<string>,
                               weight: Option<int>, orderNumber: Option<int>, isArchive: Option<bool>, isQueue: Option<bool>)

  datatype EdgeDto = EdgeDto(beginStateId: Option<int>, endStateId: Option<int>)

  /** `Done` is what is read back at the end; `Thrown` is an exception, which may come after the write. */
  datatype Answer = Refused | Thrown | Done(id: int)

  /** The outcome of a delete, as the HTTP code that goes with it; `Broken` is an exception. */
  datatype Deletion = Deleted | Missing404 | Conflict409 | Failed500 | Broken

  function Or<T>(o: Option<T>, default: T): T {
    if o.Some? then o.value else default
  }

  /** The value of a column, or 0 where there is none: ids are positive. */
  function ValueOf(row: Row, c: Column): int {
    if c in row.refs then row.refs[c] else 0
  }

  function Caption(row: Row): string {
    match row.data
    case WorkflowData(caption, _) => caption
    case StateData(caption, _, _, _, _, _) => caption
    case _ => ""
  }

  // ---------------------------------------------------------------- queries

  /** The result set takes text in the form of a date for a date, and asking it for a string throws. */
  predicate Readable(row: Row) {
    match row.data
    case WorkflowData(caption, description) => ReadableText(caption, description)
    case StateData(caption, description, _, _, _, _) => ReadableText(caption, description)
    case _ => true
  }

  predicate ReadableText(caption: string, description: Option<string>) {
    !LooksLikeDate(caption) && (description.Some? ==> !LooksLikeDate(description.value))
  }

  /** Texts as the engine has stored them. */
  predicate StoredText(caption: string, description: Option<string>) {
    '\0' !in caption && (description.Some? ==> '\0' !in description.value)
  }

  datatype Lookup = Absent | Unreadable | Present(row: Row)

  function FindById(rows: Rows, t: Table, id: int): Lookup {
    if id <= 0 || Ref(t, id) !in rows then Absent
    else if Readable(rows[Ref(t, id)]) then Present(rows[Ref(t, id)]) else Unreadable
  }

  /** What the engine is given is the caption up to the first NUL. */
  predicate ExistsByCaption(rows: Rows, caption: string) {
    caption != "" && exists r | r in rows :: r.table.Workflow? && Caption(rows[r]) == UpToNul(caption)
  }

  predicate UsedByItems(rows: Rows, state: int) {
    state > 0 && exists r | r in rows :: r.table.Item? && ValueOf(rows[r], StateId) == state
  }

  function StatesOf(rows: Rows, workflow: int): set<Ref> {
    if workflow <= 0 then {} else set r | r in rows && r.table.State? && ValueOf(rows[r], WorkflowId) == workflow
  }

  predicate EdgeExists(rows: Rows, begin: int, end: int) {
    begin > 0 && end > 0
    && exists r | r in rows :: r.table.Edge? && ValueOf(rows[r], BeginStateId) == begin && ValueOf(rows[r], EndStateId) == end
  }

  function EdgesAt(rows: Rows, state: int): set<Ref> {
    if state <= 0 then {}
    else set r | r in rows && r.table.Edge? && (ValueOf(rows[r], BeginStateId) == state || ValueOf(rows[r], EndStateId) == state)
  }

  /** The edges both of whose ends lie in the workflow: a join of Edge with State, twice. */
  function EdgesOf(rows: Rows, workflow: int): set<Ref> {
    if workflow <= 0 then {}
    else set r | r in rows && r.table.Edge? && Ref(State, ValueOf(rows[r], BeginStateId)) in StatesOf(rows, workflow)
                 && Ref(State, ValueOf(rows[r], EndStateId)) in StatesOf(rows, workflow)
  }

  // ---------------------------------------------------------------- inserts

  /** A row that would repeat what the schema declares UNIQUE; of the tables written here Edge and User do. */
  predicate Clashes(rows: Rows, t: Table, row: Row) {
    match t
    case Edge => exists r | r in rows :: r.table.Edge? && ValueOf(rows[r], BeginStateId) == ValueOf(row, BeginStateId)
                                         && ValueOf(rows[r], EndStateId) == ValueOf(row, EndStateId)
    case User => exists r | r in rows :: r.table.User? && rows[r].data.UserData? && row.data.UserData?
                                         && (rows[r].data.login == row.data.login || rows[r].data.email == row.data.email)
    case _ => false
  }

  /** INSERT fails when a foreign key leads nowhere or a UNIQUE constraint is broken. */
  function Insert(db: Db, t: Table, row: Row): Option<Db> {
    var r := Ref(t, NextId(db, t));
    if (forall c | c in row.refs :: Target(V1, r, row, c).Some? ==> Target(V1, r, row, c).value.0 in db.rows)
       && !Clashes(db.rows, t, row)
    then Some(Db(db.rows[r := row], db.next[t := r.id + 1]))
    else None
  }

  // ---------------------------------------------------------------- workflows

  predicate ValidWorkflow(dto: WorkflowDto) {
    && dto.caption.Some? && 0 < |dto.caption.value| <= 255
    && (dto.description.Some? ==> |dto.description.value| <= 1000)
  }

  function WorkflowRow(caption: string, description: Option<string>): Row {
    Row(map[], WorkflowData(UpToNul(caption), Map(description, UpToNul)))
  }

  /** The answer of a service that has written a row and reads it back. */
  function ReadBack(row: Row, id: int): Answer {
    if id <= 0 then Refused else if Readable(row) then Done(id) else Thrown
  }

  function CreateWorkflow(db: Db, dto: WorkflowDto): (Db, Answer) {
    if !ValidWorkflow(dto) || ExistsByCaption(db.rows, dto.caption.value) then (db, Refused)
    else
      var row := WorkflowRow(dto.caption.value, dto.description);
      match Insert(db, Workflow, row)
      case None => (db, Thrown)
      case Some(db') => (db', ReadBack(row, NextId(db, Workflow)))
  }

  function WorkflowOverlay(row: Row, dto: WorkflowDto): Row {
    if !row.data.WorkflowData? then row
    else row.(data := WorkflowData(if dto.caption.Some? then UpToNul(dto.caption.value) else row.data.caption,
                                   if dto.description.Some? then Map(dto.description, UpToNul) else row.data.description))
  }

  function UpdateWorkflow(db: Db, dto: WorkflowDto): (Db, Answer) {
    if dto.id.None? then (db, Refused)
    else match FindById(db.rows, Workflow, dto.id.value)
      case Absent => (db, Refused)
      case Unreadable => (db, Thrown)
      case Present(row) =>
        if dto.caption.Some? && dto.caption.value != Caption(row) && ExistsByCaption(db.rows, dto.caption.value)
        then (db, Refused)
        else if dto.caption.None? && dto.description.None? then (db, Refused)
        else
          var row' := WorkflowOverlay(row, dto);
          (db.(rows := db.rows[Ref(Workflow, dto.id.value) := row']), ReadBack(row', dto.id.value))
  }

  /** All states of the workflow are read before the first is looked at: None is an exception. */
  function CanDeleteWorkflow(rows: Rows, id: int): Option<bool> {
    if exists s | s in StatesOf(rows, id) :: !Readable(rows[s]) then None
    else Some(forall s | s in StatesOf(rows, id) :: !UsedByItems(rows, s.id))
  }

  ghost function DeleteWorkflow(db: Db, id: int): (Db, Deletion) {
    match FindById(db.rows, Workflow, id)
    case Absent => (db, Missing404)
    case Unreadable => (db, Broken)
    case Present(_) =>
      match CanDeleteWorkflow(db.rows, id)
      case None => (db, Broken)
      case Some(can) =>
        if !can then (db, Conflict409) else (db.(rows := Delete(V1, db.rows, {Ref(Workflow, id)})), Deleted)
  }

  // ---------------------------------------------------------------- states

  predicate ValidState(dto: StateDto) {
    && dto.workflowId.Some?
    && dto.caption.Some? && 0 < |dto.caption.value| <= 255
    && (dto.description.Some? ==> |dto.description.value| <= 1000)
    && (dto.weight.Some? ==> 0 <= dto.weight.value <= 100)
  }

  function StateRow(dto: StateDto): Row
    requires dto.workflowId.Some? && dto.caption.Some?
  {
    Row(map[WorkflowId := dto.workflowId.value],
        StateData(UpToNul(dto.caption.value), Map(dto.description, UpToNul), Or(dto.weight, 0), Or(dto.orderNumber, 0),
                  Or(dto.isArchive, false), Or(dto.isQueue, false)))
  }

  function CreateState(db: Db, dto: StateDto): (Db, Answer) {
    if !ValidState(dto) then (db, Refused)
    else match FindById(db.rows, Workflow, dto.workflowId.value)
      case Absent => (db, Refused)
      case Unreadable => (db, Thrown)
      case Present(_) =>
        match Insert(db, State, StateRow(dto))
        case None => (db, Thrown)
        case Some(db') => (db', ReadBack(StateRow(dto), NextId(db, State)))
  }

  /** The columns that are given replace those of the row; workflowId is not among them. */
  function StateOverlay(row: Row, dto: StateDto): Row {
    if !row.data.StateData? then row
    else row.(data := StateData(if dto.caption.Some? then UpToNul(dto.caption.value) else row.data.caption,
                                if dto.description.Some? then Map(dto.description, UpToNul) else row.data.description,
                                Or(dto.weight, row.data.weight), Or(dto.orderNumber, row.data.orderNumber),
                                Or(dto.isArchive, row.data.isArchive), Or(dto.isQueue, row.data.isQueue)))
  }

  predicate NothingGiven(dto: StateDto) {
    dto.caption.None? && dto.description.None? && dto.weight.None? && dto.orderNumber.None? && dto.isArchive.None?
    && dto.isQueue.None?
  }

  function UpdateState(db: Db, dto: StateDto): (Db, Answer) {
    if dto.id.None? then (db, Refused)
    else match FindById(db.rows, State, dto.id.value)
      case Absent => (db, Refused)
      case Unreadable => (db, Thrown)
      case Present(row) =>
        if dto.isArchive == Some(true) && UsedByItems(db.rows, dto.id.value) then (db, Refused)
        else if NothingGiven(dto) then (db, Refused)
        else
          var row' := StateOverlay(row, dto);
          (db.(rows := db.rows[Ref(State, dto.id.value) := row']), ReadBack(row', dto.id.value))
  }

  predicate CanDeleteState(rows: Rows, id: int) {
    !UsedByItems(rows, id) && EdgesAt(rows, id) == {}
  }

  ghost function DeleteState(db: Db, id: int): (Db, Deletion) {
    match FindById(db.rows, State, id)
    case Absent => (db, Missing404)
    case Unreadable => (db, Broken)
    case Present(_) =>
      if !CanDeleteState(db.rows, id) then (db, Conflict409)
      else (db.(rows := Delete(V1, db.rows, {Ref(State, id)})), Deleted)
  }

  // ---------------------------------------------------------------- edges

  predicate Archived(row: Row) {
    row.data.StateData? && row.data.isArchive
  }

  /** 200, or the error code of the first check that fails; None is an exception. */
  function ValidateEdge(rows: Rows, begin: int, end: int): Option<int> {
    match FindById(rows, State, begin)
    case Absent => Some(404)
    case Unreadable => None
    case Present(b) =>
      match FindById(rows, State, end)
      case Absent => Some(404)
      case Unreadable => None
      case Present(e) =>
        if ValueOf(b, WorkflowId) != ValueOf(e, WorkflowId) then Some(400)
        else if Archived(b) || Archived(e) then Some(400)
        else Some(200)
  }

  function EdgeRow(begin: int, end: int): Row {
    Row(map[BeginStateId := begin, EndStateId := end], NoData)
  }

  function CreateEdge(db: Db, dto: EdgeDto): (Db, Answer) {
    if dto.beginStateId.None? || dto.endStateId.None? then (db, Refused)
    else
      var begin, end := dto.beginStateId.value, dto.endStateId.value;
      match ValidateEdge(db.rows, begin, end)
      case None => (db, Thrown)
      case Some(code) =>
        if code != 200 || EdgeExists(db.rows, begin, end) then (db, Refused)
        else match Insert(db, Edge, EdgeRow(begin, end))
          case None => (db, Thrown)
          case Some(db') => (db', ReadBack(EdgeRow(begin, end), NextId(db, Edge)))
  }

  ghost function DeleteEdge(db: Db, id: int): (Db, Deletion) {
    if FindById(db.rows, Edge, id).Present? then (db.(rows := Delete(V1, db.rows, {Ref(Edge, id)})), Deleted)
    else (db, if FindById(db.rows, Edge, id).Absent? then Missing404 else Broken)
  }

  // ---------------------------------------------------------------- the services at work on a database

  method InsertRow(db: Database, t: Table, row: Row) returns (id: Option<int>)
    modifies db
    ensures match Insert(old(db.State()), t, row)
            case None => id.None? && db.State() == old(db.State())
            case Some(after) => id == Some(NextId(old(db.State()), t)) && db.State() == after
  {
    var inserted := Insert(db.State(), t, row);
    if inserted.None? { return None; }
    id := Some(NextId(db.State(), t));
    db.rows, db.next := inserted.value.rows, inserted.value.next;
  }

  class WorkflowService {
    const db: Database

    constructor (db: Database)
      ensures this.db == db
    {
      this.db := db;
    }

    method DoCreate(dto: WorkflowDto) returns (answer: Answer)
      modifies db
      ensures (db.State(), answer) == CreateWorkflow(old(db.State()), dto)
    {
      if !ValidWorkflow(dto) { return Refused; }
      if ExistsByCaption(db.rows, dto.caption.value) { return Refused; }
      var id := InsertRow(db, Workflow, WorkflowRow(dto.caption.value, dto.description));
      if id.None? { return Thrown; }
      answer := Reread(db, Workflow, id.value);
    }

    method DoUpdate(dto: WorkflowDto) returns (answer: Answer)
      modifies db
      ensures (db.State(), answer) == UpdateWorkflow(old(db.State()), dto)
    {
      if dto.id.None? { return Refused; }
      var existing := FindById(db.rows, Workflow, dto.id.value);
      if existing.Absent? { return Refused; }
      if existing.Unreadable? { return Thrown; }
      if dto.caption.Some? && dto.caption.value != Caption(existing.row) {
        if ExistsByCaption(db.rows, dto.caption.value) { return Refused; }
      }
      if dto.caption.None? && dto.description.None? { return Refused; }
      db.rows := db.rows[Ref(Workflow, dto.id.value) := WorkflowOverlay(existing.row, dto)];
      answer := Reread(db, Workflow, dto.id.value);
    }

    /** Reads all states, then looks at one after the other and stops at the first that an item uses. */
    method CanDelete(id: int) returns (can: Option<bool>)
      ensures can == CanDeleteWorkflow(db.rows, id)
    {
      var states := StatesOf(db.rows, id);
      if exists s | s in states :: !Readable(db.rows[s]) { return None; }
      while states != {}
        invariant states <= StatesOf(db.rows, id)
        invariant forall s | s in StatesOf(db.rows, id) - states :: !UsedByItems(db.rows, s.id)
        decreases states
      {
        var s :| s in states;
        if UsedByItems(db.rows, s.id) { return Some(false); }
        states := states - {s};
      }
      can := Some(true);
    }

    method DoDelete(id: int) returns (result: Deletion)
      requires db.schema == V1
      modifies db
      ensures (db.State(), result) == DeleteWorkflow(old(db.State()), id)
    {
      var existing := FindById(db.rows, Workflow, id);
      if !existing.Present? { return if existing.Absent? then Missing404 else Broken; }
      var can := CanDelete(id);
      if can.None? { return Broken; }
      if !can.value { return Conflict409; }
      var affected := db.DeleteRow(Ref(Workflow, id));
      result := if affected > 0 then Deleted else Failed500;
    }
  }

  /** The row that was just written, found by its id. */
  method Reread(db: Database, t: Table, id: int) returns (answer: Answer)
    ensures answer == match FindById(db.rows, t, id) case Absent => Refused case Unreadable => Thrown case Present(_) => Done(id)
  {
    var found := FindById(db.rows, t, id);
    match found
    case Absent => answer := Refused;
    case Unreadable => answer := Thrown;
    case Present(_) => answer := Done(id);
  }

  class StateService {
    const db: Database

    constructor (db: Database)
      ensures this.db == db
    {
      this.db := db;
    }

    method DoCreate(dto: StateDto) returns (answer: Answer)
      modifies db
      ensures (db.State(), answer) == CreateState(old(db.State()), dto)
    {
      if !ValidState(dto) { return Refused; }
      var workflow := FindById(db.rows, Workflow, dto.workflowId.value);
      if workflow.Absent? { return Refused; }
      if workflow.Unreadable? { return Thrown; }
      var id := InsertRow(db, State, StateRow(dto));
      if id.None? { return Thrown; }
      answer := Reread(db, State, id.value);
    }

    method DoUpdate(dto: StateDto) returns (answer: Answer)
      modifies db
      ensures (db.State(), answer) == UpdateState(old(db.State()), dto)
    {
      if dto.id.None? { return Refused; }
      var existing := FindById(db.rows, State, dto.id.value);
      if existing.Absent? { return Refused; }
      if existing.Unreadable? { return Thrown; }
      if dto.isArchive == Some(true) && UsedByItems(db.rows, dto.id.value) { return Refused; }
      if NothingGiven(dto) { return Refused; }
      db.rows := db.rows[Ref(State, dto.id.value) := StateOverlay(existing.row, dto)];
      answer := Reread(db, State, dto.id.value);
    }

    method DoDelete(id: int) returns (result: Deletion)
      requires db.schema == V1
      modifies db
      ensures (db.State(), result) == DeleteState(old(db.State()), id)
    {
      var existing := FindById(db.rows, State, id);
      if !existing.Present? { return if existing.Absent? then Missing404 else Broken; }
      if UsedByItems(db.rows, id) || EdgesAt(db.rows, id) != {} { return Conflict409; }
      var affected := db.DeleteRow(Ref(State, id));
      result := if affected > 0 then Deleted else Failed500;
    }
  }

  class EdgeService {
    const db: Database

    constructor (db: Database)
      ensures this.db == db
    {
      this.db := db;
    }

    method DoCreate(dto: EdgeDto) returns (answer: Answer)
      modifies db
      ensures (db.State(), answer) == CreateEdge(old(db.State()), dto)
    {
      if dto.beginStateId.None? || dto.endStateId.None? { return Refused; }
      var code := ValidateEdge(db.rows, dto.beginStateId.value, dto.endStateId.value);
      if code.None? { return Thrown; }
      if code.value != 200 { return Refused; }
      if EdgeExists(db.rows, dto.beginStateId.value, dto.endStateId.value) { return Refused; }
      var id := InsertRow(db, Edge, EdgeRow(dto.beginStateId.value, dto.endStateId.value));
      if id.None? { return Thrown; }
      answer := Reread(db, Edge, id.value);
    }

    method DoDelete(id: int) returns (result: Deletion)
      requires db.schema == V1
      modifies db
      ensures (db.State(), result) == DeleteEdge(old(db.State()), id)
    {
      var existing := FindById(db.rows, Edge, id);
      if !existing.Present? { return if existing.Absent? then Missing404 else Broken; }
      var affected := db.DeleteRow(Ref(Edge, id));
      result := if affected > 0 then Deleted else Failed500;
    }
  }
}
