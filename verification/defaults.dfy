/** The second migration: it adds the administrator, the basic workflow and the week, and takes them away. */
module Defaults {
  import opened Sqlite
  import opened Store
  import opened SchemaV1
  import opened Services
  import opened Graph

  const LOGIN := "admin"
  const EMAIL := "admin@mail.local"
  const CAPTION := "Basic process"

  /** The password hash is whatever SHA-256 makes of the initial password. */
  function AdminRow(hash: string): Row {
    Row(map[], UserData(LOGIN, EMAIL, hash))
  }

  function BasicWorkflow(): Row {
    Row(map[], WorkflowData(CAPTION, Some(CAPTION)))
  }

  function DefaultState(workflow: int, caption: string, weight: int, order: int, isArchive: bool): Row {
    Row(map[WorkflowId := workflow], StateData(caption, Some(caption), weight, order, isArchive, false))
  }

  function DefaultStates(workflow: int): seq<Row> {
    [ DefaultState(workflow, "New", 0, 1, false),
      DefaultState(workflow, "In progress", 50, 2, false),
      DefaultState(workflow, "In review", 75, 3, false),
      DefaultState(workflow, "Done", 100, 4, false),
      DefaultState(workflow, "Archive", 100, 5, true) ]
  }

  /** Transitions between the five states, given by their ids. */
  function EdgesAmong(new_: int, inProgress: int, review: int, done: int, archive: int): seq<Row> {
    [ EdgeRow(new_, inProgress),
      EdgeRow(inProgress, review),
      EdgeRow(review, inProgress),
      EdgeRow(review, done),
      EdgeRow(inProgress, done),
      EdgeRow(done, archive) ]
  }

  /** The same where the ids are consecutive. */
  function DefaultEdges(first: int): seq<Row> {
    EdgesAmong(first, first + 1, first + 2, first + 3, first + 4)
  }

  function WorkDay(day: int): Row {
    Row(map[], DayData(day, true, Some(("09:00", "18:00")), 60))
  }

  function DayOff(day: int): Row {
    Row(map[], DayData(day, false, None, 0))
  }

  function DefaultDays(): seq<Row> {
    [WorkDay(1), WorkDay(2), WorkDay(3), WorkDay(4), WorkDay(5), DayOff(6), DayOff(0)]
  }

  /** One INSERT after the other; the first that fails ends it. */
  function InsertAll(db: Db, t: Table, rows: seq<Row>): Option<Db>
    decreases |rows|
  {
    if rows == [] then Some(db)
    else
      var db1 :- Insert(db, t, rows[0]);
      InsertAll(db1, t, rows[1..])
  }

  /** The states of a workflow, the transitions between them, and the week. */
  function UpContents(db: Db, workflow: int): Option<Db> {
    var first := NextId(db, State);
    var db1 :- InsertAll(db, State, DefaultStates(workflow));
    var db2 :- InsertAll(db1, Edge, DefaultEdges(first));
    InsertAll(db2, StandardDay, DefaultDays())
  }

  function UpWorkflow(db: Db): Option<Db> {
    var workflow := NextId(db, Workflow);
    var db1 :- Insert(db, Workflow, BasicWorkflow());
    UpContents(db1, workflow)
  }

  function Up(db: Db, hash: string): Option<Db> {
    var db1 :- Insert(db, User, AdminRow(hash));
    UpWorkflow(db1)
  }

  function All(rows: Rows, t: Table): set<Ref> {
    set r | r in rows && r.table == t
  }

  function DefaultWorkflows(rows: Rows): set<Ref> {
    set r | r in rows && r.table.Workflow? && Caption(rows[r]) == CAPTION
  }

  function Admins(rows: Rows): set<Ref> {
    set r | r in rows && r.table.User? && rows[r].data.UserData? && rows[r].data.login == LOGIN
  }

  ghost function Down(rows: Rows): Rows {
    var rows1 := Delete(V1, rows, All(rows, StandardDay));
    var rows2 := Delete(V1, rows1, All(rows1, Edge));
    var rows3 := Delete(V1, rows2, All(rows2, State));
    var rows4 := Delete(V1, rows3, DefaultWorkflows(rows3));
    Delete(V1, rows4, Admins(rows4))
  }

  /** An edge of the default workflow. */
  predicate Leads(first: int, a: int, b: int) {
    exists i :: 0 <= i < |DefaultEdges(first)| && ValueOf(DefaultEdges(first)[i], BeginStateId) == first + a
                && ValueOf(DefaultEdges(first)[i], EndStateId) == first + b
  }

  /** Work goes forward one by one, back from the review and past it when there is none; nothing leaves the archive. */
  lemma DefaultTransitions(first: int, a: int, b: int)
    requires 0 <= a < 5 && 0 <= b < 5
    ensures Leads(first, a, b) <==> b == a + 1 || (a, b) == (2, 1) || (a, b) == (1, 3)
  {
    var edges := DefaultEdges(first);
    var i := if b == a + 1 then (if a == 0 then 0 else if a == 1 then 1 else if a == 2 then 3 else 5) else if a == 2 then 2 else 4;
    assert edges[i] in edges;
  }

  /** Five states of the workflow, further done from one to the next; the last and no other is archived. */
  lemma DefaultStatesAre(workflow: int)
    ensures var states := DefaultStates(workflow);
            && |states| == 5
            && (forall i | 0 <= i < 5 :: ValueOf(states[i], WorkflowId) == workflow && states[i].data.StateData?
                                         && states[i].data.orderNumber == i + 1 && !states[i].data.isQueue
                                         && (states[i].data.isArchive <==> i == 4))
            && states[0].data.weight == 0 && states[3].data.weight == states[4].data.weight == 100
            && (forall i | 0 <= i < 3 :: states[i].data.weight < states[i + 1].data.weight)
  {
  }

  /** Every weekday is there once, Monday to Friday from nine to six with a break of an hour. */
  lemma DefaultWeek()
    ensures var days := DefaultDays();
            && |days| == 7
            && (forall i | 0 <= i < 7 :: days[i].data.DayData?)
            && (forall i, j | 0 <= i < j < 7 :: days[i].data.weekDay != days[j].data.weekDay)
            && (forall i | 0 <= i < 7 ::
                  && 0 <= days[i].data.weekDay < 7
                  && (days[i].data.isWorkDay <==> 1 <= days[i].data.weekDay <= 5)
                  && days[i].data.hours == (if days[i].data.isWorkDay then Some(("09:00", "18:00")) else None)
                  && days[i].data.breakDuration == (if days[i].data.isWorkDay then 60 else 0))
  {
  }

  // ---------------------------------------------------------------- the statements at work

  /** The ids that lastInsertId returns on the way. */
  method DoInsertAll(db: Database, t: Table, rows: seq<Row>) returns (ids: Option<seq<int>>)
    modifies db
    ensures ids.Some? == InsertAll(old(db.State()), t, rows).Some?
    ensures ids.Some? ==> db.State() == InsertAll(old(db.State()), t, rows).value
    ensures ids.Some? ==> |ids.value| == |rows| && forall k | 0 <= k < |rows| :: ids.value[k] == NextId(old(db.State()), t) + k
  {
    ghost var first, whole := NextId(db.State(), t), InsertAll(db.State(), t, rows);
    var got: seq<int> := [];
    for i := 0 to |rows|
      invariant whole == InsertAll(db.State(), t, rows[i..])
      invariant NextId(db.State(), t) == first + i && |got| == i && forall k | 0 <= k < i :: got[k] == first + k
    {
      assert rows[i..][0] == rows[i] && rows[i..][1..] == rows[i + 1..];
      var id := InsertRow(db, t, rows[i]);
      if id.None? { return None; }
      got := got + [id.value];
    }
    ids := Some(got);
  }

  /** A failing statement is an exception; what was inserted before it is rolled back by the caller. */
  method DoUp(db: Database, hash: string) returns (ok: bool)
    modifies db
    ensures ok == Up(old(db.State()), hash).Some?
    ensures ok ==> db.State() == Up(old(db.State()), hash).value
  {
    var user := InsertRow(db, User, AdminRow(hash));
    if user.None? { return false; }
    var workflow := InsertRow(db, Workflow, BasicWorkflow());
    if workflow.None? { return false; }
    ok := DoContents(db, workflow.value);
  }

  method DoContents(db: Database, workflow: int) returns (ok: bool)
    modifies db
    ensures ok == UpContents(old(db.State()), workflow).Some?
    ensures ok ==> db.State() == UpContents(old(db.State()), workflow).value
  {
    hide InsertAll;
    var states := DoInsertAll(db, State, DefaultStates(workflow));
    if states.None? { return false; }
    var s := states.value;
    var edges := DoInsertAll(db, Edge, EdgesAmong(s[0], s[1], s[2], s[3], s[4]));
    if edges.None? { return false; }
    var days := DoInsertAll(db, StandardDay, DefaultDays());
    ok := days.Some?;
  }

  method DoDown(db: Database)
    requires db.schema == V1
    modifies db`rows
    ensures db.rows == Down(old(db.rows))
  {
    DeleteRows(db, All(db.rows, StandardDay));
    DeleteRows(db, All(db.rows, Edge));
    DeleteRows(db, All(db.rows, State));
    DeleteRows(db, DefaultWorkflows(db.rows));
    DeleteRows(db, Admins(db.rows));
  }

  // ---------------------------------------------------------------- what the upgrade adds

  /** Rows under consecutive new ids. */
  function Block(t: Table, n: int, rows: seq<Row>): (b: Rows)
    ensures forall r :: r in b <==> r.table == t && n <= r.id < n + |rows|
    ensures forall r | r in b :: b[r] == rows[r.id - n]
    decreases |rows|
  {
    if rows == [] then map[] else map[Ref(t, n) := rows[0]] + Block(t, n + 1, rows[1..])
  }

  lemma InsertAdds(db: Db, t: Table, row: Row)
    requires Insert(db, t, row).Some?
    ensures Insert(db, t, row).value.rows == db.rows + map[Ref(t, NextId(db, t)) := row]
    ensures NextId(Insert(db, t, row).value, t) == NextId(db, t) + 1
    ensures forall k | k != t :: NextId(Insert(db, t, row).value, k) == NextId(db, k)
  {
  }

  lemma {:induction false} InsertAllCounts(db: Db, t: Table, rows: seq<Row>)
    requires InsertAll(db, t, rows).Some?
    ensures NextId(InsertAll(db, t, rows).value, t) == NextId(db, t) + |rows|
    ensures forall k | k != t :: NextId(InsertAll(db, t, rows).value, k) == NextId(db, k)
    decreases |rows|
  {
    if rows != [] {
      var db1 := Insert(db, t, rows[0]).value;
      InsertAdds(db, t, rows[0]);
      InsertAllCounts(db1, t, rows[1..]);
      forall k | k != t ensures NextId(InsertAll(db, t, rows).value, k) == NextId(db, k) {
        assert NextId(db1, k) == NextId(db, k);
      }
    }
  }

  lemma {:induction false} InsertAllAdds(db: Db, t: Table, rows: seq<Row>)
    requires InsertAll(db, t, rows).Some?
    ensures InsertAll(db, t, rows).value.rows == db.rows + Block(t, NextId(db, t), rows)
    decreases |rows|
  {
    if rows == [] {
      assert db.rows + map[] == db.rows;
    } else {
      var n, db1 := NextId(db, t), Insert(db, t, rows[0]).value;
      InsertAdds(db, t, rows[0]);
      InsertAllAdds(db1, t, rows[1..]);
      AddAssociates(db.rows, map[Ref(t, n) := rows[0]], Block(t, n + 1, rows[1..]));
    }
  }

  lemma AddAssociates(a: Rows, b: Rows, c: Rows)
    ensures (a + b) + c == a + (b + c)
  {
  }
}
