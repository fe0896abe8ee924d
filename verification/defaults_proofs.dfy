/** When the second migration succeeds, and what it adds. */
module DefaultsProofs {
  import opened Sqlite
  import opened Store
  import opened SchemaV1
  import opened Services
  import opened Graph
  import opened Defaults

  // ---------------------------------------------------------------- the upgrade

  /** All foreign keys of the row lead to rows that are there. */
  predicate Anchored(rows: Rows, t: Table, row: Row) {
    forall c | c in row.refs && Declares(t, c) :: Ref(ParentTable(t, c), row.refs[c]) in rows
  }

  /** The ends of the edge are states of one workflow. */
  predicate EndsAgree(rows: Rows, row: Row) {
    var b, e := Ref(State, ValueOf(row, BeginStateId)), Ref(State, ValueOf(row, EndStateId));
    b in rows && e in rows && ValueOf(rows[b], WorkflowId) == ValueOf(rows[e], WorkflowId)
  }

  predicate SameEnds(a: Row, b: Row) {
    ValueOf(a, BeginStateId) == ValueOf(b, BeginStateId) && ValueOf(a, EndStateId) == ValueOf(b, EndStateId)
  }

  predicate Distinct(rows: seq<Row>) {
    forall i, j | 0 <= i < j < |rows| :: !SameEnds(rows[i], rows[j])
  }

  /** The row can be inserted, and the graph stays sound with it. */
  ghost predicate Fits(rows: Rows, t: Table, row: Row) {
    Anchored(rows, t, row) && !Clashes(rows, t, row) && Shaped(Ref(t, 0), row) && (t.Edge? ==> EndsAgree(rows, row))
  }

  ghost predicate AllFit(rows: Rows, t: Table, list: seq<Row>) {
    forall row | row in list :: Fits(rows, t, row)
  }

  lemma FitsInserts(db: Db, t: Table, row: Row)
    requires Fits(db.rows, t, row)
    ensures Insert(db, t, row).Some?
  {
    hide Clashes, Shaped, EndsAgree, Declares, ParentTable;
  }

  /** What still fits after a row that it does not repeat. */
  lemma FitsAfter(rows: Rows, t: Table, row: Row, r: Ref, first: Row)
    requires Fits(rows, t, row) && r !in rows && r.table == t && !t.User? && (t.Edge? ==> !SameEnds(first, row))
    ensures Fits(rows[r := first], t, row)
  {
    hide Shaped, Declares, ParentTable;
  }

  lemma FitsKeeps(db: Db, t: Table, row: Row)
    requires Sound(db) && Fits(db.rows, t, row)
    ensures Insert(db, t, row).Some? && Sound(Insert(db, t, row).value)
  {
    FitsInserts(db, t, row);
    ShapedForAll(t, row, NextId(db, t));
    if t.Edge? { AgreeInWorkflow(db, row); }
    hide Sound, Insert, Fits, Shaped, EdgeInWorkflow;
    InsertKeeps(db, t, row);
  }

  lemma ShapedForAll(t: Table, row: Row, id: int)
    ensures Shaped(Ref(t, 0), row) <==> Shaped(Ref(t, id), row)
  {
    hide StoredText;
  }

  lemma AgreeInWorkflow(db: Db, row: Row)
    requires EndsAgree(db.rows, row)
    ensures EdgeInWorkflow(db.rows[Ref(Edge, NextId(db, Edge)) := row], Ref(Edge, NextId(db, Edge)))
  {
  }

  lemma RestFits(rows: Rows, t: Table, list: seq<Row>, r: Ref)
    requires AllFit(rows, t, list) && list != [] && r !in rows && r.table == t && !t.User? && (t.Edge? ==> Distinct(list))
    ensures AllFit(rows[r := list[0]], t, list[1..])
  {
    hide Fits, SameEnds;
    forall row | row in list[1..] ensures Fits(rows[r := list[0]], t, row) {
      var j :| 1 <= j < |list| && list[j] == row;
      assert row in list;
      FitsAfter(rows, t, row, r, list[0]);
    }
  }

  lemma IdIsNew(db: Db, t: Table)
    requires Sound(db)
    ensures Ref(t, NextId(db, t)) !in db.rows
  {
    hide Shaped, Integrity, EdgesInWorkflows, NoTwinEdges;
  }

  lemma {:induction false} InsertAllKeeps(db: Db, t: Table, list: seq<Row>)
    requires Sound(db) && AllFit(db.rows, t, list) && !t.User? && (t.Edge? ==> Distinct(list))
    ensures InsertAll(db, t, list).Some? && Sound(InsertAll(db, t, list).value)
    decreases |list|
  {
    hide Sound, Fits, SameEnds, Insert;
    if list != [] {
      assert Fits(db.rows, t, list[0]);
      FitsKeeps(db, t, list[0]);
      IdIsNew(db, t);
      InsertPuts(db, t, list[0]);
      RestFits(db.rows, t, list, Ref(t, NextId(db, t)));
      assert t.Edge? ==> Distinct(list[1..]);
      InsertAllKeeps(Insert(db, t, list[0]).value, t, list[1..]);
    }
  }

  predicate AdminTaken(rows: Rows) {
    exists r | r in rows :: r.table.User? && rows[r].data.UserData?
                            && (rows[r].data.login == LOGIN || rows[r].data.email == EMAIL)
  }

  predicate LiesUnder(rows: Rows, state: int, w: int) {
    Ref(State, state) in rows && ValueOf(rows[Ref(State, state)], WorkflowId) == w
  }

  /** A step of the upgrade: rows of one table are added under its next ids, and the graph stays sound. */
  ghost predicate Adds(db: Db, t: Table, rows: seq<Row>, db': Db) {
    && Sound(db')
    && db'.rows == db.rows + Block(t, NextId(db, t), rows)
    && (forall k | k != t :: NextId(db', k) == NextId(db, k))
  }

  lemma OneBlock(t: Table, n: int, row: Row)
    ensures Block(t, n, [row]) == map[Ref(t, n) := row]
  {
    assert Block(t, n + 1, [row][1..]) == map[];
  }

  lemma AddsOne(db: Db, t: Table, row: Row)
    requires Sound(db) && Insert(db, t, row).Some? && Shaped(Ref(t, 0), row) && !t.Edge?
    ensures Adds(db, t, [row], Insert(db, t, row).value)
  {
    hide Sound, Insert, Shaped, Block, NextId;
    ShapedForAll(t, row, NextId(db, t));
    InsertKeeps(db, t, row);
    InsertAdds(db, t, row);
    OneBlock(t, NextId(db, t), row);
  }

  lemma AddsAll(db: Db, t: Table, list: seq<Row>)
    requires Sound(db) && AllFit(db.rows, t, list) && !t.User? && (t.Edge? ==> Distinct(list))
    ensures InsertAll(db, t, list).Some? && Adds(db, t, list, InsertAll(db, t, list).value)
  {
    hide Sound, AllFit, Distinct, InsertAll, Block, NextId;
    InsertAllKeeps(db, t, list);
    InsertAllAdds(db, t, list);
    InsertAllCounts(db, t, list);
  }

  predicate IsState(row: Row, w: int) {
    row.refs == map[WorkflowId := w] && row.data.StateData? && StoredText(row.data.caption, row.data.description)
  }

  predicate AreStates(rows: seq<Row>, w: int) {
    forall row | row in rows :: IsState(row, w)
  }

  lemma StateFits(rows: Rows, w: int, row: Row)
    requires Ref(Workflow, w) in rows && IsState(row, w)
    ensures Fits(rows, State, row)
  {
    hide StoredText;
  }

  /** All of the ids belong to states of the workflow. */
  predicate AllUnder(rows: Rows, first: int, n: int, w: int) {
    forall id | first <= id < first + n :: LiesUnder(rows, id, w)
  }

  lemma AddStates(db: Db, w: int, states: seq<Row>)
    requires Sound(db) && Ref(Workflow, w) in db.rows && AreStates(states, w)
    ensures InsertAll(db, State, states).Some? && Adds(db, State, states, InsertAll(db, State, states).value)
    ensures AllUnder(InsertAll(db, State, states).value.rows, NextId(db, State), |states|, w)
  {
    hide Sound, Fits, IsState, InsertAll, Block, AllUnder;
    forall row | row in states ensures Fits(db.rows, State, row) { StateFits(db.rows, w, row); }
    AddsAll(db, State, states);
    StatesLieUnder(db.rows, NextId(db, State), w, states);
  }

  lemma StatesLieUnder(rows: Rows, first: int, w: int, states: seq<Row>)
    requires AreStates(states, w)
    ensures AllUnder(rows + Block(State, first, states), first, |states|, w)
  {
    hide Block, StoredText;
    forall id | first <= id < first + |states| ensures LiesUnder(rows + Block(State, first, states), id, w) {
      assert Block(State, first, states)[Ref(State, id)] == states[id - first];
      assert states[id - first] in states && IsState(states[id - first], w);
    }
  }

  /** No edge that is there begins at the given state or a later one. */
  predicate EdgesBefore(rows: Rows, first: int) {
    forall r | r in rows && r.table.Edge? :: ValueOf(rows[r], BeginStateId) < first
  }

  lemma EdgeFits(rows: Rows, first: int, w: int, b: int, e: int)
    requires LiesUnder(rows, b, w) && LiesUnder(rows, e, w) && first <= b && EdgesBefore(rows, first)
    ensures Fits(rows, Edge, EdgeRow(b, e))
  {
  }

  /** Where the edges begin and end, counted from the first state. */
  function Ends(): seq<(int, int)> {
    [(0, 1), (1, 2), (2, 1), (2, 3), (1, 3), (3, 4)]
  }

  lemma EdgesByEnds(first: int)
    ensures |DefaultEdges(first)| == |Ends()|
    ensures forall i | 0 <= i < |Ends()| :: DefaultEdges(first)[i] == EdgeRow(first + Ends()[i].0, first + Ends()[i].1)
  {
    hide EdgeRow;
  }

  lemma EndsAreDistinct()
    ensures forall i, j | 0 <= i < j < |Ends()| :: Ends()[i] != Ends()[j]
    ensures forall i | 0 <= i < |Ends()| :: 0 <= Ends()[i].0 < 5 && 0 <= Ends()[i].1 < 5
  {
  }

  lemma EdgesFit(rows: Rows, first: int, w: int)
    requires AllUnder(rows, first, 5, w) && EdgesBefore(rows, first)
    ensures AllFit(rows, Edge, DefaultEdges(first)) && Distinct(DefaultEdges(first))
  {
    EdgesByEnds(first);
    EndsAreDistinct();
    hide Fits, DefaultEdges, Ends, EdgesBefore, LiesUnder, ValueOf;
    forall row | row in DefaultEdges(first) ensures Fits(rows, Edge, row) {
      var i :| 0 <= i < |Ends()| && DefaultEdges(first)[i] == row;
      assert LiesUnder(rows, first + Ends()[i].0, w) && LiesUnder(rows, first + Ends()[i].1, w);
      EdgeFits(rows, first, w, first + Ends()[i].0, first + Ends()[i].1);
    }
    forall i, j | 0 <= i < j < |Ends()| ensures !SameEnds(DefaultEdges(first)[i], DefaultEdges(first)[j]) {
      EndsDiffer(first + Ends()[i].0, first + Ends()[i].1, first + Ends()[j].0, first + Ends()[j].1);
    }
  }

  lemma EndsDiffer(b: int, e: int, c: int, f: int)
    ensures SameEnds(EdgeRow(b, e), EdgeRow(c, f)) <==> b == c && e == f
  {
  }

  lemma AddEdges(db: Db, first: int, w: int)
    requires Sound(db) && AllUnder(db.rows, first, 5, w) && EdgesBefore(db.rows, first)
    ensures InsertAll(db, Edge, DefaultEdges(first)).Some?
    ensures Adds(db, Edge, DefaultEdges(first), InsertAll(db, Edge, DefaultEdges(first)).value)
  {
    hide Sound, DefaultEdges, AllFit, Distinct, AllUnder, EdgesBefore, InsertAll, Adds;
    EdgesFit(db.rows, first, w);
    AddsAll(db, Edge, DefaultEdges(first));
  }

  predicate AreDays(days: seq<Row>) {
    forall row | row in days :: row.refs == map[]
  }

  lemma AddDays(db: Db, days: seq<Row>)
    requires Sound(db) && AreDays(days)
    ensures InsertAll(db, StandardDay, days).Some?
    ensures Adds(db, StandardDay, days, InsertAll(db, StandardDay, days).value)
  {
    forall row | row in days ensures Fits(db.rows, StandardDay, row) { assert row.refs == map[]; }
    hide Sound, Fits, AreDays, InsertAll, Adds;
    AddsAll(db, StandardDay, days);
  }

  lemma DefaultShapes(w: int)
    ensures |DefaultStates(w)| == 5 && AreStates(DefaultStates(w), w)
  {
  }

  lemma DayShapes()
    ensures AreDays(DefaultDays())
  {
  }

  /** What the upgrade adds below the workflow. */
  ghost function AddedContents(w: int, state: int, edge: int, day: int): Rows {
    Block(State, state, DefaultStates(w)) + (Block(Edge, edge, DefaultEdges(state)) + Block(StandardDay, day, DefaultDays()))
  }

  /** Everything the upgrade adds. */
  ghost function Added(db: Db, hash: string): Rows {
    Block(User, NextId(db, User), [AdminRow(hash)])
    + (Block(Workflow, NextId(db, Workflow), [BasicWorkflow()])
       + AddedContents(NextId(db, Workflow), NextId(db, State), NextId(db, Edge), NextId(db, StandardDay)))
  }

  lemma AddThree(z: Rows, a: Rows, b: Rows, c: Rows)
    ensures ((z + a) + b) + c == z + (a + (b + c))
  {
    AddAssociates(z + a, b, c);
    AddAssociates(z, a, b + c);
  }

  /** The next state is not the end of any edge that is there. */
  lemma EdgesBelow(db: Db)
    requires Sound(db)
    ensures EdgesBefore(db.rows, NextId(db, State))
  {
    hide Shaped, Integrity, NoTwinEdges, NextId;
    forall r | r in db.rows && r.table.Edge? ensures ValueOf(db.rows[r], BeginStateId) < NextId(db, State) {
      assert EdgeInWorkflow(db.rows, r);
    }
  }

  lemma OtherBlock(rows: Rows, t: Table, n: int, list: seq<Row>, first: int)
    requires EdgesBefore(rows, first) && !t.Edge?
    ensures EdgesBefore(rows + Block(t, n, list), first)
  {
    hide Block;
  }

  lemma StatesThenEdges(db: Db, w: int) returns (db1: Db, db2: Db)
    requires Sound(db) && Ref(Workflow, w) in db.rows
    ensures InsertAll(db, State, DefaultStates(w)) == Some(db1) && Adds(db, State, DefaultStates(w), db1)
    ensures InsertAll(db1, Edge, DefaultEdges(NextId(db, State))) == Some(db2)
    ensures Adds(db1, Edge, DefaultEdges(NextId(db, State)), db2)
  {
    hide Sound, InsertAll, DefaultStates, DefaultEdges, AreStates, AllUnder, EdgesBefore, Block, NextId;
    DefaultShapes(w);
    AddStates(db, w, DefaultStates(w));
    db1 := InsertAll(db, State, DefaultStates(w)).value;
    EdgesBelow(db);
    OtherBlock(db.rows, State, NextId(db, State), DefaultStates(w), NextId(db, State));
    AddEdges(db1, NextId(db, State), w);
    db2 := InsertAll(db1, Edge, DefaultEdges(NextId(db, State))).value;
  }

  lemma ContentsRows(db: Db, w: int, db1: Db, db2: Db, db3: Db, states: seq<Row>, edges: seq<Row>, days: seq<Row>)
    requires Adds(db, State, states, db1) && Adds(db1, Edge, edges, db2) && Adds(db2, StandardDay, days, db3)
    ensures db3.rows == db.rows + (Block(State, NextId(db, State), states)
                                   + (Block(Edge, NextId(db, Edge), edges) + Block(StandardDay, NextId(db, StandardDay), days)))
  {
    assert NextId(db2, StandardDay) == NextId(db1, StandardDay) == NextId(db, StandardDay);
    assert NextId(db1, Edge) == NextId(db, Edge);
    AddThree(db.rows, Block(State, NextId(db, State), states), Block(Edge, NextId(db, Edge), edges),
             Block(StandardDay, NextId(db, StandardDay), days));
  }

  lemma UpContentsWorks(db: Db, w: int)
    requires Sound(db) && Ref(Workflow, w) in db.rows
    ensures UpContents(db, w).Some? && Sound(UpContents(db, w).value)
    ensures UpContents(db, w).value.rows
            == db.rows + AddedContents(w, NextId(db, State), NextId(db, Edge), NextId(db, StandardDay))
  {
    hide Sound, Block, InsertAll, DefaultStates, DefaultEdges, DefaultDays, NextId, AreDays;
    var db1, db2 := StatesThenEdges(db, w);
    DayShapes();
    AddDays(db2, DefaultDays());
    ContentsRows(db, w, db1, db2, InsertAll(db2, StandardDay, DefaultDays()).value,
                 DefaultStates(w), DefaultEdges(NextId(db, State)), DefaultDays());
  }

  lemma WorkflowFits(db: Db)
    ensures Insert(db, Workflow, BasicWorkflow()).Some? && Shaped(Ref(Workflow, 0), BasicWorkflow())
  {
  }

  lemma AdminFits(db: Db, hash: string)
    ensures Shaped(Ref(User, 0), AdminRow(hash)) && (Insert(db, User, AdminRow(hash)).Some? <==> !AdminTaken(db.rows))
  {
  }

  lemma UpWorkflowWorks(db: Db)
    requires Sound(db)
    ensures UpWorkflow(db).Some? && Sound(UpWorkflow(db).value)
    ensures UpWorkflow(db).value.rows
            == db.rows + (Block(Workflow, NextId(db, Workflow), [BasicWorkflow()])
                          + AddedContents(NextId(db, Workflow), NextId(db, State), NextId(db, Edge), NextId(db, StandardDay)))
  {
    var w, row := NextId(db, Workflow), BasicWorkflow();
    WorkflowFits(db);
    hide Sound, AddedContents, Block, UpContents, Insert, NextId, Shaped, BasicWorkflow;
    AddsOne(db, Workflow, row);
    var db1 := Insert(db, Workflow, row).value;
    assert Ref(Workflow, w) in Block(Workflow, w, [row]);
    UpContentsWorks(db1, w);
    AddAssociates(db.rows, Block(Workflow, w, [row]),
                  AddedContents(w, NextId(db, State), NextId(db, Edge), NextId(db, StandardDay)));
  }

  lemma UpWorks(db: Db, hash: string)
    requires Sound(db) && !AdminTaken(db.rows)
    ensures Up(db, hash).Some? && Sound(Up(db, hash).value)
    ensures Up(db, hash).value.rows == db.rows + Added(db, hash)
  {
    hide Sound, AddedContents, Block, UpWorkflow, Insert, NextId, AdminTaken, Shaped, AdminRow, BasicWorkflow;
    AdminFits(db, hash);
    AddsOne(db, User, AdminRow(hash));
    UpWorkflowWorks(Insert(db, User, AdminRow(hash)).value);
    AddAssociates(db.rows, Block(User, NextId(db, User), [AdminRow(hash)]),
                  Block(Workflow, NextId(db, Workflow), [BasicWorkflow()])
                  + AddedContents(NextId(db, Workflow), NextId(db, State), NextId(db, Edge), NextId(db, StandardDay)));
  }

  /** The upgrade fails exactly when the administrator's login or e-mail address is taken; what it yields is sound. */
  lemma UpWorksIff(db: Db, hash: string)
    requires Sound(db)
    ensures Up(db, hash).Some? <==> !AdminTaken(db.rows)
    ensures Up(db, hash).Some? ==> Sound(Up(db, hash).value)
  {
    hide Sound, UpWorkflow, Insert, AdminTaken, AdminRow, Shaped;
    AdminFits(db, hash);
    if !AdminTaken(db.rows) { UpWorks(db, hash); }
  }
}
