/** When the downgrade of the second migration restores what was there. */
module DefaultsRoundTrip {
  import opened Sqlite
  import opened Store
  import opened SchemaV1
  import opened Services
  import opened Graph
  import opened Defaults
  import opened DefaultsProofs

  // ---------------------------------------------------------------- what a downgrade leaves

  /** Rows may have gone, and the others keep their data. */
  ghost predicate Shrunk(before: Rows, after: Rows) {
    forall r | r in after :: r in before && after[r].data == before[r].data
  }

  lemma DeleteShrinks(rows: Rows, selected: set<Ref>)
    ensures Shrunk(rows, Delete(V1, rows, selected))
    ensures forall r | r in selected :: r !in Delete(V1, rows, selected)
  {
    DoomedIsClosed(V1, rows, selected);
  }

  lemma GoneStaysGone(before: Rows, after: Rows)
    requires Shrunk(before, after)
    ensures forall t :: All(before, t) == {} ==> All(after, t) == {}
    ensures DefaultWorkflows(before) == {} ==> DefaultWorkflows(after) == {}
  {
    forall t | All(before, t) == {} ensures All(after, t) == {} {
      assert forall r | r in after && r.table == t :: r in All(before, t);
    }
    assert forall r | r in DefaultWorkflows(after) :: r in DefaultWorkflows(before);
  }

  /** DELETE without a condition empties the table and refills none. */
  lemma EmptyTable(rows: Rows, t: Table)
    ensures Shrunk(rows, Delete(V1, rows, All(rows, t))) && All(Delete(V1, rows, All(rows, t)), t) == {}
  {
    DeleteShrinks(rows, All(rows, t));
    forall r | r in Delete(V1, rows, All(rows, t)) ensures r.table != t {
      assert r in rows && r !in All(rows, t);
    }
  }

  /** Nothing that the downgrade takes aim at. */
  predicate Bare(rows: Rows) {
    All(rows, StandardDay) == {} && All(rows, Edge) == {} && All(rows, State) == {} && DefaultWorkflows(rows) == {}
  }

  lemma DownIsBare(rows: Rows)
    ensures Bare(Down(rows))
  {
    var rows1 := Delete(V1, rows, All(rows, StandardDay));
    var rows2 := Delete(V1, rows1, All(rows1, Edge));
    var rows3 := Delete(V1, rows2, All(rows2, State));
    var rows4 := Delete(V1, rows3, DefaultWorkflows(rows3));
    hide Delete, All, Shrunk, DefaultWorkflows, Admins;
    EmptyTable(rows, StandardDay);
    EmptyTable(rows1, Edge);
    GoneStaysGone(rows1, rows2);
    EmptyTable(rows2, State);
    GoneStaysGone(rows2, rows3);
    NoDefaultWorkflow(rows3);
    GoneStaysGone(rows3, rows4);
    DeleteShrinks(rows4, Admins(rows4));
    GoneStaysGone(rows4, Down(rows));
  }

  lemma NoDefaultWorkflow(rows: Rows)
    ensures Shrunk(rows, Delete(V1, rows, DefaultWorkflows(rows)))
    ensures DefaultWorkflows(Delete(V1, rows, DefaultWorkflows(rows))) == {}
  {
    DeleteShrinks(rows, DefaultWorkflows(rows));
    var after := Delete(V1, rows, DefaultWorkflows(rows));
    forall r | r in after ensures r !in DefaultWorkflows(after) {
      assert r in rows && after[r].data == rows[r].data && r !in DefaultWorkflows(rows);
    }
  }

  // ---------------------------------------------------------------- the rows added go one table after the other

  /** How the rows of the upgrade look, table by table. */
  predicate DefaultRow(r: Ref, row: Row) {
    match r.table
    case User => row.refs == map[] && row.data.UserData? && row.data.login == LOGIN
    case Workflow => row.refs == map[] && Caption(row) == CAPTION
    case State => row.refs.Keys == {WorkflowId}
    case Edge => row.refs.Keys == {BeginStateId, EndStateId}
    case StandardDay => row.refs == map[]
    case _ => false
  }

  /** Default rows under ids that are not there. */
  ghost predicate NewDefaults(old_: Rows, added: Rows) {
    forall r | r in added :: r !in old_ && DefaultRow(r, added[r])
  }

  /** Rows that were there before, with integrity, and rows added under new ids. */
  ghost predicate Extended(old_: Rows, added: Rows) {
    Integrity(V1, old_) && NewDefaults(old_, added)
  }

  function Drop(rows: Rows, t: Table): Rows {
    map r | r in rows && r.table != t :: rows[r]
  }

  lemma AddedTargets(r: Ref, row: Row, c: Column)
    requires DefaultRow(r, row) && Target(V1, r, row, c).Some?
    ensures var p := Target(V1, r, row, c).value.0;
            (r.table.State? && p.table.Workflow?) || (r.table.Edge? && p.table.State?)
  {
    assert c in row.refs.Keys;
  }

  lemma AddedRefersElsewhere(added: Rows, r: Ref, c: Column, t: Table)
    requires r in added && DefaultRow(r, added[r]) && Target(V1, r, added[r], c).Some?
    requires t.State? ==> All(added, Edge) == {}
    requires t.Workflow? ==> All(added, State) == {}
    ensures Target(V1, r, added[r], c).value.0.table != t
  {
    hide V1, DefaultRow;
    AddedTargets(r, added[r], c);
    assert r.table.Edge? ==> r in All(added, Edge);
    assert r.table.State? ==> r in All(added, State);
  }

  lemma AddedUnreferenced(old_: Rows, added: Rows, t: Table)
    requires Extended(old_, added)
    requires t.State? ==> All(added, Edge) == {}
    requires t.Workflow? ==> All(added, State) == {}
    ensures Unreferenced(V1, old_ + added, All(added, t))
  {
    hide V1, DefaultRow, Target;
    var rows := old_ + added;
    forall r, c | r in rows && Target(V1, r, rows[r], c).Some? ensures Target(V1, r, rows[r], c).value.0 !in All(added, t) {
      if r in added {
        AddedRefersElsewhere(added, r, c, t);
      } else {
        assert Target(V1, r, old_[r], c).value.0 in old_;
      }
    }
  }

  lemma DropIsMinus(old_: Rows, added: Rows, t: Table)
    requires forall r | r in added :: r !in old_
    ensures old_ + added - All(added, t) == old_ + Drop(added, t)
  {
  }

  lemma DropKeepsExtended(old_: Rows, added: Rows, t: Table)
    requires Extended(old_, added)
    ensures Extended(old_, Drop(added, t))
  {
    hide Integrity, DefaultRow;
    forall r | r in Drop(added, t) ensures r !in old_ && DefaultRow(r, Drop(added, t)[r]) {
      assert r in added && Drop(added, t)[r] == added[r];
    }
  }

  lemma DropEmpties(added: Rows, t: Table)
    ensures All(Drop(added, t), t) == {}
    ensures forall k :: All(added, k) == {} ==> All(Drop(added, t), k) == {}
  {
    forall k | All(added, k) == {} ensures All(Drop(added, t), k) == {} {
      assert forall r | r in added && r.table == k :: r in All(added, k);
    }
  }

  lemma ExtendedApart(old_: Rows, added: Rows)
    requires Extended(old_, added)
    ensures forall r | r in added :: r !in old_
  {
    hide Integrity, DefaultRow;
  }

  /** Of the added rows, those of one table go alone once no added row refers to that table. */
  lemma DropTable(old_: Rows, added: Rows, t: Table)
    requires Extended(old_, added)
    requires t.State? ==> All(added, Edge) == {}
    requires t.Workflow? ==> All(added, State) == {}
    ensures Delete(V1, old_ + added, All(added, t)) == old_ + Drop(added, t)
    ensures Extended(old_, Drop(added, t)) && All(Drop(added, t), t) == {}
    ensures forall k :: All(added, k) == {} ==> All(Drop(added, t), k) == {}
  {
    hide Delete, Drop, All, Extended, Unreferenced, Doomed;
    AddedUnreferenced(old_, added, t);
    DeleteUnreferenced(V1, old_ + added, All(added, t));
    ExtendedApart(old_, added);
    DropIsMinus(old_, added, t);
    DropKeepsExtended(old_, added, t);
    DropEmpties(added, t);
  }

  lemma SelectsAdded(old_: Rows, added: Rows, t: Table)
    requires All(old_, t) == {}
    ensures All(old_ + added, t) == All(added, t)
  {
    assert forall r | r in old_ && r.table == t :: r in All(old_, t);
  }

  lemma SelectsDefaults(old_: Rows, added: Rows)
    requires Extended(old_, added) && DefaultWorkflows(old_) == {} && Admins(old_) == {}
    ensures DefaultWorkflows(old_ + added) == All(added, Workflow)
    ensures Admins(old_ + added) == All(added, User)
  {
    forall r | r in added && (r.table.Workflow? || r.table.User?)
      ensures r in DefaultWorkflows(old_ + added) || r in Admins(old_ + added)
    {
      assert DefaultRow(r, added[r]);
    }
    forall r | r in old_ && r !in added ensures r !in DefaultWorkflows(old_ + added) && r !in Admins(old_ + added) {
      assert r !in DefaultWorkflows(old_) && r !in Admins(old_);
    }
  }

  lemma NothingLeft(old_: Rows, added: Rows)
    requires Extended(old_, added)
    requires All(added, User) == {} && All(added, Workflow) == {} && All(added, State) == {} && All(added, Edge) == {}
             && All(added, StandardDay) == {}
    ensures old_ + added == old_
  {
    assert forall r | r in added :: DefaultRow(r, added[r]) && r in All(added, r.table);
    assert added.Keys == {};
  }

  /** Added rows as the upgrade makes them, on rows without what the downgrade takes aim at. */
  lemma DownUndoes(old_: Rows, added: Rows)
    requires Extended(old_, added) && Bare(old_) && Admins(old_) == {}
    ensures Down(old_ + added) == old_
  {
    hide Delete, Drop, All, Extended, DefaultWorkflows, Admins;
    var added1 := Drop(added, StandardDay);
    var added2 := Drop(added1, Edge);
    var added3 := Drop(added2, State);
    var added4 := Drop(added3, Workflow);
    DropTable(old_, added, StandardDay);
    SelectsAdded(old_, added, StandardDay);
    DropTable(old_, added1, Edge);
    SelectsAdded(old_, added1, Edge);
    DropTable(old_, added2, State);
    SelectsAdded(old_, added2, State);
    DropTable(old_, added3, Workflow);
    SelectsDefaults(old_, added3);
    DropTable(old_, added4, User);
    SelectsDefaults(old_, added4);
    NothingLeft(old_, Drop(added4, User));
  }

  predicate DefaultRows(t: Table, rows: seq<Row>) {
    forall k | k in rows :: DefaultRow(Ref(t, 0), k)
  }

  lemma UserRows(hash: string)
    ensures DefaultRows(User, [AdminRow(hash)])
  {
  }

  lemma WorkflowRows()
    ensures DefaultRows(Workflow, [BasicWorkflow()])
  {
  }

  lemma StateRows(w: int)
    ensures DefaultRows(State, DefaultStates(w))
  {
  }

  lemma EdgeRows(s: int)
    ensures DefaultRows(Edge, DefaultEdges(s))
  {
  }

  lemma DayRows()
    ensures DefaultRows(StandardDay, DefaultDays())
  {
  }

  lemma DefaultsJoin(old_: Rows, a: Rows, b: Rows)
    requires NewDefaults(old_, a) && NewDefaults(old_, b)
    ensures NewDefaults(old_, a + b)
  {
    hide DefaultRow;
  }

  lemma DefaultRowAnywhere(t: Table, id: int, row: Row)
    ensures DefaultRow(Ref(t, id), row) <==> DefaultRow(Ref(t, 0), row)
  {
  }

  lemma BlockIsDefault(db: Db, t: Table, rows: seq<Row>)
    requires WellTyped(db) && DefaultRows(t, rows)
    ensures NewDefaults(db.rows, Block(t, NextId(db, t), rows))
  {
    hide DefaultRow, Shaped, Block, NextId;
    var n := NextId(db, t);
    forall r | r in Block(t, n, rows) ensures r !in db.rows && DefaultRow(r, Block(t, n, rows)[r]) {
      assert rows[r.id - n] in rows;
      DefaultRowAnywhere(t, r.id, rows[r.id - n]);
      assert r == Ref(t, r.id);
    }
  }

  lemma AddedIsDefault(db: Db, hash: string)
    requires Consistent(db)
    ensures Extended(db.rows, Added(db, hash))
  {
    hide Block, DefaultRows, NewDefaults, AdminRow, BasicWorkflow, DefaultStates, DefaultEdges, DefaultDays, Integrity, WellTyped, NextId;
    var w, s := NextId(db, Workflow), NextId(db, State);
    UserRows(hash);
    WorkflowRows();
    StateRows(w);
    EdgeRows(s);
    DayRows();
    BlockIsDefault(db, User, [AdminRow(hash)]);
    BlockIsDefault(db, Workflow, [BasicWorkflow()]);
    BlockIsDefault(db, State, DefaultStates(w));
    BlockIsDefault(db, Edge, DefaultEdges(s));
    BlockIsDefault(db, StandardDay, DefaultDays());
    var edges, days := Block(Edge, NextId(db, Edge), DefaultEdges(s)), Block(StandardDay, NextId(db, StandardDay), DefaultDays());
    DefaultsJoin(db.rows, edges, days);
    DefaultsJoin(db.rows, Block(State, s, DefaultStates(w)), edges + days);
    DefaultsJoin(db.rows, Block(Workflow, w, [BasicWorkflow()]), AddedContents(w, s, NextId(db, Edge), NextId(db, StandardDay)));
    DefaultsJoin(db.rows, Block(User, NextId(db, User), [AdminRow(hash)]),
                 Block(Workflow, w, [BasicWorkflow()]) + AddedContents(w, s, NextId(db, Edge), NextId(db, StandardDay)));
  }

  /**
   Downgrading right after the upgrade restores every row of every table exactly when there were no
   standard days, edges and states, and no workflow of the default caption: the downgrade empties those
   tables whoever filled them.
   */
  lemma DownAfterUp(db: Db, hash: string)
    requires Sound(db) && Up(db, hash).Some?
    ensures Down(Up(db, hash).value.rows) == db.rows <==> Bare(db.rows)
  {
    hide Sound, Up, Down, AdminTaken, Added, Admins;
    UpWorksIff(db, hash);
    UpWorks(db, hash);
    if Bare(db.rows) {
      SoundIsConsistent(db);
      AddedIsDefault(db, hash);
      NoAdmins(db.rows);
      hide Bare;
      DownUndoes(db.rows, Added(db, hash));
    } else {
      hide Bare;
      DownIsBare(Up(db, hash).value.rows);
    }
  }

  lemma NoAdmins(rows: Rows)
    requires !AdminTaken(rows)
    ensures Admins(rows) == {}
  {
  }
}
