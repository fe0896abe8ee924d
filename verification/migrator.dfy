/**
 The two migrations under the migration manager, statement by statement: alone from a database without
 tables on, and with the server at work between the calls.
 */
module Migrator {
  import opened Sqlite
  import opened Migrations
  import opened MigrationRuns
  import opened Store
  import opened Services
  import Graph
  import D = Defaults
  import DefaultsProofs
  import DefaultsRoundTrip

  datatype Content = NoTables | Tables(db: Db)

  type Disk = Engine<Migrations.Schema<Content>>

  // ---------------------------------------------------------------- the statements

  /** A statement needs its table; None is the engine's refusal. */
  function On(c: Content, f: Db -> Option<Db>): Option<Content> {
    if c.NoTables? then None else match f(c.db) case None => None case Some(db) => Some(Tables(db))
  }

  /** The first migration, as far as rows go: it creates the tables, and drops them with what they hold. */
  function V1Migration(): Migration<Content> {
    Migration(1, [(c: Content) => if c.NoTables? then Some(Tables(Db(map[], map[]))) else None],
              [(c: Content) => Some(NoTables)])
  }

  /** INSERT of the i-th of the rows that the ids returned so far make up. */
  function Inserting(t: Table, rows: Db -> seq<Row>, i: nat): Step<Content> {
    (c: Content) => On(c, (db: Db) => if i < |rows(db)| then Insert(db, t, rows(db)[i]) else None)
  }

  function InsertingFrom(t: Table, rows: Db -> seq<Row>, i: nat, n: nat): seq<Step<Content>>
    decreases n - i
  {
    if i >= n then [] else [Inserting(t, rows, i)] + InsertingFrom(t, rows, i + 1, n)
  }

  function Admin(hash: string): Db -> seq<Row> {
    db => [D.AdminRow(hash)]
  }

  function Basic(): Db -> seq<Row> {
    db => [D.BasicWorkflow()]
  }

  /** Below the workflow inserted last. */
  function States(): Db -> seq<Row> {
    db => D.DefaultStates(NextId(db, Workflow) - 1)
  }

  /** Between the five states inserted last. */
  function Edges(): Db -> seq<Row> {
    db => D.DefaultEdges(NextId(db, State) - 5)
  }

  function Days(): Db -> seq<Row> {
    db => D.DefaultDays()
  }

  ghost function Deleting(selection: Rows -> set<Ref>): Step<Content> {
    (c: Content) => On(c, (db: Db) => Some(db.(rows := Delete(SchemaV1.V1, db.rows, selection(db.rows)))))
  }

  function EdgesScript(): seq<Step<Content>> {
    InsertingFrom(Edge, Edges(), 0, 6) + InsertingFrom(StandardDay, Days(), 0, 7)
  }

  function StatesScript(): seq<Step<Content>> {
    InsertingFrom(State, States(), 0, 5) + EdgesScript()
  }

  function WorkflowScript(): seq<Step<Content>> {
    InsertingFrom(Workflow, Basic(), 0, 1) + StatesScript()
  }

  function UpScript(hash: string): seq<Step<Content>> {
    InsertingFrom(User, Admin(hash), 0, 1) + WorkflowScript()
  }

  ghost function DownScript(): seq<Step<Content>> {
    [Deleting(rows => D.All(rows, StandardDay))]
    + ([Deleting(rows => D.All(rows, Edge))]
       + ([Deleting(rows => D.All(rows, State))]
          + ([Deleting(rows => D.DefaultWorkflows(rows))] + [Deleting(rows => D.Admins(rows))])))
  }

  ghost function V2Migration(hash: string): Migration<Content> {
    Migration(2, UpScript(hash), DownScript())
  }

  ghost function Both(hash: string): seq<Migration<Content>> {
    [V1Migration(), V2Migration(hash)]
  }

  // ---------------------------------------------------------------- the scripts together

  function Lift(o: Option<Db>): Option<Content> {
    match o case None => None case Some(db) => Some(Tables(db))
  }

  /** Inserting into the table does not change what is inserted next. */
  ghost predicate Stable(t: Table, rows: Db -> seq<Row>) {
    forall db, row {:trigger Insert(db, t, row)} | Insert(db, t, row).Some? :: rows(Insert(db, t, row).value) == rows(db)
  }

  lemma InsertsAsOne(db: Db, t: Table, rows: Db -> seq<Row>, i: nat)
    requires i < |rows(db)|
    ensures Inserting(t, rows, i)(Tables(db)) == Lift(Insert(db, t, rows(db)[i]))
  {
    hide Insert;
  }

  lemma ApplyFirst(s: Step<Content>, rest: seq<Step<Content>>, c: Content)
    ensures Apply([s] + rest, c) == match s(c) case None => None case Some(next) => Apply(rest, next)
  {
  }

  lemma {:induction false} InsertsApply(db: Db, t: Table, rows: Db -> seq<Row>, i: nat, n: nat)
    requires Stable(t, rows) && i <= n == |rows(db)|
    ensures Apply(InsertingFrom(t, rows, i, n), Tables(db)) == Lift(D.InsertAll(db, t, rows(db)[i..]))
    decreases n - i
  {
    hide Insert, Inserting, Apply;
    if i == n {
      assert rows(db)[i..] == [];
      ApplyNothing(Tables(db));
    } else {
      assert rows(db)[i..][0] == rows(db)[i] && rows(db)[i..][1..] == rows(db)[i + 1..];
      InsertsAsOne(db, t, rows, i);
      ApplyFirst(Inserting(t, rows, i), InsertingFrom(t, rows, i + 1, n), Tables(db));
      if Insert(db, t, rows(db)[i]).Some? { InsertsApply(Insert(db, t, rows(db)[i]).value, t, rows, i + 1, n); }
    }
  }

  lemma ApplyNothing(c: Content)
    ensures Apply([], c) == Some(c)
  {
  }

  lemma AllApply(db: Db, t: Table, rows: Db -> seq<Row>, fixed: seq<Row>)
    requires Stable(t, rows) && rows(db) == fixed
    ensures Apply(InsertingFrom(t, rows, 0, |fixed|), Tables(db)) == Lift(D.InsertAll(db, t, fixed))
  {
    hide Insert, InsertingFrom, Apply, D.InsertAll, Stable;
    InsertsApply(db, t, rows, 0, |fixed|);
    assert fixed[0..] == fixed;
  }

  lemma CountsStay(t: Table, u: Table)
    requires t != u
    ensures forall db, row {:trigger Insert(db, t, row)} | Insert(db, t, row).Some? :: NextId(Insert(db, t, row).value, u) == NextId(db, u)
  {
    forall db, row {:trigger Insert(db, t, row)} | Insert(db, t, row).Some? ensures NextId(Insert(db, t, row).value, u) == NextId(db, u) {
      Graph.InsertCounts(db, t, row, u);
    }
  }

  lemma FixedRowsAreStable(hash: string)
    ensures Stable(User, Admin(hash)) && Stable(Workflow, Basic()) && Stable(StandardDay, Days())
  {
    hide Insert, D.DefaultDays, D.AdminRow, D.BasicWorkflow;
  }

  lemma StatesAreStable()
    ensures Stable(State, States())
  {
    CountsStay(State, Workflow);
    hide Insert, NextId, D.DefaultStates;
  }

  lemma EdgesAreStable()
    ensures Stable(Edge, Edges())
  {
    CountsStay(Edge, State);
    hide Insert, NextId, D.DefaultEdges;
  }

  lemma SixEdgesSevenDays(first: int)
    ensures |D.DefaultEdges(first)| == 6 && |D.DefaultDays()| == 7
  {
    hide EdgeRow, D.WorkDay, D.DayOff;
  }

  lemma FiveStates(w: int)
    ensures |D.DefaultStates(w)| == 5
  {
    hide D.DefaultState;
  }

  lemma EdgesApply(db: Db, first: int)
    requires NextId(db, State) == first + 5
    ensures Apply(EdgesScript(), Tables(db))
            == Lift(match D.InsertAll(db, Edge, D.DefaultEdges(first))
                    case None => None case Some(db2) => D.InsertAll(db2, StandardDay, D.DefaultDays()))
  {
    EdgesAreStable();
    FixedRowsAreStable("");
    SixEdgesSevenDays(first);
    assert Edges()(db) == D.DefaultEdges(first);
    hide InsertingFrom, Apply, D.InsertAll, Stable, NextId, D.DefaultEdges, D.DefaultDays;
    AllApply(db, Edge, Edges(), D.DefaultEdges(first));
    ApplyConcat(InsertingFrom(Edge, Edges(), 0, 6), InsertingFrom(StandardDay, Days(), 0, 7), Tables(db));
    if D.InsertAll(db, Edge, D.DefaultEdges(first)).Some? {
      AllApply(D.InsertAll(db, Edge, D.DefaultEdges(first)).value, StandardDay, Days(), D.DefaultDays());
    }
  }

  lemma ContentsApply(db: Db, w: int)
    requires NextId(db, Workflow) == w + 1
    ensures Apply(StatesScript(), Tables(db)) == Lift(D.UpContents(db, w))
  {
    StatesAreStable();
    FiveStates(w);
    assert States()(db) == D.DefaultStates(w);
    hide InsertingFrom, Apply, D.InsertAll, Stable, NextId, D.DefaultStates, D.DefaultEdges, D.DefaultDays, EdgesScript;
    AllApply(db, State, States(), D.DefaultStates(w));
    ApplyConcat(InsertingFrom(State, States(), 0, 5), EdgesScript(), Tables(db));
    if D.InsertAll(db, State, D.DefaultStates(w)).Some? {
      D.InsertAllCounts(db, State, D.DefaultStates(w));
      EdgesApply(D.InsertAll(db, State, D.DefaultStates(w)).value, NextId(db, State));
    }
  }

  lemma OneInsert(db: Db, t: Table, rows: Db -> seq<Row>, row: Row)
    requires Stable(t, rows) && rows(db) == [row]
    ensures Apply(InsertingFrom(t, rows, 0, 1), Tables(db)) == Lift(Insert(db, t, row))
  {
    AllApply(db, t, rows, [row]);
    hide Insert;
    assert [row][1..] == [];
  }

  lemma WorkflowApplies(db: Db)
    ensures Apply(WorkflowScript(), Tables(db)) == Lift(D.UpWorkflow(db))
  {
    FixedRowsAreStable("");
    hide InsertingFrom, Apply, D.UpContents, Insert, Stable, NextId, StatesScript, D.BasicWorkflow;
    OneInsert(db, Workflow, Basic(), D.BasicWorkflow());
    ApplyConcat(InsertingFrom(Workflow, Basic(), 0, 1), StatesScript(), Tables(db));
    if Insert(db, Workflow, D.BasicWorkflow()).Some? {
      Graph.InsertCounts(db, Workflow, D.BasicWorkflow(), Workflow);
      ContentsApply(Insert(db, Workflow, D.BasicWorkflow()).value, NextId(db, Workflow));
    }
  }

  /** The statements of the upgrade one after the other are the upgrade. */
  lemma UpApplies(hash: string, db: Db)
    ensures Apply(UpScript(hash), Tables(db)) == Lift(D.Up(db, hash))
  {
    FixedRowsAreStable(hash);
    hide InsertingFrom, Apply, D.UpWorkflow, Insert, Stable, WorkflowScript, D.AdminRow;
    OneInsert(db, User, Admin(hash), D.AdminRow(hash));
    ApplyConcat(InsertingFrom(User, Admin(hash), 0, 1), WorkflowScript(), Tables(db));
    if Insert(db, User, D.AdminRow(hash)).Some? { WorkflowApplies(Insert(db, User, D.AdminRow(hash)).value); }
  }

  /** The statements of the downgrade are the downgrade, which the engine never refuses. */
  lemma DownApplies(db: Db)
    ensures Apply(DownScript(), Tables(db)) == Some(Tables(db.(rows := D.Down(db.rows))))
  {
    hide Apply, D.All, D.DefaultWorkflows, D.Admins, Delete;
    var s1, s2, s3 := Deleting(rows => D.All(rows, StandardDay)), Deleting(rows => D.All(rows, Edge)), Deleting(rows => D.All(rows, State));
    var s4, s5 := Deleting(rows => D.DefaultWorkflows(rows)), Deleting(rows => D.Admins(rows));
    var c: Content := Tables(db);
    ApplyFirst(s1, [s2] + ([s3] + ([s4] + [s5])), c);
    ApplyFirst(s2, [s3] + ([s4] + [s5]), s1(c).value);
    ApplyFirst(s3, [s4] + [s5], s2(s1(c).value).value);
    ApplyFirst(s4, [s5], s3(s2(s1(c).value).value).value);
    assert [s5] == [s5] + [];
    ApplyFirst(s5, [], s4(s3(s2(s1(c).value).value).value).value);
    ApplyNothing(s5(s4(s3(s2(s1(c).value).value).value).value).value);
  }

  lemma V1Applies(c: Content)
    ensures Apply(V1Migration().up, c) == if c.NoTables? then Some(Tables(Db(map[], map[]))) else None
    ensures Apply(V1Migration().down, c) == Some(NoTables)
  {
    assert V1Migration().up[1..] == [] && V1Migration().down[1..] == [];
  }

  lemma BothAreOrdered(hash: string)
    ensures Sorted(Both(hash)) && HasGap(Both(hash))
  {
    hide UpScript, DownScript;
    var three: uint32 := 3;
    assert Find(Both(hash), three).None?;
  }

  // ---------------------------------------------------------------- from a database without tables on

  ghost predicate Empty(db: Db) {
    db.rows == map[] && forall t :: 0 < NextId(db, t)
  }

  ghost predicate Upgraded(hash: string, before: Db, db: Db) {
    Empty(before) && D.Up(before, hash) == Some(db)
  }

  /** Version 0 has no tables, version 1 has them empty, version 2 holds the default data. */
  ghost predicate Holds(hash: string, version: int, c: Content) {
    if version == 0 then c.NoTables?
    else c.Tables? && if version == 1 then Empty(c.db) else version == 2 && exists before :: Upgraded(hash, before, c.db)
  }

  lemma EmptyIsSound(db: Db)
    requires Empty(db)
    ensures Graph.Sound(db) && DefaultsRoundTrip.Bare(db.rows) && !DefaultsProofs.AdminTaken(db.rows)
  {
    hide Graph.Shaped;
  }

  lemma CountersStay(db: Db, rows: Rows)
    requires forall t :: 0 < NextId(db, t)
    ensures forall t :: 0 < NextId(db.(rows := rows), t)
  {
    forall t ensures 0 < NextId(db.(rows := rows), t) { assert 0 < NextId(db, t); }
  }

  lemma SoundCounts(db: Db)
    requires Graph.Sound(db)
    ensures forall t :: 0 < NextId(db, t)
  {
    hide Graph.Shaped, Integrity, Graph.EdgesInWorkflows, Graph.NoTwinEdges;
  }

  lemma DownEmpties(hash: string, before: Db, db: Db)
    requires Upgraded(hash, before, db)
    ensures Empty(db.(rows := D.Down(db.rows)))
  {
    EmptyIsSound(before);
    hide Graph.Sound, D.Up, D.Down, DefaultsRoundTrip.Bare, DefaultsProofs.AdminTaken;
    DefaultsProofs.UpWorksIff(before, hash);
    DefaultsRoundTrip.DownAfterUp(before, hash);
    SoundCounts(db);
    CountersStay(db, D.Down(db.rows));
  }

  lemma EachLeads(hash: string, m: Migration<Content>, c: Content)
    requires m in Both(hash)
    ensures Leads((v: int, c: Content) => Holds(hash, v, c), m, c)
  {
    hide Apply, UpScript, DownScript, D.Up, D.Down;
    V1Applies(c);
    if c.Tables? {
      UpApplies(hash, c.db);
      DownApplies(c.db);
      if before :| Upgraded(hash, before, c.db) { DownEmpties(hash, before, c.db); }
      if Empty(c.db) && D.Up(c.db, hash).Some? { assert Upgraded(hash, c.db, D.Up(c.db, hash).value); }
    }
  }

  lemma DefaultData(before: Db, hash: string, db: Db)
    requires Upgraded(hash, before, db)
    ensures Graph.Sound(db) && Graph.CaptionsDiffer(db.rows)
  {
    EmptyIsSound(before);
    OneWorkflow(before, hash);
    hide Graph.Sound, D.Up, DefaultsProofs.Added, DefaultsProofs.AdminTaken, DefaultsRoundTrip.Bare;
    DefaultsProofs.UpWorksIff(before, hash);
    DefaultsProofs.UpWorks(before, hash);
  }

  /** All workflows among the rows have this id. */
  predicate OnlyWorkflow(rows: Rows, id: int) {
    forall r | r in rows && r.table.Workflow? :: r.id == id
  }

  lemma OnlyJoins(a: Rows, b: Rows, id: int)
    requires OnlyWorkflow(a, id) && OnlyWorkflow(b, id)
    ensures OnlyWorkflow(a + b, id)
  {
  }

  lemma OnlyInBlock(t: Table, n: int, rows: seq<Row>, id: int)
    requires t.Workflow? ==> id == n && |rows| == 1
    ensures OnlyWorkflow(D.Block(t, n, rows), id)
  {
  }

  lemma OneWorkflow(db: Db, hash: string)
    ensures OnlyWorkflow(DefaultsProofs.Added(db, hash), NextId(db, Workflow))
  {
    hide D.DefaultStates, D.DefaultEdges, D.DefaultDays, D.AdminRow, D.BasicWorkflow, NextId, OnlyWorkflow, D.Block;
    var w, s, e, d := NextId(db, Workflow), NextId(db, State), NextId(db, Edge), NextId(db, StandardDay);
    OnlyInBlock(User, NextId(db, User), [D.AdminRow(hash)], w);
    OnlyInBlock(Workflow, w, [D.BasicWorkflow()], w);
    OnlyInBlock(State, s, D.DefaultStates(w), w);
    OnlyInBlock(Edge, e, D.DefaultEdges(s), w);
    OnlyInBlock(StandardDay, d, D.DefaultDays(), w);
    OnlyJoins(D.Block(Edge, e, D.DefaultEdges(s)), D.Block(StandardDay, d, D.DefaultDays()), w);
    OnlyJoins(D.Block(State, s, D.DefaultStates(w)), D.Block(Edge, e, D.DefaultEdges(s)) + D.Block(StandardDay, d, D.DefaultDays()), w);
    OnlyJoins(D.Block(Workflow, w, [D.BasicWorkflow()]), DefaultsProofs.AddedContents(w, s, e, d), w);
    OnlyJoins(D.Block(User, NextId(db, User), [D.AdminRow(hash)]),
              D.Block(Workflow, w, [D.BasicWorkflow()]) + DefaultsProofs.AddedContents(w, s, e, d), w);
  }

  /**
   From a database without tables on, whatever is called and whatever fails: the durable version is 0, 1
   or 2, without tables, with empty tables, or with exactly the default data in a sound workflow graph.
   */
  lemma MigratedDatabaseIsSound(hash: string, cs: seq<Command>)
    ensures AllCome(Both(hash), Engine(Migrations.Schema(0, NoTables), None), cs)
    ensures var d := RunAll(Both(hash), Engine(Migrations.Schema(0, NoTables), None), cs).Durable();
            && Holds(hash, d.version, d.tables)
            && (d.version == 2 ==> Graph.Sound(d.tables.db) && Graph.CaptionsDiffer(d.tables.db.rows))
  {
    hide Both, Sorted, HasGap, AllCome, RunAll, Leads, Graph.Sound, Graph.CaptionsDiffer, Upgraded;
    var e := Engine(Migrations.Schema(0, NoTables), None);
    var right := (v: int, c: Content) => Holds(hash, v, c);
    BothAreOrdered(hash);
    GapLetsAllCome(Both(hash), e, cs);
    forall m, c | m in Both(hash) ensures Leads(right, m, c) { EachLeads(hash, m, c); }
    VersionDescribesContent(Both(hash), right, e, cs);
    var d := RunAll(Both(hash), e, cs).Durable();
    if d.version == 2 {
      var before :| Upgraded(hash, before, d.tables.db);
      DefaultData(before, hash, d.tables.db);
    }
  }

  // ---------------------------------------------------------------- with the server at work in between

  /** Calls of the manager, the manager's connection closed and opened again, and runs of the server. */
  datatype Act =
    | Manage(c: Command)
    | Reopen
    | Serve(qs: seq<(Graph.Request, bool)>)

  /** Service calls one after the other; the statement of a call marked with true fails and changes nothing. */
  ghost function Served(db: Db, qs: seq<(Graph.Request, bool)>): Db
    decreases |qs|
  {
    if qs == [] then db else Served(if qs[0].1 then db else Graph.Serve(db, qs[0].0), qs[1..])
  }

  /** The server finds its tables, and does not write while the manager's connection is inside a transaction. */
  ghost function Next(hash: string, e: Disk, a: Act): Disk {
    match a
    case Manage(c) =>
      BothAreOrdered(hash);
      GapLetsCome(Both(hash), e, c);
      MigrationRuns.Run(Both(hash), e, c)
    case Reopen => Engine(e.Durable(), None)
    case Serve(qs) =>
      if e.snapshot.Some? || e.content.tables.NoTables? then e
      else e.(content := e.content.(tables := Tables(Served(e.content.tables.db, qs))))
  }

  ghost function NextAll(hash: string, e: Disk, acts: seq<Act>): Disk
    decreases |acts|
  {
    if acts == [] then e else NextAll(hash, Next(hash, e, acts[0]), acts[1..])
  }

  /** No tables at version 0, and a sound workflow graph from version 1 on. */
  ghost predicate Good(version: int, c: Content) {
    if version == 0 then c.NoTables? else 0 < version <= 2 && c.Tables? && Graph.Sound(c.db)
  }

  lemma {:induction false} ServedIsSound(db: Db, qs: seq<(Graph.Request, bool)>)
    requires Graph.Sound(db)
    ensures Graph.Sound(Served(db, qs))
    decreases |qs|
  {
    hide Graph.Sound, Graph.Serve;
    if qs != [] {
      if !qs[0].1 { Graph.ServeKeepsSound(db, qs[0].0); }
      ServedIsSound(if qs[0].1 then db else Graph.Serve(db, qs[0].0), qs[1..]);
    }
  }

  lemma DownIsSound(db: Db)
    requires Graph.Sound(db)
    ensures Graph.Sound(db.(rows := D.Down(db.rows)))
  {
    hide Graph.Sound, Delete, D.All, D.DefaultWorkflows, D.Admins;
    var db1 := db.(rows := Delete(SchemaV1.V1, db.rows, D.All(db.rows, StandardDay)));
    Graph.DeleteKeeps(db, D.All(db.rows, StandardDay));
    var db2 := db1.(rows := Delete(SchemaV1.V1, db1.rows, D.All(db1.rows, Edge)));
    Graph.DeleteKeeps(db1, D.All(db1.rows, Edge));
    var db3 := db2.(rows := Delete(SchemaV1.V1, db2.rows, D.All(db2.rows, State)));
    Graph.DeleteKeeps(db2, D.All(db2.rows, State));
    var db4 := db3.(rows := Delete(SchemaV1.V1, db3.rows, D.DefaultWorkflows(db3.rows)));
    Graph.DeleteKeeps(db3, D.DefaultWorkflows(db3.rows));
    Graph.DeleteKeeps(db4, D.Admins(db4.rows));
  }

  lemma NewTablesAreSound()
    ensures Graph.Sound(Db(map[], map[]))
  {
    assert Empty(Db(map[], map[]));
    EmptyIsSound(Db(map[], map[]));
  }

  lemma EachKeepsGood(hash: string, m: Migration<Content>, c: Content)
    requires m in Both(hash)
    ensures Leads((v: int, c: Content) => Good(v, c), m, c)
  {
    hide Apply, UpScript, DownScript, D.Up, D.Down, Graph.Sound;
    V1Applies(c);
    NewTablesAreSound();
    if c.Tables? {
      UpApplies(hash, c.db);
      DownApplies(c.db);
      if Graph.Sound(c.db) {
        DefaultsProofs.UpWorksIff(c.db, hash);
        DownIsSound(c.db);
      }
    }
  }

  lemma ActKeepsGood(hash: string, e: Disk, a: Act)
    requires Describes((v: int, c: Content) => Good(v, c), e.Durable())
    ensures Describes((v: int, c: Content) => Good(v, c), Next(hash, e, a).Durable())
  {
    hide Both, Graph.Sound, MigrationRuns.Sound, MigrationRuns.Run, Leads, Served;
    var right := (v: int, c: Content) => Good(v, c);
    match a
    case Manage(c) =>
      BothAreOrdered(hash);
      GapLetsCome(Both(hash), e, c);
      BothKeepGood(hash);
      CommandKeepsRight(Both(hash), right, e, c);
    case Reopen =>
    case Serve(qs) =>
      if e.snapshot.None? && e.content.tables.Tables? { ServedIsSound(e.content.tables.db, qs); }
  }

  lemma BothKeepGood(hash: string)
    ensures MigrationRuns.Sound(Both(hash), (v: int, c: Content) => Good(v, c))
  {
    hide Leads, Both, Good;
    var right := (v: int, c: Content) => Good(v, c);
    forall m, c | m in Both(hash) ensures Leads(right, m, c) { EachKeepsGood(hash, m, c); }
  }

  /**
   Every run that mixes calls of the manager, failing anywhere, with service calls on the tables, whose
   statements may fail too: the durable version is 0, 1 or 2, and from version 1 on the graph is sound.
   */
  lemma {:induction false} ServerAndMigratorKeepSound(hash: string, e: Disk, acts: seq<Act>)
    requires 0 <= e.Durable().version && Good(e.Durable().version, e.Durable().tables)
    ensures var d := NextAll(hash, e, acts).Durable();
            0 <= d.version <= 2 && Good(d.version, d.tables)
    decreases |acts|
  {
    hide Graph.Sound, Next;
    if acts != [] {
      ActKeepsGood(hash, e, acts[0]);
      ServerAndMigratorKeepSound(hash, Next(hash, e, acts[0]), acts[1..]);
    }
  }
}
