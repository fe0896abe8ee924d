/**
 A relational store with foreign keys: rows that refer to rows, and deletes that spread by ON DELETE
 CASCADE and clear references by ON DELETE SET NULL. Everything here holds for any schema.
 */
module Store {
  import opened Sqlite

  datatype Table =
    | User | Team | Role | UserTeamRole | Rule | RuleProject | RuleItemType | RuleState | RoleMenuItem
    | Project | Phase | ProjectTeam
    | Workflow | State | Edge | ItemType | FieldType | FieldTypePossibleValue
    | Item | ItemField | ItemHistory | ItemUserState | LinkType | ItemLink
    | Document | ItemDocument | Comment | CommentDocument | Board | BoardColumn
    | StandardDay | SpecialDay | UserDay
    | PrivateMessage | TeamMessage | UserNotification | UserAction | UserTodo | ItemPlanning

  /** The columns that carry foreign keys in some table. */
  datatype Column =
    | UserId | TeamId | RoleId | RuleId | ProjectId | ItemTypeId | StateId | ParentId | WorkflowId
    | BeginStateId | EndStateId | FieldTypeId | PhaseId | ItemId | SourceItemTypeId | DestinationItemTypeId
    | LinkTypeId | SourceItemId | DestinationItemId | UploadedByUserId | DocumentId | CommentId | BoardId
    | SenderUserId | ReceiverUserId

  datatype Action = Cascade | SetNull

  datatype ForeignKey = ForeignKey(parent: Table, onDelete: Action)

  type Schema = (Table, Column) -> Option<ForeignKey>

  datatype Ref = Ref(table: Table, id: int)

  /** The columns without foreign keys. */
  datatype Data =
    | NoData
    | WorkflowData(caption: string, description: Option<string>)
    | StateData(caption: string, description: Option<string>, weight: int, orderNumber: int, isArchive: bool, isQueue: bool)
    | UserData(login: string, email: string, rest: string)
    | DayData(weekDay: int, isWorkDay: bool, hours: Option<(string, string)>, breakDuration: int)
    | OtherData(text: string)

  /** A column that is missing from `refs` is NULL. */
  datatype Row = Row(refs: map<Column, int>, data: Data)

  type Rows = map<Ref, Row>

  /** `next` holds the AUTOINCREMENT counters: the id that the next row of a table will get. */
  datatype Db = Db(rows: Rows, next: map<Table, int>)

  function NextId(db: Db, t: Table): int {
    if t in db.next then db.next[t] else 1
  }

  /** The row that a column of a row refers to. */
  function Target(schema: Schema, r: Ref, row: Row, c: Column): Option<(Ref, Action)> {
    if c in row.refs && schema(r.table, c).Some?
    then Some((Ref(schema(r.table, c).value.parent, row.refs[c]), schema(r.table, c).value.onDelete))
    else None
  }

  /** Every reference leads to a row. */
  ghost predicate Integrity(schema: Schema, rows: Rows) {
    forall r, c | r in rows && Target(schema, r, rows[r], c).Some? :: Target(schema, r, rows[r], c).value.0 in rows
  }

  /** Deleting the parent deletes the child. */
  ghost predicate Follows(schema: Schema, rows: Rows, child: Ref, parent: Ref) {
    child in rows && exists c :: Target(schema, child, rows[child], c) == Some((parent, Cascade))
  }

  ghost function Dependents(schema: Schema, rows: Rows, dead: set<Ref>): set<Ref> {
    set r | r in rows && exists p | p in dead :: Follows(schema, rows, r, p)
  }

  ghost predicate Closed(schema: Schema, rows: Rows, dead: set<Ref>) {
    Dependents(schema, rows, dead) <= dead
  }

  /** Everything that the deletion of some rows deletes. */
  ghost function Doomed(schema: Schema, rows: Rows, dead: set<Ref>): set<Ref>
    decreases rows.Keys - dead
  {
    if Closed(schema, rows, dead) then dead else Doomed(schema, rows, dead + Dependents(schema, rows, dead))
  }

  /** A row once the dead rows are gone: references to them that are SET NULL are cleared. */
  function Cut(schema: Schema, r: Ref, row: Row, dead: set<Ref>): Row {
    Row(map c | c in row.refs && !(Target(schema, r, row, c).Some? && Target(schema, r, row, c).value.1.SetNull?
                                   && Target(schema, r, row, c).value.0 in dead) :: row.refs[c],
        row.data)
  }

  function Without(schema: Schema, rows: Rows, dead: set<Ref>): Rows {
    map r | r in rows && r !in dead :: Cut(schema, r, rows[r], dead)
  }

  /** DELETE of the selected rows, with everything it brings about. */
  ghost function Delete(schema: Schema, rows: Rows, selected: set<Ref>): Rows {
    Without(schema, rows, Doomed(schema, rows, selected))
  }

  // ---------------------------------------------------------------- the doomed rows are the least closed set

  lemma {:induction false} DoomedIsClosed(schema: Schema, rows: Rows, dead: set<Ref>)
    ensures dead <= Doomed(schema, rows, dead) <= dead + rows.Keys
    ensures Closed(schema, rows, Doomed(schema, rows, dead))
    decreases rows.Keys - dead
  {
    if !Closed(schema, rows, dead) {
      DoomedIsClosed(schema, rows, dead + Dependents(schema, rows, dead));
    }
  }

  lemma {:induction false} DoomedIsLeast(schema: Schema, rows: Rows, dead: set<Ref>, s: set<Ref>)
    requires dead <= s && Closed(schema, rows, s)
    ensures Doomed(schema, rows, dead) <= s
    decreases rows.Keys - dead
  {
    if !Closed(schema, rows, dead) {
      assert Dependents(schema, rows, dead) <= Dependents(schema, rows, s);
      DoomedIsLeast(schema, rows, dead + Dependents(schema, rows, dead), s);
    }
  }

  lemma DoomedFollows(schema: Schema, rows: Rows, dead: set<Ref>, child: Ref, parent: Ref)
    requires parent in Doomed(schema, rows, dead) && Follows(schema, rows, child, parent)
    ensures child in Doomed(schema, rows, dead)
  {
    DoomedIsClosed(schema, rows, dead);
    assert child in Dependents(schema, rows, Doomed(schema, rows, dead));
  }

  // ---------------------------------------------------------------- a delete keeps the store sound

  lemma CutTargets(schema: Schema, r: Ref, row: Row, dead: set<Ref>, c: Column)
    ensures Target(schema, r, Cut(schema, r, row, dead), c)
            == (var t := Target(schema, r, row, c);
                if t.Some? && t.value.1.SetNull? && t.value.0 in dead then None else t)
  {
  }

  lemma WithoutKeepsIntegrity(schema: Schema, rows: Rows, dead: set<Ref>)
    requires Integrity(schema, rows) && Closed(schema, rows, dead)
    ensures Integrity(schema, Without(schema, rows, dead))
  {
    var after := Without(schema, rows, dead);
    forall r, c | r in after && Target(schema, r, after[r], c).Some?
      ensures Target(schema, r, after[r], c).value.0 in after
    {
      CutTargets(schema, r, rows[r], dead, c);
      var (p, action) := Target(schema, r, rows[r], c).value;
      assert action.Cascade? ==> Follows(schema, rows, r, p);
      assert p in dead && action.Cascade? ==> r in Dependents(schema, rows, dead);
    }
  }

  /** Deleting rows never leaves a reference that leads nowhere. */
  lemma DeleteKeepsIntegrity(schema: Schema, rows: Rows, selected: set<Ref>)
    requires Integrity(schema, rows)
    ensures Integrity(schema, Delete(schema, rows, selected))
  {
    DoomedIsClosed(schema, rows, selected);
    WithoutKeepsIntegrity(schema, rows, Doomed(schema, rows, selected));
  }

  ghost predicate Unreferenced(schema: Schema, rows: Rows, selected: set<Ref>) {
    forall r, c | r in rows && Target(schema, r, rows[r], c).Some? :: Target(schema, r, rows[r], c).value.0 !in selected
  }

  /** Rows that nothing refers to go alone. */
  lemma DeleteUnreferenced(schema: Schema, rows: Rows, selected: set<Ref>)
    requires Unreferenced(schema, rows, selected)
    ensures Doomed(schema, rows, selected) == selected
    ensures Delete(schema, rows, selected) == rows - selected
  {
    assert Dependents(schema, rows, selected) == {};
    forall r | r in rows && r !in selected ensures Cut(schema, r, rows[r], selected) == rows[r] {
      CutKeeps(schema, r, rows[r], selected);
    }
    WithoutUncut(schema, rows, selected);
  }

  lemma WithoutUncut(schema: Schema, rows: Rows, dead: set<Ref>)
    requires forall r | r in rows && r !in dead :: Cut(schema, r, rows[r], dead) == rows[r]
    ensures Without(schema, rows, dead) == rows - dead
  {
    assert Without(schema, rows, dead).Keys == (rows - dead).Keys;
  }

  lemma CutKeeps(schema: Schema, r: Ref, row: Row, dead: set<Ref>)
    requires forall c | Target(schema, r, row, c).Some? && Target(schema, r, row, c).value.1.SetNull? ::
               Target(schema, r, row, c).value.0 !in dead
    ensures Cut(schema, r, row, dead) == row
  {
    assert Cut(schema, r, row, dead).refs == row.refs;
  }

  // ---------------------------------------------------------------- the work list

  /** What has been deleted and what is still to be: nothing too much, and nothing forgotten. */
  ghost predicate Pending(schema: Schema, rows: Rows, root: Ref, dead: set<Ref>, todo: set<Ref>) {
    && dead + todo <= Doomed(schema, rows, {root})
    && root in dead + todo
    && Dependents(schema, rows, dead) <= dead + todo
  }

  lemma WorkStart(schema: Schema, rows: Rows, root: Ref)
    ensures Pending(schema, rows, root, {}, {root})
  {
    DoomedIsClosed(schema, rows, {root});
    assert Dependents(schema, rows, {}) == {};
  }

  lemma WorkStep(schema: Schema, rows: Rows, root: Ref, dead: set<Ref>, todo: set<Ref>, r: Ref, children: set<Ref>)
    requires Pending(schema, rows, root, dead, todo) && r in todo
    requires children == Dependents(schema, rows, {r}) - dead - {r}
    ensures Pending(schema, rows, root, dead + {r}, todo - {r} + children)
    ensures Without(schema, Without(schema, rows, dead), {r}) == Without(schema, rows, dead + {r})
  {
    WithoutMore(schema, rows, dead, {r});
    assert Dependents(schema, rows, dead + {r}) == Dependents(schema, rows, dead) + Dependents(schema, rows, {r});
    forall k | k in children ensures k in Doomed(schema, rows, {root}) {
      DoomedFollows(schema, rows, {root}, k, r);
    }
  }

  lemma WorkDone(schema: Schema, rows: Rows, root: Ref, dead: set<Ref>)
    requires Pending(schema, rows, root, dead, {})
    ensures Without(schema, rows, dead) == Delete(schema, rows, {root})
  {
    DoomedIsLeast(schema, rows, {root}, dead);
    assert dead == Doomed(schema, rows, {root});
  }

  /** The cascade one row at a time; the order does not matter. */
  class Database {
    const schema: Schema
    var rows: Rows
    var next: map<Table, int>

    function State(): Db
      reads this
    {
      Db(rows, next)
    }

    constructor (schema: Schema, db: Db)
      ensures this.schema == schema && State() == db
    {
      this.schema, rows, next := schema, db.rows, db.next;
    }

    /** The number of rows that the statement itself deletes: one or none. */
    method DeleteRow(root: Ref) returns (affected: nat)
      modifies this`rows
      ensures rows == if root in old(rows) then Delete(schema, old(rows), {root}) else old(rows)
      ensures affected == if root in old(rows) then 1 else 0
    {
      if root !in rows { return 0; }
      ghost var before := rows;
      ghost var dead: set<Ref> := {};
      var todo := {root};
      WorkStart(schema, before, root);
      WithoutNothing(schema, before);
      while todo != {}
        invariant rows == Without(schema, before, dead)
        invariant todo <= rows.Keys && Pending(schema, before, root, dead, todo)
        decreases rows.Keys
      {
        var r :| r in todo;
        var cleared := Without(schema, rows, {r});
        var children := set k, c | k in cleared && c in cleared[k].refs
                                   && Target(schema, k, cleared[k], c) == Some((r, Cascade)) :: k;
        ChildrenAre(schema, before, dead, r, children);
        WorkStep(schema, before, root, dead, todo, r, children);
        rows, todo, dead := cleared, todo - {r} + children, dead + {r};
      }
      WorkDone(schema, before, root, dead);
      affected := 1;
    }
  }

  lemma WithoutNothing(schema: Schema, rows: Rows)
    ensures Without(schema, rows, {}) == rows
  {
    forall r | r in rows ensures Cut(schema, r, rows[r], {}) == rows[r] {
      CutKeeps(schema, r, rows[r], {});
    }
  }

  /** Removing more rows from a store already cut is removing them all at once. */
  lemma WithoutMore(schema: Schema, rows: Rows, dead: set<Ref>, more: set<Ref>)
    ensures Without(schema, Without(schema, rows, dead), more) == Without(schema, rows, dead + more)
  {
    var once, twice := Without(schema, rows, dead + more), Without(schema, Without(schema, rows, dead), more);
    forall k | k in once ensures once[k] == twice[k] {
      forall c ensures Target(schema, k, Cut(schema, k, rows[k], dead), c)
                       == (var t := Target(schema, k, rows[k], c);
                           if t.Some? && t.value.1.SetNull? && t.value.0 in dead then None else t)
      {
        CutTargets(schema, k, rows[k], dead, c);
      }
      assert once[k].refs == twice[k].refs;
    }
    assert once.Keys == twice.Keys;
  }

  lemma ChildrenAre(schema: Schema, before: Rows, dead: set<Ref>, r: Ref, children: set<Ref>)
    requires var cleared := Without(schema, Without(schema, before, dead), {r});
             children == set k, c | k in cleared && c in cleared[k].refs
                                    && Target(schema, k, cleared[k], c) == Some((r, Cascade)) :: k
    ensures children == Dependents(schema, before, {r}) - dead - {r}
  {
    WithoutMore(schema, before, dead, {r});
    var cleared := Without(schema, before, dead + {r});
    forall k, c | k in before && k !in dead + {r}
      ensures Target(schema, k, cleared[k], c) == Some((r, Cascade)) <==> Target(schema, k, before[k], c) == Some((r, Cascade))
    {
      CutTargets(schema, k, before[k], dead + {r}, c);
    }
    forall k | k in Dependents(schema, before, {r}) - dead - {r} ensures k in children {
      var c :| Target(schema, k, before[k], c) == Some((r, Cascade));
      assert k in cleared && Target(schema, k, cleared[k], c) == Some((r, Cascade)) && c in cleared[k].refs;
    }
    forall k | k in children ensures k in Dependents(schema, before, {r}) {
      var c :| Target(schema, k, cleared[k], c) == Some((r, Cascade));
      assert Follows(schema, before, k, r);
    }
  }

  // ---------------------------------------------------------------- several rows by one statement

  /** Cutting takes no CASCADE reference away, so the rows that follow stay the same. */
  lemma FollowsAfter(schema: Schema, rows: Rows, dead: set<Ref>, child: Ref, parent: Ref)
    requires child !in dead
    ensures Follows(schema, Without(schema, rows, dead), child, parent) <==> Follows(schema, rows, child, parent)
  {
    if child in rows {
      forall c ensures Target(schema, child, Without(schema, rows, dead)[child], c) == Some((parent, Cascade))
                       <==> Target(schema, child, rows[child], c) == Some((parent, Cascade))
      {
        CutTargets(schema, child, rows[child], dead, c);
      }
    }
  }

  /** What two deletes doom, one after the other, is what both doom at once. */
  lemma DoomedTwice(schema: Schema, rows: Rows, a: set<Ref>, b: set<Ref>)
    ensures var first := Doomed(schema, rows, a);
            first + Doomed(schema, Without(schema, rows, first), b) == Doomed(schema, rows, a + b)
  {
    var first, both := Doomed(schema, rows, a), Doomed(schema, rows, a + b);
    var left := Without(schema, rows, first);
    var second := Doomed(schema, left, b);
    DoomedIsClosed(schema, rows, a);
    DoomedIsClosed(schema, rows, a + b);
    DoomedIsClosed(schema, left, b);
    forall k | k in Dependents(schema, rows, first + second) ensures k in first + second {
      var p :| p in first + second && Follows(schema, rows, k, p);
      assert p in first ==> k in Dependents(schema, rows, first);
      if k !in first {
        FollowsAfter(schema, rows, first, k, p);
        assert k in Dependents(schema, left, second);
      }
    }
    DoomedIsLeast(schema, rows, a + b, first + second);
    DoomedIsLeast(schema, rows, a, both);
    forall k | k in Dependents(schema, left, both) ensures k in both {
      var p :| p in both && Follows(schema, left, k, p);
      FollowsAfter(schema, rows, first, k, p);
      assert k in Dependents(schema, rows, both);
    }
    DoomedIsLeast(schema, left, b, both);
  }

  /** One delete after another is one delete of both selections: rows can go in any order. */
  lemma DeleteTwice(schema: Schema, rows: Rows, a: set<Ref>, b: set<Ref>)
    ensures Delete(schema, Delete(schema, rows, a), b) == Delete(schema, rows, a + b)
  {
    var first := Doomed(schema, rows, a);
    DoomedTwice(schema, rows, a, b);
    WithoutMore(schema, rows, first, Doomed(schema, Without(schema, rows, first), b));
  }

  lemma DeleteAbsent(schema: Schema, rows: Rows, a: set<Ref>, r: Ref)
    requires r !in Delete(schema, rows, a) && r in rows
    ensures Delete(schema, rows, a + {r}) == Delete(schema, rows, a)
  {
    DoomedIsClosed(schema, rows, a);
    DoomedIsClosed(schema, rows, a + {r});
    DoomedIsLeast(schema, rows, a + {r}, Doomed(schema, rows, a));
    DoomedIsLeast(schema, rows, a, Doomed(schema, rows, a + {r}));
    assert Doomed(schema, rows, a + {r}) == Doomed(schema, rows, a);
  }

  lemma DeleteNothing(schema: Schema, rows: Rows)
    ensures Delete(schema, rows, {}) == rows
  {
    assert Dependents(schema, rows, {}) == {};
    WithoutNothing(schema, rows);
  }

  /** DELETE with a condition: the selected rows one after the other, some of them gone with earlier ones. */
  method DeleteRows(db: Database, selected: set<Ref>)
    requires selected <= db.rows.Keys
    modifies db`rows
    ensures db.rows == Delete(db.schema, old(db.rows), selected)
  {
    ghost var before := db.rows;
    var todo, done := selected, {};
    DeleteNothing(db.schema, before);
    while todo != {}
      invariant done !! todo && done + todo == selected
      invariant db.rows == Delete(db.schema, before, done)
      decreases todo
    {
      var r :| r in todo;
      if r in db.rows { DeleteTwice(db.schema, before, done, {r}); } else { DeleteAbsent(db.schema, before, done, r); }
      var affected := db.DeleteRow(r);
      todo, done := todo - {r}, done + {r};
    }
    assert done == selected;
  }
}
