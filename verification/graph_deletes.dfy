/** Exactly what the deletes of the workflow and state services take away. */
module GraphDeletes {
  import opened Sqlite
  import opened Store
  import opened SchemaV1
  import opened Services
  import opened Graph

  /** Tables that no cascade from a workflow reaches. */
  predicate Independent(t: Table) {
    t.User? || t.Team? || t.Role? || t.UserTeamRole? || t.Rule? || t.RuleProject? || t.RoleMenuItem? || t.Project?
    || t.Phase? || t.ProjectTeam? || t.Document? || t.StandardDay? || t.SpecialDay? || t.UserDay? || t.PrivateMessage?
    || t.TeamMessage? || t.UserAction? || t.UserTodo?
  }

  predicate LiesIn(rows: Rows, r: Ref, w: int) {
    r in rows && ValueOf(rows[r], WorkflowId) == w
  }

  predicate StateLiesIn(rows: Rows, r: Ref, c: Column, w: int) {
    r in rows && LiesIn(rows, Ref(State, ValueOf(rows[r], c)), w)
  }

  predicate TypeLiesIn(rows: Rows, item: Ref, w: int) {
    item in rows && LiesIn(rows, Ref(ItemType, ValueOf(rows[item], ItemTypeId)), w)
  }

  /** A bound on what the deletion of a workflow can reach. */
  predicate Reachable(rows: Rows, w: int, r: Ref) {
    match r.table
    case Workflow => r.id == w
    case State => LiesIn(rows, r, w)
    case ItemType => LiesIn(rows, r, w)
    case Edge => StateLiesIn(rows, r, BeginStateId, w) || StateLiesIn(rows, r, EndStateId, w)
    case Item => TypeLiesIn(rows, r, w) || StateLiesIn(rows, r, StateId, w)
    case _ => !Independent(r.table)
  }

  /** The tables with a foreign key to a workflow, a state or an item type. */
  lemma FollowsWorkflow(rows: Rows, w: int, child: Ref, parent: Ref, c: Column)
    requires child in rows && Target(V1, child, rows[child], c) == Some((parent, Cascade)) && Reachable(rows, w, parent)
    requires c.WorkflowId? || c.StateId? || c.BeginStateId? || c.EndStateId? || c.ItemTypeId?
    ensures Reachable(rows, w, child)
  {
    assert parent == Ref(ParentTable(child.table, c), ValueOf(rows[child], c));
  }

  /** All other foreign keys lead from tables that are reached as a whole, or to tables that are not reached. */
  lemma FollowsElsewhere(t: Table, c: Column)
    requires Declares(t, c) && !c.ParentId? && !c.PhaseId?
    requires !c.WorkflowId? && !c.StateId? && !c.BeginStateId? && !c.EndStateId? && !c.ItemTypeId?
    ensures Independent(ParentTable(t, c)) || !(Independent(t) || t.Workflow? || t.State? || t.ItemType? || t.Edge? || t.Item?)
  {
  }

  lemma ReachableFollows(rows: Rows, w: int, child: Ref, parent: Ref, c: Column)
    requires child in rows && Target(V1, child, rows[child], c) == Some((parent, Cascade)) && Reachable(rows, w, parent)
    ensures Reachable(rows, w, child)
  {
    if c.WorkflowId? || c.StateId? || c.BeginStateId? || c.EndStateId? || c.ItemTypeId? {
      FollowsWorkflow(rows, w, child, parent, c);
    } else {
      hide LiesIn, StateLiesIn, TypeLiesIn, Declares, ParentTable, Independent;
      FollowsElsewhere(child.table, c);
      IndependentApart(parent);
    }
  }

  lemma IndependentApart(r: Ref)
    ensures Independent(r.table) ==> !r.table.Workflow? && !r.table.State? && !r.table.ItemType? && !r.table.Edge? && !r.table.Item?
  {
  }

  lemma DoomedIsReachable(rows: Rows, w: int)
    requires Ref(Workflow, w) in rows
    ensures forall r | r in Doomed(V1, rows, {Ref(Workflow, w)}) :: r in rows && Reachable(rows, w, r)
  {
    var s := set r | r in rows && Reachable(rows, w, r);
    forall r | r in Dependents(V1, rows, s) ensures r in s {
      var p :| p in s && Follows(V1, rows, r, p);
      var c :| Target(V1, r, rows[r], c) == Some((p, Cascade));
      ReachableFollows(rows, w, r, p, c);
    }
    DoomedIsLeast(V1, rows, {Ref(Workflow, w)}, s);
  }

  lemma FollowsBy(rows: Rows, dead: set<Ref>, child: Ref, c: Column)
    requires child in rows && c in rows[child].refs && Declares(child.table, c) && !c.ParentId? && !c.PhaseId?
    requires Ref(ParentTable(child.table, c), rows[child].refs[c]) in Doomed(V1, rows, dead)
    ensures child in Doomed(V1, rows, dead)
  {
    var p := Ref(ParentTable(child.table, c), rows[child].refs[c]);
    assert Target(V1, child, rows[child], c) == Some((p, Cascade));
    DoomedFollows(V1, rows, dead, child, p);
  }

  lemma ReachedByWorkflow(db: Db, w: int, r: Ref)
    requires Sound(db) && Ref(Workflow, w) in db.rows && r in db.rows && Reachable(db.rows, w, r)
    requires r.table.Workflow? || r.table.State? || r.table.ItemType?
    ensures r in Doomed(V1, db.rows, {Ref(Workflow, w)})
  {
    hide Doomed, Integrity, EdgesInWorkflows, NoTwinEdges;
    DoomedIsClosed(V1, db.rows, {Ref(Workflow, w)});
    assert Shaped(r, db.rows[r]);
    if !r.table.Workflow? { FollowsBy(db.rows, {Ref(Workflow, w)}, r, WorkflowId); }
  }

  /** An edge goes with either of its ends, an item with its type or its state. */
  lemma ReachedByEnds(db: Db, w: int, r: Ref, c: Column)
    requires Sound(db) && Ref(Workflow, w) in db.rows && r in db.rows
    requires (r.table.Edge? && (c.BeginStateId? || c.EndStateId?) && StateLiesIn(db.rows, r, c, w))
             || (r.table.Item? && c.StateId? && StateLiesIn(db.rows, r, c, w))
             || (r.table.Item? && c.ItemTypeId? && TypeLiesIn(db.rows, r, w))
    ensures r in Doomed(V1, db.rows, {Ref(Workflow, w)})
  {
    hide Doomed, Sound;
    SoundShape(db, r);
    ReachedByWorkflow(db, w, Ref(ParentTable(r.table, c), ValueOf(db.rows[r], c)));
    FollowsBy(db.rows, {Ref(Workflow, w)}, r, c);
  }

  /** What the services look at is doomed exactly as far as it hangs on the workflow. */
  lemma DoomedByWorkflow(db: Db, w: int, r: Ref)
    requires Sound(db) && Ref(Workflow, w) in db.rows && r in db.rows
    requires r.table.Workflow? || r.table.State? || r.table.Edge? || r.table.ItemType? || r.table.Item?
    ensures r in Doomed(V1, db.rows, {Ref(Workflow, w)}) <==> Reachable(db.rows, w, r)
  {
    hide Doomed, Sound, StateLiesIn, TypeLiesIn, LiesIn;
    DoomedIsReachable(db.rows, w);
    if Reachable(db.rows, w, r) {
      match r.table
      case Edge => ReachedByEnds(db, w, r, if StateLiesIn(db.rows, r, BeginStateId, w) then BeginStateId else EndStateId);
      case Item => ReachedByEnds(db, w, r, if TypeLiesIn(db.rows, r, w) then ItemTypeId else StateId);
      case _ => ReachedByWorkflow(db, w, r);
    }
  }

  /** Edges with an end in the workflow are those that the repository's double join finds. */
  lemma EdgesOfEitherEnd(db: Db, w: int, e: Ref)
    requires Sound(db) && e in db.rows && e.table.Edge? && w > 0
    ensures e in EdgesOf(db.rows, w) <==> StateLiesIn(db.rows, e, BeginStateId, w)
    ensures e in EdgesOf(db.rows, w) <==> StateLiesIn(db.rows, e, EndStateId, w)
  {
    assert EdgeInWorkflow(db.rows, e);
  }

  /** Whether a row of these tables goes with the workflow. */
  predicate GoesWith(rows: Rows, w: int, r: Ref) {
    match r.table
    case Workflow => r.id == w
    case State => r in StatesOf(rows, w)
    case Edge => r in EdgesOf(rows, w)
    case Item => TypeLiesIn(rows, r, w)
    case _ => false
  }

  lemma DoomedGoesWith(db: Db, w: int, r: Ref)
    requires Sound(db) && DeleteWorkflow(db, w).1.Deleted? && r in db.rows
    requires r.table.Workflow? || r.table.State? || r.table.Edge? || r.table.Item? || Independent(r.table)
    ensures r in Doomed(V1, db.rows, {Ref(Workflow, w)}) <==> GoesWith(db.rows, w, r)
  {
    hide Sound, Doomed, Delete, UsedByItems, TypeLiesIn, Independent;
    IndependentApart(r);
    DoomedIsReachable(db.rows, w);
    if !Independent(r.table) {
      DoomedByWorkflow(db, w, r);
      match r.table
      case Edge => EdgesOfEitherEnd(db, w, r);
      case Item => UnusedStates(db, w, r);
      case _ =>
    }
  }

  /**
   A successful deleteWorkflow: that workflow goes with its states and its edges, and no other
   workflow, state or edge; of the items exactly those go whose type belongs to the workflow; tables
   that do not depend on workflows keep all their rows; and the only surviving rows that change are
   items whose parent item is gone.
   */
  lemma WorkflowDeletion(db: Db, w: int)
    requires Sound(db) && DeleteWorkflow(db, w).1.Deleted?
    ensures forall r: Ref | r.table.Workflow? || r.table.State? || r.table.Edge? || r.table.Item? || Independent(r.table) ::
              r in DeleteWorkflow(db, w).0.rows <==> r in db.rows && !GoesWith(db.rows, w, r)
    ensures forall r | r in DeleteWorkflow(db, w).0.rows ::
              && r in db.rows
              && (!r.table.Item? ==> DeleteWorkflow(db, w).0.rows[r] == db.rows[r])
  {
    var rows, rows' := db.rows, DeleteWorkflow(db, w).0.rows;
    var dead := Doomed(V1, rows, {Ref(Workflow, w)});
    assert forall r :: r in rows' <==> r in rows && r !in dead;
    forall r | r in rows && (r.table.Workflow? || r.table.State? || r.table.Edge? || r.table.Item? || Independent(r.table))
      ensures r in dead <==> GoesWith(rows, w, r)
    {
      DoomedGoesWith(db, w, r);
    }
    DoomedIsReachable(rows, w);
    forall r | r in rows' && !r.table.Item? ensures rows'[r] == rows[r] {
      OnlyItemsChange(rows, dead, r);
    }
  }

  lemma UnusedStates(db: Db, w: int, item: Ref)
    requires Sound(db) && CanDeleteWorkflow(db.rows, w) == Some(true) && w > 0 && item in db.rows && item.table.Item?
    ensures !StateLiesIn(db.rows, item, StateId, w)
  {
    if StateLiesIn(db.rows, item, StateId, w) {
      var s := Ref(State, ValueOf(db.rows[item], StateId));
      assert s in StatesOf(db.rows, w) && UsedByItems(db.rows, s.id);
      assert false;
    }
  }

  /** With no phase or project deleted, clearing references touches items only. */
  lemma OnlyItemsChange(rows: Rows, dead: set<Ref>, r: Ref)
    requires r in rows && !r.table.Item?
    requires forall d | d in dead :: !d.table.Phase? && !d.table.Project?
    ensures Cut(V1, r, rows[r], dead) == rows[r]
  {
    CutKeeps(V1, r, rows[r], dead);
  }

  /** Every item is in a state of its type's workflow. */
  predicate ItemsInWorkflows(rows: Rows) {
    forall r | r in rows && r.table.Item? ::
      && Ref(State, ValueOf(rows[r], StateId)) in rows && Ref(ItemType, ValueOf(rows[r], ItemTypeId)) in rows
      && ValueOf(rows[Ref(State, ValueOf(rows[r], StateId))], WorkflowId)
         == ValueOf(rows[Ref(ItemType, ValueOf(rows[r], ItemTypeId))], WorkflowId)
  }

  ghost predicate NoItemGone(before: Rows, after: Rows) {
    forall r | r in before && r.table.Item? :: r in after
  }

  /**
   The guard of deleteWorkflow looks at states only: items survive exactly when none of them has a type
   of the workflow, which is so when items are in states of their type's workflow.
   */
  lemma ItemsSurvive(db: Db, w: int)
    requires Sound(db) && DeleteWorkflow(db, w).1.Deleted?
    ensures NoItemGone(db.rows, DeleteWorkflow(db, w).0.rows)
            <==> (forall r | r in db.rows && r.table.Item? :: !TypeLiesIn(db.rows, r, w))
    ensures ItemsInWorkflows(db.rows) ==> NoItemGone(db.rows, DeleteWorkflow(db, w).0.rows)
  {
    hide Sound, DeleteWorkflow, TypeLiesIn, ItemsInWorkflows;
    WorkflowDeletion(db, w);
    if ItemsInWorkflows(db.rows) {
      forall r | r in db.rows && r.table.Item? ensures !TypeLiesIn(db.rows, r, w) { ItemElsewhere(db, w, r); }
    }
  }

  lemma ItemElsewhere(db: Db, w: int, item: Ref)
    requires Sound(db) && DeleteWorkflow(db, w).1.Deleted? && ItemsInWorkflows(db.rows)
    requires item in db.rows && item.table.Item?
    ensures !TypeLiesIn(db.rows, item, w)
  {
    hide Sound, Delete;
    UnusedStates(db, w, item);
  }

  // ---------------------------------------------------------------- an item that goes with a workflow it is not in

  /** Workflows 1 and 2, a state of 2, an item type of 1, and an item of that type in that state. */
  function CrossedRow(t: Table, id: int): Option<Row> {
    match t
    case Workflow => if id == 1 then Some(Row(map[], WorkflowData("a", None)))
                     else if id == 2 then Some(Row(map[], WorkflowData("b", None))) else None
    case State => if id == 1 then Some(Row(map[WorkflowId := 2], StateData("s", None, 0, 0, false, false))) else None
    case ItemType => if id == 1 then Some(Row(map[WorkflowId := 1], NoData)) else None
    case Item => if id == 1 then Some(Row(map[ItemTypeId := 1, StateId := 1], NoData)) else None
    case _ => None
  }

  ghost predicate AsCrossed(rows: Rows) {
    && (forall r :: r in rows <==> CrossedRow(r.table, r.id).Some?)
    && (forall r | r in rows :: rows[r] == CrossedRow(r.table, r.id).value)
  }

  function Crossed(): (db: Db)
    ensures AsCrossed(db.rows)
    ensures forall t :: 0 < NextId(db, t)
    ensures forall r | r in db.rows :: r.id < NextId(db, r.table)
  {
    var tables := {Workflow, State, Edge, ItemType, Item};
    var rows := map t, id | t in tables && id in {1, 2} && CrossedRow(t, id).Some? :: Ref(t, id) := CrossedRow(t, id).value;
    Db(rows, map[Workflow := 3, State := 2, ItemType := 2, Item := 2])
  }

  lemma CrossedAt(rows: Rows, t: Table, id: int)
    requires AsCrossed(rows)
    ensures Ref(t, id) in rows <==> CrossedRow(t, id).Some?
    ensures Ref(t, id) in rows ==> rows[Ref(t, id)] == CrossedRow(t, id).value
  {
    hide CrossedRow;
  }

  lemma CrossedParent(t: Table, id: int, c: Column)
    requires CrossedRow(t, id).Some? && c in CrossedRow(t, id).value.refs && Declares(t, c)
    ensures CrossedRow(ParentTable(t, c), CrossedRow(t, id).value.refs[c]).Some?
  {
  }

  lemma CrossedTarget(rows: Rows, r: Ref, c: Column)
    requires AsCrossed(rows) && r in rows && Target(V1, r, rows[r], c).Some?
    ensures Target(V1, r, rows[r], c).value.0 in rows
  {
    hide AsCrossed, CrossedRow, Declares, ParentTable;
    CrossedAt(rows, r.table, r.id);
    assert r == Ref(r.table, r.id);
    CrossedParent(r.table, r.id, c);
    CrossedAt(rows, ParentTable(r.table, c), rows[r].refs[c]);
  }

  lemma CrossedIntegrity(rows: Rows)
    requires AsCrossed(rows)
    ensures Integrity(V1, rows)
  {
    hide AsCrossed, V1;
    forall r, c | r in rows && Target(V1, r, rows[r], c).Some? ensures Target(V1, r, rows[r], c).value.0 in rows {
      CrossedTarget(rows, r, c);
    }
  }

  lemma CrossedEdges(rows: Rows)
    requires AsCrossed(rows)
    ensures EdgesInWorkflows(rows) && NoTwinEdges(rows) && CaptionsDiffer(rows)
  {
    forall r | r in rows ensures !r.table.Edge? && (r.table.Workflow? ==> Caption(rows[r]) == if r.id == 1 then "a" else "b") {
      CrossedAt(rows, r.table, r.id);
    }
    hide AsCrossed, CrossedRow, Caption;
  }

  lemma CrossedShape(t: Table, id: int)
    requires CrossedRow(t, id).Some?
    ensures Shaped(Ref(t, id), CrossedRow(t, id).value) && id > 0
  {
  }

  lemma CrossedIsTyped()
    ensures WellTyped(Crossed())
  {
    var db := Crossed();
    hide Crossed, CrossedRow, NextId;
    forall r | r in db.rows ensures Shaped(r, db.rows[r]) && 0 < r.id < NextId(db, r.table) {
      CrossedShape(r.table, r.id);
      assert r == Ref(r.table, r.id);
    }
  }

  lemma CrossedIsSound()
    ensures Sound(Crossed()) && CaptionsDiffer(Crossed().rows)
  {
    hide Crossed, WellTyped, Integrity, AsCrossed, EdgesInWorkflows, NoTwinEdges, CaptionsDiffer;
    CrossedIsTyped();
    CrossedIntegrity(Crossed().rows);
    CrossedEdges(Crossed().rows);
  }

  lemma CrossedDeletes()
    ensures DeleteWorkflow(Crossed(), 1).1.Deleted?
  {
    hide Crossed, Delete, UsedByItems;
    CrossedAt(Crossed().rows, Workflow, 1);
    assert StatesOf(Crossed().rows, 1) == {};
    assert CanDeleteWorkflow(Crossed().rows, 1) == Some(true);
    hide CanDeleteWorkflow, StatesOf;
  }

  lemma CrossedItem()
    ensures Ref(Item, 1) in Crossed().rows && StateLiesIn(Crossed().rows, Ref(Item, 1), StateId, 2)
    ensures GoesWith(Crossed().rows, 1, Ref(Item, 1))
  {
    hide Crossed, AsCrossed;
    CrossedAt(Crossed().rows, Item, 1);
    CrossedAt(Crossed().rows, State, 1);
    CrossedAt(Crossed().rows, ItemType, 1);
  }

  /** deleteWorkflow answers with success for workflow 1, and the item in workflow 2 is gone. */
  lemma DeletedItem()
    ensures Sound(Crossed()) && CaptionsDiffer(Crossed().rows)
    ensures DeleteWorkflow(Crossed(), 1).1.Deleted?
    ensures Ref(Item, 1) in Crossed().rows && StateLiesIn(Crossed().rows, Ref(Item, 1), StateId, 2)
    ensures Ref(Item, 1) !in DeleteWorkflow(Crossed(), 1).0.rows
  {
    hide *;
    CrossedIsSound();
    CrossedDeletes();
    CrossedItem();
    WorkflowDeletion(Crossed(), 1);
  }

  /** With no item, phase or project deleted, no row of any table is touched. */
  lemma NoRowCut(rows: Rows, dead: set<Ref>, r: Ref)
    requires r in rows && forall d | d in dead :: !d.table.Phase? && !d.table.Project? && !d.table.Item?
    ensures Cut(V1, r, rows[r], dead) == rows[r]
  {
    hide Cut;
    CutKeeps(V1, r, rows[r], dead);
  }

  /** If no item goes, no surviving row changes. */
  lemma NothingElseChanges(db: Db, w: int)
    requires Sound(db) && DeleteWorkflow(db, w).1.Deleted?
    requires NoItemGone(db.rows, DeleteWorkflow(db, w).0.rows)
    ensures forall r | r in DeleteWorkflow(db, w).0.rows :: r in db.rows && DeleteWorkflow(db, w).0.rows[r] == db.rows[r]
  {
    hide Doomed, Sound, Cut, CanDeleteWorkflow;
    var dead := Doomed(V1, db.rows, {Ref(Workflow, w)});
    DoomedIsReachable(db.rows, w);
    forall r | r in DeleteWorkflow(db, w).0.rows ensures Cut(V1, r, db.rows[r], dead) == db.rows[r] {
      NoRowCut(db.rows, dead, r);
    }
  }

  // ---------------------------------------------------------------- deleting a state

  /** Rules, votes and board columns that mention the state. */
  predicate Mentions(rows: Rows, r: Ref, state: int) {
    (r.table.RuleState? || r.table.ItemUserState? || r.table.BoardColumn?) && Has(rows, r, StateId, state)
  }

  lemma NothingFollowsMentions(rows: Rows, state: int, child: Ref, parent: Ref, c: Column)
    requires child in rows && Target(V1, child, rows[child], c) == Some((parent, Cascade))
    requires Mentions(rows, parent, state) || parent == Ref(State, state)
    requires !UsedByItems(rows, state) && EdgesAt(rows, state) == {} && state > 0
    ensures Mentions(rows, child, state)
  {
    assert parent == Ref(ParentTable(child.table, c), ValueOf(rows[child], c));
    assert child.table.Edge? && parent == Ref(State, state) ==> child in EdgesAt(rows, state);
  }

  ghost function WithMentions(rows: Rows, state: int): set<Ref> {
    {Ref(State, state)} + set r | r in rows && Mentions(rows, r, state)
  }

  lemma MentionsAreClosed(rows: Rows, id: int)
    requires !UsedByItems(rows, id) && EdgesAt(rows, id) == {} && id > 0
    ensures Closed(V1, rows, WithMentions(rows, id))
  {
    hide Mentions, UsedByItems, EdgesAt, Target, V1;
    var dead := WithMentions(rows, id);
    forall r | r in Dependents(V1, rows, dead) ensures r in dead {
      var p :| p in dead && Follows(V1, rows, r, p);
      var c :| Target(V1, r, rows[r], c) == Some((p, Cascade));
      NothingFollowsMentions(rows, id, r, p, c);
    }
  }

  lemma MentionFollows(rows: Rows, id: int, r: Ref)
    requires r in rows && Mentions(rows, r, id)
    ensures r in Doomed(V1, rows, {Ref(State, id)})
  {
    hide Doomed;
    DoomedIsClosed(V1, rows, {Ref(State, id)});
    FollowsBy(rows, {Ref(State, id)}, r, StateId);
  }

  lemma StateDooms(db: Db, id: int)
    requires DeleteState(db, id).1.Deleted?
    ensures Doomed(V1, db.rows, {Ref(State, id)}) == WithMentions(db.rows, id)
  {
    hide Doomed, Closed, Mentions, UsedByItems, EdgesAt, Delete;
    var rows, root, dead := db.rows, {Ref(State, id)}, WithMentions(db.rows, id);
    MentionsAreClosed(rows, id);
    DoomedIsLeast(V1, rows, root, dead);
    DoomedIsClosed(V1, rows, root);
    forall r | r in rows && Mentions(rows, r, id) ensures r in Doomed(V1, rows, root) { MentionFollows(rows, id, r); }
  }

  /**
   A successful deleteState deletes the state and the rules, votes and board columns that mention it,
   nothing else, and changes no other row: in particular no item and no edge.
   */
  lemma StateDeletion(db: Db, id: int)
    requires DeleteState(db, id).1.Deleted?
    ensures DeleteState(db, id).0.rows == db.rows - WithMentions(db.rows, id)
  {
    hide Doomed, WithMentions;
    StateDooms(db, id);
    MentionsUncut(db.rows, id);
  }

  /** Clearing references needs a project, a phase or an item to go. */
  lemma MentionsUncut(rows: Rows, state: int)
    ensures Without(V1, rows, WithMentions(rows, state)) == rows - WithMentions(rows, state)
  {
    var dead := WithMentions(rows, state);
    forall r | r in rows && r !in dead ensures Cut(V1, r, rows[r], dead) == rows[r] {
      CutKeeps(V1, r, rows[r], dead);
    }
    WithoutUncut(V1, rows, dead);
  }
}
