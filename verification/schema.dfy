/** The foreign keys of the first migration, table by table, and what they make of single deletes. */
module SchemaV1 {
  import opened Sqlite
  import opened Store

  /** The tables that declare a column with a foreign key. ItemType.defaultStateId is declared without one. */
  predicate Declares(t: Table, c: Column) {
    match c
    case UserId =>
      t.UserTeamRole? || t.ItemHistory? || t.ItemUserState? || t.Comment? || t.UserDay? || t.UserNotification?
      || t.UserAction? || t.UserTodo? || t.ItemPlanning?
    case TeamId => t.UserTeamRole? || t.ProjectTeam? || t.TeamMessage?
    case RoleId => t.UserTeamRole? || t.Rule? || t.RoleMenuItem?
    case RuleId => t.RuleProject? || t.RuleItemType? || t.RuleState?
    case ProjectId => t.RuleProject? || t.Phase? || t.ProjectTeam? || t.Board?
    case ItemTypeId => t.RuleItemType? || t.FieldType? || t.Item?
    case StateId => t.RuleState? || t.Item? || t.ItemUserState? || t.BoardColumn?
    case ParentId => t.Project? || t.Item?
    case WorkflowId => t.State? || t.ItemType? || t.Board?
    case BeginStateId => t.Edge?
    case EndStateId => t.Edge?
    case FieldTypeId => t.FieldTypePossibleValue? || t.ItemField?
    case PhaseId => t.Item? || t.Board?
    case ItemId =>
      t.ItemField? || t.ItemHistory? || t.ItemUserState? || t.ItemDocument? || t.Comment? || t.UserNotification?
      || t.ItemPlanning?
    case SourceItemTypeId => t.LinkType?
    case DestinationItemTypeId => t.LinkType?
    case LinkTypeId => t.ItemLink?
    case SourceItemId => t.ItemLink?
    case DestinationItemId => t.ItemLink?
    case UploadedByUserId => t.Document?
    case DocumentId => t.ItemDocument? || t.CommentDocument?
    case CommentId => t.CommentDocument?
    case BoardId => t.BoardColumn?
    case SenderUserId => t.PrivateMessage? || t.TeamMessage?
    case ReceiverUserId => t.PrivateMessage?
  }

  /** Except for parentId, which refers to its own table, a column refers to the same table wherever it is. */
  function ParentTable(t: Table, c: Column): Table {
    match c
    case UserId | UploadedByUserId | SenderUserId | ReceiverUserId => User
    case TeamId => Team
    case RoleId => Role
    case RuleId => Rule
    case ProjectId => Project
    case ItemTypeId | SourceItemTypeId | DestinationItemTypeId => ItemType
    case StateId | BeginStateId | EndStateId => State
    case ParentId => t
    case WorkflowId => Workflow
    case FieldTypeId => FieldType
    case PhaseId => Phase
    case ItemId | SourceItemId | DestinationItemId => Item
    case LinkTypeId => LinkType
    case DocumentId => Document
    case CommentId => Comment
    case BoardId => Board
  }

  function V1(t: Table, c: Column): Option<ForeignKey> {
    if Declares(t, c) then Some(ForeignKey(ParentTable(t, c), if c.ParentId? || c.PhaseId? then SetNull else Cascade))
    else None
  }

  // ---------------------------------------------------------------- the keys table by table

  function Cascades(t: Table): Option<ForeignKey> {
    Some(ForeignKey(t, Cascade))
  }

  function Clears(t: Table): Option<ForeignKey> {
    Some(ForeignKey(t, SetNull))
  }

  /** Users, teams, roles and rules. */
  function PeopleKey(t: Table, c: Column): Option<ForeignKey> {
    match t
    case UserTeamRole =>
      match c { case UserId => Cascades(User) case TeamId => Cascades(Team) case RoleId => Cascades(Role)
                case _ => None }
    case Rule =>
      match c { case RoleId => Cascades(Role) case _ => None }
    case RuleProject =>
      match c { case RuleId => Cascades(Rule) case ProjectId => Cascades(Project) case _ => None }
    case RuleItemType =>
      match c { case RuleId => Cascades(Rule) case ItemTypeId => Cascades(ItemType) case _ => None }
    case RuleState =>
      match c { case RuleId => Cascades(Rule) case StateId => Cascades(State) case _ => None }
    case RoleMenuItem =>
      match c { case RoleId => Cascades(Role) case _ => None }
    case _ => None
  }

  predicate People(t: Table) {
    t.User? || t.Team? || t.Role? || t.UserTeamRole? || t.Rule? || t.RuleProject? || t.RuleItemType? ||
    t.RuleState? || t.RoleMenuItem?
  }

  lemma PeopleKeys(t: Table, c: Column)
    requires People(t)
    ensures V1(t, c) == PeopleKey(t, c)
  {
  }

  /** Projects and workflows. */
  function WorkKey(t: Table, c: Column): Option<ForeignKey> {
    match t
    case Project =>
      match c { case ParentId => Clears(Project) case _ => None }
    case Phase =>
      match c { case ProjectId => Cascades(Project) case _ => None }
    case ProjectTeam =>
      match c { case ProjectId => Cascades(Project) case TeamId => Cascades(Team) case _ => None }
    case State =>
      match c { case WorkflowId => Cascades(Workflow) case _ => None }
    case Edge =>
      match c { case BeginStateId => Cascades(State) case EndStateId => Cascades(State) case _ => None }
    case ItemType =>
      match c { case WorkflowId => Cascades(Workflow) case _ => None }
    case FieldType =>
      match c { case ItemTypeId => Cascades(ItemType) case _ => None }
    case FieldTypePossibleValue =>
      match c { case FieldTypeId => Cascades(FieldType) case _ => None }
    case _ => None
  }

  predicate Work(t: Table) {
    t.Project? || t.Phase? || t.ProjectTeam? || t.Workflow? || t.State? || t.Edge? || t.ItemType? || t.FieldType? ||
    t.FieldTypePossibleValue?
  }

  lemma WorkKeys(t: Table, c: Column)
    requires Work(t)
    ensures V1(t, c) == WorkKey(t, c)
  {
  }

  /** Items and their links. */
  function ItemsKey(t: Table, c: Column): Option<ForeignKey> {
    match t
    case Item =>
      match c { case ItemTypeId => Cascades(ItemType) case ParentId => Clears(Item) case StateId => Cascades(State)
                case PhaseId => Clears(Phase) case _ => None }
    case ItemField =>
      match c { case ItemId => Cascades(Item) case FieldTypeId => Cascades(FieldType) case _ => None }
    case ItemHistory =>
      match c { case ItemId => Cascades(Item) case UserId => Cascades(User) case _ => None }
    case ItemUserState =>
      match c { case ItemId => Cascades(Item) case UserId => Cascades(User) case StateId => Cascades(State)
                case _ => None }
    case LinkType =>
      match c { case SourceItemTypeId => Cascades(ItemType) case DestinationItemTypeId => Cascades(ItemType)
                case _ => None }
    case ItemLink =>
      match c { case LinkTypeId => Cascades(LinkType) case SourceItemId => Cascades(Item)
                case DestinationItemId => Cascades(Item) case _ => None }
    case _ => None
  }

  predicate Items(t: Table) {
    t.Item? || t.ItemField? || t.ItemHistory? || t.ItemUserState? || t.LinkType? || t.ItemLink?
  }

  lemma ItemsKeys(t: Table, c: Column)
    requires Items(t)
    ensures V1(t, c) == ItemsKey(t, c)
  {
  }

  /** Documents, comments and boards. */
  function PapersKey(t: Table, c: Column): Option<ForeignKey> {
    match t
    case Document =>
      match c { case UploadedByUserId => Cascades(User) case _ => None }
    case ItemDocument =>
      match c { case ItemId => Cascades(Item) case DocumentId => Cascades(Document) case _ => None }
    case Comment =>
      match c { case UserId => Cascades(User) case ItemId => Cascades(Item) case _ => None }
    case CommentDocument =>
      match c { case CommentId => Cascades(Comment) case DocumentId => Cascades(Document) case _ => None }
    case Board =>
      match c { case WorkflowId => Cascades(Workflow) case ProjectId => Cascades(Project) case PhaseId => Clears(Phase)
                case _ => None }
    case BoardColumn =>
      match c { case BoardId => Cascades(Board) case StateId => Cascades(State) case _ => None }
    case _ => None
  }

  predicate Papers(t: Table) {
    t.Document? || t.ItemDocument? || t.Comment? || t.CommentDocument? || t.Board? || t.BoardColumn?
  }

  lemma PapersKeys(t: Table, c: Column)
    requires Papers(t)
    ensures V1(t, c) == PapersKey(t, c)
  {
  }

  /** Calendars, messages and plans. */
  function DaysKey(t: Table, c: Column): Option<ForeignKey> {
    match t
    case UserDay =>
      match c { case UserId => Cascades(User) case _ => None }
    case PrivateMessage =>
      match c { case SenderUserId => Cascades(User) case ReceiverUserId => Cascades(User) case _ => None }
    case TeamMessage =>
      match c { case SenderUserId => Cascades(User) case TeamId => Cascades(Team) case _ => None }
    case UserNotification =>
      match c { case UserId => Cascades(User) case ItemId => Cascades(Item) case _ => None }
    case UserAction =>
      match c { case UserId => Cascades(User) case _ => None }
    case UserTodo =>
      match c { case UserId => Cascades(User) case _ => None }
    case ItemPlanning =>
      match c { case ItemId => Cascades(Item) case UserId => Cascades(User) case _ => None }
    case _ => None
  }

  predicate Days(t: Table) {
    t.StandardDay? || t.SpecialDay? || t.UserDay? || t.PrivateMessage? || t.TeamMessage? || t.UserNotification? ||
    t.UserAction? || t.UserTodo? || t.ItemPlanning?
  }

  lemma DaysKeys(t: Table, c: Column)
    requires Days(t)
    ensures V1(t, c) == DaysKey(t, c)
  {
  }

  /** A column has a foreign key in a table exactly when the migration declares it there, with that parent and action. */
  lemma DeclaredKeys(t: Table, c: Column)
    ensures People(t) || Work(t) || Items(t) || Papers(t) || Days(t)
    ensures People(t) ==> V1(t, c) == PeopleKey(t, c)
    ensures Work(t) ==> V1(t, c) == WorkKey(t, c)
    ensures Items(t) ==> V1(t, c) == ItemsKey(t, c)
    ensures Papers(t) ==> V1(t, c) == PapersKey(t, c)
    ensures Days(t) ==> V1(t, c) == DaysKey(t, c)
  {
    hide *;
    AllInGroups(t);
    if People(t) { PeopleKeys(t, c); }
    if Work(t) { WorkKeys(t, c); }
    if Items(t) { ItemsKeys(t, c); }
    if Papers(t) { PapersKeys(t, c); }
    if Days(t) { DaysKeys(t, c); }
  }

  lemma AllInGroups(t: Table)
    ensures People(t) || Work(t) || Items(t) || Papers(t) || Days(t)
  {
  }

  /** The row's value in a column, whether or not the column has a foreign key. */
  predicate Has(rows: Rows, r: Ref, c: Column, id: int) {
    r in rows && c in rows[r].refs && rows[r].refs[c] == id
  }

  // ---------------------------------------------------------------- guarded removals

  /** SELECT COUNT over one table. */
  function Using(rows: Rows, t: Table, c: Column, id: int): set<Ref> {
    set r | r in rows && r.table == t && Has(rows, r, c, id)
  }

  function ItemTypeUsage(rows: Rows, id: int): nat {
    if id <= 0 then 0
    else |Using(rows, Item, ItemTypeId, id)| + |Using(rows, FieldType, ItemTypeId, id)|
         + |Using(rows, LinkType, SourceItemTypeId, id) + Using(rows, LinkType, DestinationItemTypeId, id)|
         + |Using(rows, RuleItemType, ItemTypeId, id)|
  }

  function FieldTypeUsage(rows: Rows, id: int): nat {
    if id <= 0 then 0
    else |Using(rows, ItemField, FieldTypeId, id)| + |Using(rows, FieldTypePossibleValue, FieldTypeId, id)|
  }

  /** The store and the answer after a removal that a usage count guards. */
  ghost function GuardedRemove(rows: Rows, r: Ref, usage: nat): (Rows, bool) {
    if r.id <= 0 || usage > 0 || r !in rows then (rows, false) else (Delete(V1, rows, {r}), true)
  }

  ghost predicate Referenced(rows: Rows, p: Ref) {
    exists r, c :: r in rows && Target(V1, r, rows[r], c).Some? && Target(V1, r, rows[r], c).value.0 == p
  }

  /** The foreign keys that point at item types. */
  lemma ItemTypeParents(t: Table, c: Column)
    requires V1(t, c).Some? && V1(t, c).value.parent == ItemType
    ensures (t == Item && c == ItemTypeId) || (t == FieldType && c == ItemTypeId) || (t == LinkType && c == SourceItemTypeId)
            || (t == LinkType && c == DestinationItemTypeId) || (t == RuleItemType && c == ItemTypeId)
  {
  }

  /** The foreign keys that point at field types. */
  lemma FieldTypeParents(t: Table, c: Column)
    requires V1(t, c).Some? && V1(t, c).value.parent == FieldType
    ensures (t == ItemField && c == FieldTypeId) || (t == FieldTypePossibleValue && c == FieldTypeId)
  {
  }

  lemma UsingRefers(rows: Rows, t: Table, c: Column, id: int)
    requires V1(t, c).Some? && Using(rows, t, c, id) != {}
    ensures Referenced(rows, Ref(V1(t, c).value.parent, id))
  {
    var r :| r in Using(rows, t, c, id);
    assert Target(V1, r, rows[r], c).value.0 == Ref(V1(t, c).value.parent, id);
  }

  lemma ReferrerUses(rows: Rows, p: Ref) returns (t: Table, c: Column)
    requires Referenced(rows, p)
    ensures V1(t, c).Some? && V1(t, c).value.parent == p.table && Using(rows, t, c, p.id) != {}
  {
    var r, k :| r in rows && Target(V1, r, rows[r], k).Some? && Target(V1, r, rows[r], k).value.0 == p;
    t, c := r.table, k;
    assert r in Using(rows, t, c, p.id);
  }

  ghost predicate NoUse(rows: Rows, t: Table, c: Column, id: int) {
    Using(rows, t, c, id) == {}
  }

  lemma NoUseUnlessReferenced(rows: Rows, t: Table, c: Column, id: int)
    requires V1(t, c).Some? && !Referenced(rows, Ref(V1(t, c).value.parent, id))
    ensures NoUse(rows, t, c, id)
  {
    if !NoUse(rows, t, c, id) { UsingRefers(rows, t, c, id); }
  }

  /** The two columns of a link type are counted together. */
  lemma ItemTypeUsageIsZero(rows: Rows, id: int)
    requires id > 0
    ensures ItemTypeUsage(rows, id) == 0
            <==> NoUse(rows, Item, ItemTypeId, id) && NoUse(rows, FieldType, ItemTypeId, id)
                 && NoUse(rows, LinkType, SourceItemTypeId, id) && NoUse(rows, LinkType, DestinationItemTypeId, id)
                 && NoUse(rows, RuleItemType, ItemTypeId, id)
  {
    hide Using;
    var links := Using(rows, LinkType, SourceItemTypeId, id) + Using(rows, LinkType, DestinationItemTypeId, id);
    assert links == {} <==> NoUse(rows, LinkType, SourceItemTypeId, id) && NoUse(rows, LinkType, DestinationItemTypeId, id);
  }

  lemma UsageCoversItemType(rows: Rows, id: int)
    requires id > 0
    ensures ItemTypeUsage(rows, id) == 0 <==> !Referenced(rows, Ref(ItemType, id))
  {
    hide Using, Referenced, ItemTypeUsage;
    ItemTypeUsageIsZero(rows, id);
    if Referenced(rows, Ref(ItemType, id)) {
      var t, c := ReferrerUses(rows, Ref(ItemType, id));
      ItemTypeParents(t, c);
    } else {
      NoUseUnlessReferenced(rows, Item, ItemTypeId, id);
      NoUseUnlessReferenced(rows, FieldType, ItemTypeId, id);
      NoUseUnlessReferenced(rows, RuleItemType, ItemTypeId, id);
      NoUseUnlessReferenced(rows, LinkType, SourceItemTypeId, id);
      NoUseUnlessReferenced(rows, LinkType, DestinationItemTypeId, id);
    }
  }

  lemma UsageCoversFieldType(rows: Rows, id: int)
    requires id > 0
    ensures FieldTypeUsage(rows, id) == 0 <==> !Referenced(rows, Ref(FieldType, id))
  {
    hide Using, Referenced;
    if Referenced(rows, Ref(FieldType, id)) {
      var t, c := ReferrerUses(rows, Ref(FieldType, id));
      FieldTypeParents(t, c);
    } else {
      NoUseUnlessReferenced(rows, ItemField, FieldTypeId, id);
      NoUseUnlessReferenced(rows, FieldTypePossibleValue, FieldTypeId, id);
    }
  }

  lemma UnreferencedGoesAlone(rows: Rows, r: Ref)
    requires !Referenced(rows, r)
    ensures Delete(V1, rows, {r}) == rows - {r}
  {
    hide Delete, Doomed;
    DeleteUnreferenced(V1, rows, {r});
  }

  /** A usage count that covers the references guards a removal exactly. */
  lemma GuardIsExact(rows: Rows, r: Ref, usage: nat)
    requires r.id > 0 ==> (usage == 0 <==> !Referenced(rows, r))
    ensures var (after, ok) := GuardedRemove(rows, r, usage);
            && (ok <==> r.id > 0 && r in rows && !Referenced(rows, r))
            && after == (if ok then rows - {r} else rows)
  {
    hide Delete, Referenced;
    if r.id > 0 && usage == 0 { UnreferencedGoesAlone(rows, r); }
  }

  /**
   Removing an item type succeeds exactly when it exists and nothing in any table refers to it; then
   that one row goes and no other row of the database changes.
   */
  lemma ItemTypeRemovalIsExact(rows: Rows, id: int)
    ensures var r := Ref(ItemType, id);
            var (after, ok) := GuardedRemove(rows, r, ItemTypeUsage(rows, id));
            && (ok <==> id > 0 && r in rows && !Referenced(rows, r))
            && after == (if ok then rows - {r} else rows)
  {
    hide ItemTypeUsage, GuardedRemove, Referenced;
    if id > 0 { UsageCoversItemType(rows, id); }
    GuardIsExact(rows, Ref(ItemType, id), ItemTypeUsage(rows, id));
  }

  /** The same for field types. */
  lemma FieldTypeRemovalIsExact(rows: Rows, id: int)
    ensures var r := Ref(FieldType, id);
            var (after, ok) := GuardedRemove(rows, r, FieldTypeUsage(rows, id));
            && (ok <==> id > 0 && r in rows && !Referenced(rows, r))
            && after == (if ok then rows - {r} else rows)
  {
    hide FieldTypeUsage, GuardedRemove, Referenced;
    if id > 0 { UsageCoversFieldType(rows, id); }
    GuardIsExact(rows, Ref(FieldType, id), FieldTypeUsage(rows, id));
  }

  method RemoveItemType(db: Database, id: int) returns (ok: bool)
    requires db.schema == V1
    modifies db`rows
    ensures (db.rows, ok) == GuardedRemove(old(db.rows), Ref(ItemType, id), ItemTypeUsage(old(db.rows), id))
  {
    if id <= 0 { return false; }
    if ItemTypeUsage(db.rows, id) > 0 { return false; }
    var affected := db.DeleteRow(Ref(ItemType, id));
    ok := affected > 0;
  }

  method RemoveFieldType(db: Database, id: int) returns (ok: bool)
    requires db.schema == V1
    modifies db`rows
    ensures (db.rows, ok) == GuardedRemove(old(db.rows), Ref(FieldType, id), FieldTypeUsage(old(db.rows), id))
  {
    if id <= 0 { return false; }
    if FieldTypeUsage(db.rows, id) > 0 { return false; }
    var affected := db.DeleteRow(Ref(FieldType, id));
    ok := affected > 0;
  }
}
