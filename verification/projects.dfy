/** The project repository: search columns and time stamps over every run, and what a search finds. */
module Projects {
  import opened Sqlite
  import opened Texts
  import opened Times
  import opened Listing

  datatype Project = Project(parentId: Option<int>, caption: string, description: Option<string>, searchCaption: Option<string>,
                             searchDescription: Option<string>, createdAt: int64, updatedAt: int64, isArchive: int)

  datatype ProjectDto = ProjectDto(id: Option<int>, parentId: Option<int>, caption: Option<string>, description: Option<string>,
                                   isArchive: Option<bool>)

  /** `next` is the AUTOINCREMENT counter. */
  datatype Table = Table(rows: map<int, Project>, next: int)

  /** Zero is returned for a missing caption; a violated foreign key is an exception. */
  datatype Creation = NewId(id: int) | NoCaption | Thrown

  function Flag(b: bool): int {
    if b then 1 else 0
  }

  // ---------------------------------------------------------------- create, update, archive, restore

  function NewProject(lower: Lower, dto: ProjectDto, caption: string, now: int64): Project {
    Project(dto.parentId, UpToNul(caption), Map(dto.description, UpToNul), Some(lower(caption)), Map(dto.description, lower),
            ToSeconds(now), ToSeconds(now), Flag(dto.isArchive == Some(true)))
  }

  /** The foreign key is checked when the statement is through, so that a row may refer to itself. */
  function Create(lower: Lower, t: Table, dto: ProjectDto, now: int64): (Table, Creation) {
    if dto.caption.None? || dto.caption.value == "" then (t, NoCaption)
    else if dto.parentId.Some? && dto.parentId.value !in t.rows && dto.parentId.value != t.next then (t, Thrown)
    else (Table(t.rows[t.next := NewProject(lower, dto, dto.caption.value, now)], t.next + 1), NewId(t.next))
  }

  /** The clauses of the UPDATE: what is given, and always the time. */
  function Overlaid(lower: Lower, p: Project, dto: ProjectDto, now: int64): Project {
    var p1 := if dto.parentId.Some? then p.(parentId := dto.parentId) else p;
    var p2 := if dto.caption.None? then p1
              else p1.(caption := UpToNul(dto.caption.value), searchCaption := Some(lower(dto.caption.value)));
    var p3 := if dto.description.None? then p2
              else p2.(description := Map(dto.description, UpToNul), searchDescription := Map(dto.description, lower));
    var p4 := if dto.isArchive.None? then p3 else p3.(isArchive := Flag(dto.isArchive.value));
    p4.(updatedAt := ToSeconds(now))
  }

  /** Exceptions make it false, and so does an UPDATE that affects no row. */
  function Update(lower: Lower, t: Table, dto: ProjectDto, now: int64): (Table, bool) {
    if dto.id.None? || dto.id.value !in t.rows then (t, false)
    else if dto.parentId.Some? && dto.parentId.value !in t.rows then (t, false)
    else (t.(rows := t.rows[dto.id.value := Overlaid(lower, t.rows[dto.id.value], dto, now)]), true)
  }

  function SetArchive(t: Table, id: int, archive: bool, now: int64): (Table, bool) {
    if id <= 0 || id !in t.rows then (t, false)
    else (t.(rows := t.rows[id := t.rows[id].(isArchive := Flag(archive), updatedAt := ToSeconds(now))]), true)
  }

  datatype Request = DoCreate(create: ProjectDto) | DoUpdate(update: ProjectDto) | DoArchive(id: int) | DoRestore(id: int)

  function Serve(lower: Lower, t: Table, r: Request, now: int64): Table {
    match r
    case DoCreate(dto) => Create(lower, t, dto, now).0
    case DoUpdate(dto) => Update(lower, t, dto, now).0
    case DoArchive(id) => SetArchive(t, id, true, now).0
    case DoRestore(id) => SetArchive(t, id, false, now).0
  }

  function ServeAll(lower: Lower, t: Table, rs: seq<(Request, int64)>): Table
    decreases |rs|
  {
    if rs == [] then t else ServeAll(lower, Serve(lower, t, rs[0].0, rs[0].1), rs[1..])
  }

  // ---------------------------------------------------------------- the columns stay in step

  /** The search columns are the lower-cased texts, and the time of the update is not before that of the creation. */
  predicate InStep(lower: Lower, p: Project) {
    && p.searchCaption == Some(lower(p.caption))
    && p.searchDescription == Map(p.description, lower)
    && p.createdAt <= p.updatedAt
  }

  predicate TidyRow(lower: Lower, p: Project, clock: int64) {
    InStep(lower, p) && p.updatedAt <= ToSeconds(clock) && p.isArchive in {0, 1}
  }

  ghost predicate Tidy(lower: Lower, t: Table, clock: int64) {
    && 0 < t.next
    && (forall id | id in t.rows :: 0 < id < t.next)
    && (forall id | id in t.rows :: TidyRow(lower, t.rows[id], clock))
  }

  /** Nothing is removed and no creation time changes. */
  predicate Grows(before: Table, after: Table) {
    forall id | id in before.rows :: id in after.rows && after.rows[id].createdAt == before.rows[id].createdAt
  }

  ghost predicate ClockRuns(clock: int64, rs: seq<(Request, int64)>) {
    (forall i | 0 <= i < |rs| :: clock <= rs[i].1) && (forall i, j | 0 <= i < j < |rs| :: rs[i].1 <= rs[j].1)
  }

  lemma NewIsInStep(lower: Lower, dto: ProjectDto, caption: string, now: int64)
    requires Lowering(lower)
    ensures InStep(lower, NewProject(lower, dto, caption, now))
  {
    assert LowersWell(lower, caption);
    assert dto.description.Some? ==> LowersWell(lower, dto.description.value);
  }

  lemma OverlaidIsInStep(lower: Lower, p: Project, dto: ProjectDto, now: int64)
    requires Lowering(lower) && InStep(lower, p) && p.updatedAt <= ToSeconds(now)
    ensures InStep(lower, Overlaid(lower, p, dto, now)) && Overlaid(lower, p, dto, now).createdAt == p.createdAt
  {
    assert dto.caption.Some? ==> LowersWell(lower, dto.caption.value);
    assert dto.description.Some? ==> LowersWell(lower, dto.description.value);
  }

  lemma ServeKeepsTidy(lower: Lower, t: Table, r: Request, clock: int64, now: int64)
    requires Lowering(lower) && Tidy(lower, t, clock) && clock <= now
    ensures Tidy(lower, Serve(lower, t, r, now), now) && Grows(t, Serve(lower, t, r, now))
  {
    hide Lowering, LowersWell, UpToNul;
    SecondsKeepOrder(clock, now);
    match r
    case DoCreate(dto) => if dto.caption.Some? { NewIsInStep(lower, dto, dto.caption.value, now); }
    case DoUpdate(dto) =>
      assert forall id | id in t.rows :: TidyRow(lower, t.rows[id], clock);
      if dto.id.Some? && dto.id.value in t.rows { OverlaidIsInStep(lower, t.rows[dto.id.value], dto, now); }
    case _ =>
  }

  /** Whatever is created, updated, archived and restored, with a clock that does not go back. */
  lemma {:induction false} RunsKeepColumnsInStep(lower: Lower, t: Table, rs: seq<(Request, int64)>, clock: int64)
    requires Lowering(lower) && Tidy(lower, t, clock) && ClockRuns(clock, rs)
    ensures Tidy(lower, ServeAll(lower, t, rs), if rs == [] then clock else rs[|rs| - 1].1)
    ensures Grows(t, ServeAll(lower, t, rs))
    decreases |rs|
  {
    hide Lowering, Tidy, Serve;
    if rs != [] {
      var t1 := Serve(lower, t, rs[0].0, rs[0].1);
      ServeKeepsTidy(lower, t, rs[0].0, clock, rs[0].1);
      RunsKeepColumnsInStep(lower, t1, rs[1..], rs[0].1);
    }
  }

  // ---------------------------------------------------------------- reading back

  /** What a row has to show; the engine has cut the texts at the first NUL. */
  datatype Shown = Shown(parentId: Option<int>, caption: string, description: Option<string>, isArchive: bool)

  function Columns(p: Project): Shown {
    Shown(p.parentId, p.caption, p.description, p.isArchive != 0)
  }

  /** Text that looks like a date is not a string for the result set, and asking for it throws. */
  predicate Readable(s: Shown) {
    !LooksLikeDate(s.caption) && (s.description.Some? ==> !LooksLikeDate(s.description.value))
  }

  /** None is an exception. */
  function Show(p: Project): Option<Shown> {
    if Readable(Columns(p)) then Some(Columns(p)) else None
  }

  function Over(was: Shown, dto: ProjectDto): Shown {
    Shown(if dto.parentId.Some? then dto.parentId else was.parentId,
          if dto.caption.Some? then UpToNul(dto.caption.value) else was.caption,
          if dto.description.Some? then Map(dto.description, UpToNul) else was.description,
          if dto.isArchive.Some? then dto.isArchive.value else was.isArchive)
  }

  /** Everything but one row is as it was. */
  ghost predicate OnlyRow(before: Table, after: Table, id: int) {
    after.rows.Keys == before.rows.Keys + {id} && forall k | k in before.rows && k != id :: after.rows[k] == before.rows[k]
  }

  /** The row has these columns now, and shows them unless a text looks like a date; no other row has changed. */
  ghost predicate NowShows(before: Table, after: Table, id: int, s: Shown) {
    && OnlyRow(before, after, id) && Columns(after.rows[id]) == s
    && Show(after.rows[id]) == if LooksLikeDate(s.caption) || (s.description.Some? && LooksLikeDate(s.description.value)) then None else Some(s)
  }

  /** A new project has the columns it was given, an updated one what it had, overlaid with what was given. */
  lemma ProjectReadsBack(lower: Lower, t: Table, dto: ProjectDto, now: int64)
    requires t.next !in t.rows
    ensures var (after, result) := Create(lower, t, dto, now);
            && (result.NoCaption? <==> dto.caption == None || dto.caption == Some(""))
            && (result.Thrown? <==> !result.NoCaption? && dto.parentId.Some? && dto.parentId.value !in t.rows.Keys + {t.next})
            && (result.NewId? ==> result.id !in t.rows && NowShows(t, after, result.id, Over(Shown(None, "", None, false), dto))
                                  && after.rows[result.id].createdAt == after.rows[result.id].updatedAt == ToSeconds(now))
            && (!result.NewId? ==> after == t)
    ensures var (after, ok) := Update(lower, t, dto, now);
            && (ok <==> dto.id.Some? && dto.id.value in t.rows && (dto.parentId.Some? ==> dto.parentId.value in t.rows))
            && (ok ==> NowShows(t, after, dto.id.value, Over(Columns(t.rows[dto.id.value]), dto))
                       && after.rows[dto.id.value].createdAt == t.rows[dto.id.value].createdAt
                       && after.rows[dto.id.value].updatedAt == ToSeconds(now))
            && (!ok ==> after == t)
  {
    hide UpToNul, LooksLikeDate;
  }

  /** Archiving and restoring an active project leaves the time of its update as the only difference. */
  lemma ArchiveThenRestore(t: Table, id: int, then_: int64, now: int64)
    requires 0 < id && id in t.rows && t.rows[id].isArchive == 0
    ensures var archived := SetArchive(t, id, true, then_).0;
            archived.rows[id].isArchive == 1
            && SetArchive(archived, id, false, now).0 == t.(rows := t.rows[id := t.rows[id].(updatedAt := ToSeconds(now))])
  {
    var archived := SetArchive(t, id, true, then_).0;
    var restored := SetArchive(archived, id, false, now).0;
    assert restored.rows == t.rows[id := t.rows[id].(updatedAt := ToSeconds(now))];
  }

  // ---------------------------------------------------------------- finding

  datatype Filter = Filter(parentId: Option<int>, isArchive: Option<bool>, search: string)

  /** Parent 0 asks for projects without a parent. */
  predicate PassesOthers(p: Project, f: Filter) {
    && (f.parentId.Some? ==> p.parentId == if f.parentId.value == 0 then None else f.parentId)
    && (f.isArchive.Some? ==> p.isArchive == Flag(f.isArchive.value))
  }

  /** The WHERE clause. */
  predicate Passes(lower: Lower, p: Project, f: Filter) {
    && PassesOthers(p, f)
    && (f.search != "" ==> p.searchCaption.Some? && Found(p.searchCaption.value, lower(f.search)))
  }

  function Selected(lower: Lower, t: Table, f: Filter): set<int> {
    set id | id in t.rows && Passes(lower, t.rows[id], f)
  }

  /** What a filter asks of the columns: no parent for parent 0, the flag as the database has it. */
  predicate Asked(p: Project, f: Filter) {
    && (f.parentId == Some(0) ==> p.parentId == None)
    && (f.parentId.Some? && f.parentId != Some(0) ==> p.parentId == f.parentId)
    && (f.isArchive == Some(true) ==> p.isArchive == 1)
    && (f.isArchive == Some(false) ==> p.isArchive == 0)
  }

  lemma SelectedAsked(lower: Lower, t: Table, f: Filter)
    ensures forall id | id in Selected(lower, t, f) :: id in t.rows && Asked(t.rows[id], f)
    ensures f.search == "" ==> Selected(lower, t, f) == (set id | id in t.rows && Asked(t.rows[id], f))
  {
    forall id | id in t.rows && f.search == "" ensures Passes(lower, t.rows[id], f) <==> Asked(t.rows[id], f) {
    }
  }

  /** After any run, without a search, what is asked for is found and nothing else. */
  lemma FilterSelects(lower: Lower, rs: seq<(Request, int64)>, clock: int64, f: Filter)
    requires Lowering(lower) && ClockRuns(clock, rs) && f.search == ""
    ensures var t := ServeAll(lower, Table(map[], 1), rs);
            && Selected(lower, t, f) == (set id | id in t.rows && Asked(t.rows[id], f))
            && forall id | id in t.rows :: t.rows[id].isArchive in {0, 1}
  {
    hide Lowering, ServeAll, ClockRuns, Passes;
    var t := ServeAll(lower, Table(map[], 1), rs);
    SelectedAsked(lower, t, f);
    RunsKeepColumnsInStep(lower, Table(map[], 1), rs, clock);
    var last := if rs == [] then clock else rs[|rs| - 1].1;
    forall id | id in t.rows ensures t.rows[id].isArchive in {0, 1} { assert TidyRow(lower, t.rows[id], last); }
  }

  lemma PassesExactly(lower: Lower, p: Project, f: Filter)
    requires Lowering(lower) && InStep(lower, p) && (f.search == "" || !HasWildcard(lower(f.search)))
    ensures Passes(lower, p, f) <==> Asked(p, f) && (f.search == "" || Contains(lower(p.caption), lower(f.search)))
  {
    hide Found, Contains;
    if f.search != "" {
      assert LowersWell(lower, p.caption) && LowersWell(lower, f.search);
      FoundIsContains(lower(p.caption), lower(f.search));
    }
  }

  /**
   After any run, a search for a text without % and _ selects exactly the projects that are as the filter
   asks and whose caption contains the text, both in lower case.
   */
  lemma SearchFindsExactly(lower: Lower, rs: seq<(Request, int64)>, clock: int64, f: Filter)
    requires Lowering(lower) && ClockRuns(clock, rs) && f.search != "" && !HasWildcard(lower(f.search))
    ensures var t := ServeAll(lower, Table(map[], 1), rs);
            forall id :: id in Selected(lower, t, f)
              <==> id in t.rows && Asked(t.rows[id], f) && Contains(lower(t.rows[id].caption), lower(f.search))
  {
    hide Lowering, ServeAll, Passes, Asked, Contains, HasWildcard, ClockRuns;
    var t := ServeAll(lower, Table(map[], 1), rs);
    RunsKeepColumnsInStep(lower, Table(map[], 1), rs, clock);
    var last := if rs == [] then clock else rs[|rs| - 1].1;
    forall id | id in t.rows
      ensures Passes(lower, t.rows[id], f) <==> Asked(t.rows[id], f) && Contains(lower(t.rows[id].caption), lower(f.search))
    {
      assert TidyRow(lower, t.rows[id], last);
      PassesExactly(lower, t.rows[id], f);
    }
  }

  // ---------------------------------------------------------------- what the operations do to the finding

  /** A new project is found under its parent, its flag and each part of its caption, and under nothing else. */
  lemma NewIsFound(lower: Lower, t: Table, dto: ProjectDto, now: int64, f: Filter)
    requires Lowering(lower) && Create(lower, t, dto, now).1.NewId? && (f.search == "" || !HasWildcard(lower(f.search)))
    ensures var (after, result) := Create(lower, t, dto, now);
            result.id in Selected(lower, after, f)
            <==> && (match f.parentId
                     case None => true
                     case Some(k) => dto.parentId == if k == 0 then None else Some(k))
                 && (match f.isArchive
                     case None => true
                     case Some(flag) => flag <==> dto.isArchive == Some(true))
                 && (f.search == "" || Contains(lower(UpToNul(dto.caption.value)), lower(f.search)))
  {
    var p := NewProject(lower, dto, dto.caption.value, now);
    NewIsInStep(lower, dto, dto.caption.value, now);
    PassesExactly(lower, p, f);
    hide Passes, Lowering, Contains, UpToNul, HasWildcard, InStep;
  }

  /** What an operation on one row does to the finding of it, with the flag asked for left open or not. */
  ghost predicate FlagIs(lower: Lower, before: Table, after: Table, id: int, archived: bool, f: Filter) {
    && (id in Selected(lower, after, f.(isArchive := Some(archived))) <==> id in Selected(lower, before, f.(isArchive := None)))
    && id !in Selected(lower, after, f.(isArchive := Some(!archived)))
    && Selected(lower, after, f) - {id} == Selected(lower, before, f) - {id}
  }

  /**
   After archiving, a project that is there is found among the archived ones and no longer among the
   others; after restoring it is the other way round. All others are found as before.
   */
  lemma ArchivedIsFound(lower: Lower, t: Table, id: int, now: int64, f: Filter)
    ensures var archived, restored := Serve(lower, t, DoArchive(id), now), Serve(lower, t, DoRestore(id), now);
            if 0 < id && id in t.rows
            then FlagIs(lower, t, archived, id, true, f) && FlagIs(lower, t, restored, id, false, f)
            else archived == t && restored == t
  {
    hide UpToNul, Found;
    var archived, restored := Serve(lower, t, DoArchive(id), now), Serve(lower, t, DoRestore(id), now);
    if 0 < id && id in t.rows {
      forall k | k != id
        ensures k in Selected(lower, archived, f) <==> k in Selected(lower, t, f)
        ensures k in Selected(lower, restored, f) <==> k in Selected(lower, t, f)
      {
      }
    }
  }

  /** archive and restore answer true exactly for a row that is there, and set the flag and the time of it alone. */
  lemma SetArchiveAnswers(t: Table, id: int, archive: bool, now: int64)
    ensures var (after, ok) := SetArchive(t, id, archive, now);
            && (ok <==> 0 < id && id in t.rows) && (!ok ==> after == t)
            && (ok ==> OnlyRow(t, after, id) && after.next == t.next
                       && after.rows[id].isArchive == (if archive then 1 else 0) && after.rows[id].updatedAt == ToSeconds(now)
                       && after.rows[id].(isArchive := 0, updatedAt := 0) == t.rows[id].(isArchive := 0, updatedAt := 0))
  {
  }

  predicate Before(a: int, b: int) {
    a < b
  }

  lemma BeforeIsTotal(q: set<int>)
    ensures WeakOrder(Before) && NoTies(q, Before)
  {
  }

  // ---------------------------------------------------------------- the repository

  class ProjectRepository {
    const lower: Lower
    var table: Table

    ghost predicate Valid(clock: int64)
      reads this
    {
      Tidy(lower, table, clock)
    }

    constructor (lower: Lower)
      ensures this.lower == lower && table == Table(map[], 1)
    {
      this.lower := lower;
      table := Table(map[], 1);
    }

    method Insert(dto: ProjectDto, now: int64) returns (result: Creation)
      modifies this
      ensures (table, result) == Create(lower, old(table), dto, now)
    {
      if dto.caption.None? || dto.caption.value == "" { return NoCaption; }
      if dto.parentId.Some? && dto.parentId.value !in table.rows && dto.parentId.value != table.next { return Thrown; }
      var id := table.next;
      table := Table(table.rows[id := NewProject(lower, dto, dto.caption.value, now)], id + 1);
      result := NewId(id);
    }

    method Change(dto: ProjectDto, now: int64) returns (ok: bool)
      modifies this
      ensures (table, ok) == Update(lower, old(table), dto, now)
    {
      if dto.id.None? { return false; }
      var id := dto.id.value;
      if id !in table.rows || (dto.parentId.Some? && dto.parentId.value !in table.rows) { return false; }
      var p := table.rows[id];
      if dto.parentId.Some? { p := p.(parentId := dto.parentId); }
      if dto.caption.Some? {
        p := p.(caption := UpToNul(dto.caption.value));
        p := p.(searchCaption := Some(lower(dto.caption.value)));
      }
      if dto.description.Some? {
        p := p.(description := Some(UpToNul(dto.description.value)));
        p := p.(searchDescription := Some(lower(dto.description.value)));
      }
      if dto.isArchive.Some? { p := p.(isArchive := Flag(dto.isArchive.value)); }
      p := p.(updatedAt := ToSeconds(now));
      table := table.(rows := table.rows[id := p]);
      ok := true;
    }

    method Archive(id: int, now: int64) returns (ok: bool)
      modifies this
      ensures (table, ok) == SetArchive(old(table), id, true, now)
    {
      if id <= 0 || id !in table.rows { return false; }
      var p := table.rows[id].(isArchive := 1, updatedAt := ToSeconds(now));
      table := table.(rows := table.rows[id := p]);
      ok := true;
    }

    method Restore(id: int, now: int64) returns (ok: bool)
      modifies this
      ensures (table, ok) == SetArchive(old(table), id, false, now)
    {
      if id <= 0 || id !in table.rows { return false; }
      var p := table.rows[id].(isArchive := 0, updatedAt := ToSeconds(now));
      table := table.(rows := table.rows[id := p]);
      ok := true;
    }

    /** The rows in the order of their ids. */
    method Select(f: Filter, ghost clock: int64) returns (ids: seq<int>)
      requires Valid(clock)
      ensures Answers(ids, Selected(lower, table, f), Before)
    {
      ids := [];
      for id := 1 to table.next
        invariant forall x | x in ids :: 0 < x < id
        invariant forall x | x in Selected(lower, table, f) && x < id :: x in ids
        invariant forall x | x in ids :: x in Selected(lower, table, f)
        invariant forall i, j | 0 <= i < j < |ids| :: ids[i] < ids[j]
      {
        if id in table.rows && Passes(lower, table.rows[id], f) {
          assert forall i | 0 <= i < |ids| :: ids[i] in ids;
          ids := ids + [id];
        }
      }
    }

    /** The rows of a page one after the other; None is the exception at the first that cannot be read. */
    method ReadRows(ids: seq<int>) returns (shown: Option<seq<(int, Shown)>>)
      requires forall k | 0 <= k < |ids| :: ids[k] in table.rows
      ensures Reads(table, ids, shown)
    {
      var got: seq<(int, Shown)> := [];
      for i := 0 to |ids|
        invariant |got| == i && forall k | 0 <= k < i :: ids[k] in table.rows && Show(table.rows[ids[k]]) == Some(got[k].1) && got[k].0 == ids[k]
      {
        var row := Show(table.rows[ids[i]]);
        if row.None? { return None; }
        got := got + [(ids[i], row.value)];
      }
      shown := Some(got);
    }

    /** The page, and the number of all rows that pass; None is an exception. */
    method FindAll(page: int, size: int, f: Filter, ghost clock: int64) returns (shown: Option<seq<(int, Shown)>>, total: nat)
      requires Valid(clock) && Fits32((page - 1) * size)
      ensures total == |Selected(lower, table, f)|
      ensures f.search == "" ==> total == |set id | id in table.rows && Asked(table.rows[id], f)|
      ensures shown.Some? ==> forall k | 0 <= k < |shown.value| ::
                                shown.value[k].0 in table.rows && Asked(table.rows[shown.value[k].0], f)
      ensures shown.Some? ==> forall j, k | 0 <= j < k < |shown.value| :: shown.value[j].0 < shown.value[k].0
      ensures forall ordered | Answers(ordered, Selected(lower, table, f), Before) ::
                Reads(table, Limited(ordered, size, (page - 1) * size), shown)
    {
      var ids := Select(f, clock);
      OnlyAnswer(ids, Selected(lower, table, f));
      SelectedAsked(lower, table, f);
      total := |ids|;
      if total == 0 || (page - 1) * size >= total {
        assert Limited(ids, size, (page - 1) * size) == [];
        return Some([]), total;
      }
      LimitedFrom(ids, size, (page - 1) * size, Selected(lower, table, f));
      var cut := Limited(ids, size, (page - 1) * size);
      LimitedAscends(ids, size, (page - 1) * size, Selected(lower, table, f));
      hide Answers, Limited, Passes, Asked, Ordered, Selected, Show, Before;
      shown := ReadRows(cut);
    }
  }

  /** All rows of the page, in order; or not, when one of them cannot be read. */
  ghost predicate Reads(t: Table, ids: seq<int>, shown: Option<seq<(int, Shown)>>) {
    && (forall k | 0 <= k < |ids| :: ids[k] in t.rows)
    && (shown.None? <==> exists k :: 0 <= k < |ids| && Show(t.rows[ids[k]]).None?)
    && (shown.Some? ==> |shown.value| == |ids|
                        && forall k | 0 <= k < |ids| :: shown.value[k].0 == ids[k] && Show(t.rows[ids[k]]) == Some(shown.value[k].1))
  }

  lemma LimitedFrom(ids: seq<int>, size: int, offset: int, q: set<int>)
    requires Answers(ids, q, Before)
    ensures forall k | 0 <= k < |Limited(ids, size, offset)| :: Limited(ids, size, offset)[k] in q
  {
    var limited := Limited(ids, size, offset);
    forall k | 0 <= k < |limited| ensures limited[k] in q { assert limited[k] in ids; }
  }

  lemma LimitedAscends(ids: seq<int>, size: int, offset: int, q: set<int>)
    requires Answers(ids, q, Before)
    ensures var cut := Limited(ids, size, offset); forall j, k | 0 <= j < k < |cut| :: cut[j] < cut[k]
  {
    forall j, k | 0 <= j < k < |ids| ensures ids[j] < ids[k] { assert !Before(ids[k], ids[j]) && ids[j] != ids[k]; }
  }

  lemma OnlyAnswer(ids: seq<int>, q: set<int>)
    requires Answers(ids, q, Before)
    ensures |ids| == |q| && forall ordered | Answers(ordered, q, Before) :: ordered == ids
  {
    AnswerCounts(ids, q);
    BeforeIsTotal(q);
    forall ordered | Answers(ordered, q, Before) ensures ordered == ids { OneAnswer(ordered, ids, q, Before); }
  }
}
