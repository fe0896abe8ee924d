/** The phase on its way from a row to a transfer object, to JSON and back, and into a partial update. */
module Phases {
  import opened Sqlite
  import opened Texts
  import opened Times

  datatype PhaseRow = PhaseRow(projectId: int64, caption: string, description: Option<string>, beginDate: Option<int64>,
                               endDate: Option<int64>, isArchive: int64, searchCaption: Option<string>,
                               searchDescription: Option<string>)

  /** Dates are time points, in nanoseconds. */
  datatype Phase = Phase(id: Option<int64>, projectId: Option<int64>, caption: Option<string>, description: Option<string>,
                         beginDate: Option<int64>, endDate: Option<int64>, isArchive: Option<bool>)

  function Or<T>(o: Option<T>, other: Option<T>): Option<T> {
    if o.Some? then o else other
  }

  // ---------------------------------------------------------------- JSON

  /** Signed and unsigned integers of 64 bits, and floating point numbers within the signed range. */
  type Int = n: int | -0x8000_0000_0000_0000 <= n <= 0xFFFF_FFFF_FFFF_FFFF
  type Fraction = x: real | -9223372036854775808.0 <= x < 9223372036854775808.0

  datatype Json = Null | Bool(flag: bool) | Integer(number: Int) | Float(fraction: Fraction) | Text(text: string) | Nested

  datatype Name = Id | ProjectId | Caption | Description | BeginDate | EndDate | IsArchive | Other(name: string)

  type Object = map<Name, Json>

  predicate Given(json: Object, name: Name) {
    name in json && !json[name].Null?
  }

  /** Unsigned numbers of 64 bits wrap round, fractions are dropped; all else is a type error. */
  function ToInt64(j: Json): Option<int64> {
    match j
    case Integer(n) => Some(Wrapped(n))
    case Float(x) => Some(Truncated(x))
    case _ => None
  }

  function Wrapped(n: Int): int64 {
    if Fits64(n) then n else n - 0x1_0000_0000_0000_0000
  }

  function Truncated(x: Fraction): int64 {
    if x >= 0.0 then (x as real).Floor else -((0.0 - x as real).Floor)
  }

  function ToText(j: Json): Option<string> {
    if j.Text? then Some(j.text) else None
  }

  function ToBool(j: Json): Option<bool> {
    if j.Bool? then Some(j.flag) else None
  }

  /** A field after reading: absent or null clears it, a value of the wrong type leaves it and is an error. */
  function Read<T>(json: Object, name: Name, old_: Option<T>, get: Json -> Option<T>): (Option<T>, bool) {
    if !Given(json, name) then (None, true)
    else if get(json[name]).None? then (old_, false)
    else (get(json[name]), true)
  }

  function Put<T>(json: Object, name: Name, o: Option<T>, make: T -> Json): Object {
    if o.Some? then json[name := make(o.value)] else json
  }

  function ToJson(p: Phase): Object {
    var number, date := (n: int64) => Integer(n), (t: int64) => Integer(ToSeconds(t));
    var text := (s: string) => Text(s);
    var json1 := Put(map[], Id, p.id, number);
    var json2 := Put(json1, ProjectId, p.projectId, number);
    var json3 := Put(json2, Caption, p.caption, text);
    var json4 := Put(json3, Description, p.description, text);
    var json5 := Put(json4, BeginDate, p.beginDate, date);
    var json6 := Put(json5, EndDate, p.endDate, date);
    Put(json6, IsArchive, p.isArchive, (b: bool) => Bool(b))
  }

  /** A date of more seconds than a time point can hold: the original leaves the outcome open. */
  function ToDate(j: Json): Option<int64> {
    if ToInt64(j).Some? then FromSeconds(ToInt64(j).value) else None
  }

  predicate DateFits(json: Object, name: Name) {
    Given(json, name) && ToInt64(json[name]).Some? ==> FromSeconds(ToInt64(json[name]).value).Some?
  }

  function FromJson(old_: Phase, json: Object): (Phase, bool)
    requires DateFits(json, BeginDate) && DateFits(json, EndDate)
  {
    var id := Read(json, Id, old_.id, ToInt64);
    var projectId := Read(json, ProjectId, old_.projectId, ToInt64);
    var caption := Read(json, Caption, old_.caption, ToText);
    var description := Read(json, Description, old_.description, ToText);
    var beginDate := Read(json, BeginDate, old_.beginDate, ToDate);
    var endDate := Read(json, EndDate, old_.endDate, ToDate);
    var isArchive := Read(json, IsArchive, old_.isArchive, ToBool);
    (Phase(id.0, projectId.0, caption.0, description.0, beginDate.0, endDate.0, isArchive.0),
     id.1 && projectId.1 && caption.1 && description.1 && beginDate.1 && endDate.1 && isArchive.1)
  }

  function WholeSeconds(t: Option<int64>): Option<int64> {
    if t.Some? then FromSeconds(ToSeconds(t.value)) else None
  }

  /** What JSON keeps of a phase: dates lose their fractions of seconds. */
  function Carried(p: Phase): Phase {
    p.(beginDate := WholeSeconds(p.beginDate), endDate := WholeSeconds(p.endDate))
  }

  /** The object has the member just as the field has a value. */
  predicate Holds<T>(json: Object, name: Name, o: Option<T>, make: T -> Json) {
    if o.Some? then name in json && json[name] == make(o.value) else name !in json
  }

  lemma Members(p: Phase)
    ensures var json := ToJson(p);
            && Holds(json, Id, p.id, (n: int64) => Integer(n)) && Holds(json, ProjectId, p.projectId, (n: int64) => Integer(n))
            && Holds(json, Caption, p.caption, (s: string) => Text(s)) && Holds(json, Description, p.description, (s: string) => Text(s))
            && Holds(json, BeginDate, p.beginDate, (t: int64) => Integer(ToSeconds(t)))
            && Holds(json, EndDate, p.endDate, (t: int64) => Integer(ToSeconds(t)))
            && Holds(json, IsArchive, p.isArchive, (b: bool) => Bool(b))
            && forall name | name in json :: !name.Other?
  {
  }

  /** Reading what was written, into whatever object, gives the phase back if and only if its dates are whole seconds. */
  lemma JsonRoundTrip(p: Phase, old_: Phase)
    ensures DateFits(ToJson(p), BeginDate) && DateFits(ToJson(p), EndDate)
    ensures FromJson(old_, ToJson(p)) == (Carried(p), true)
    ensures Carried(p) == p <==> (p.beginDate.Some? ==> p.beginDate.value % NANOS == 0)
                                 && (p.endDate.Some? ==> p.endDate.value % NANOS == 0)
  {
    Members(p);
    hide ToJson, Truncated, ToSeconds;
    if p.beginDate.Some? { TimePointRoundTrip(p.beginDate.value); }
    if p.endDate.Some? { TimePointRoundTrip(p.endDate.value); }
  }

  // ---------------------------------------------------------------- rows

  /** Text that looks like a date is not a string for the result set, and reading it throws. */
  predicate Readable(row: PhaseRow) {
    && !LooksLikeDate(row.caption) && (row.description.Some? ==> !LooksLikeDate(row.description.value))
    && (row.beginDate.Some? ==> FromSeconds(row.beginDate.value).Some?)
    && (row.endDate.Some? ==> FromSeconds(row.endDate.value).Some?)
  }

  function FromRow(id: int64, row: PhaseRow): Option<Phase> {
    if !Readable(row) then None
    else Some(Phase(Some(id), Some(row.projectId), Some(row.caption), row.description,
                    if row.beginDate.Some? then FromSeconds(row.beginDate.value) else None,
                    if row.endDate.Some? then FromSeconds(row.endDate.value) else None,
                    Some(row.isArchive != 0)))
  }

  /** The phases, and the projects that they may refer to. */
  datatype Table = Table(rows: map<int64, PhaseRow>, projects: set<int64>)

  predicate Empty(p: Phase) {
    p.projectId.None? && p.caption.None? && p.description.None? && p.beginDate.None? && p.endDate.None? && p.isArchive.None?
  }

  /** The columns that are given, texts together with their search columns. */
  function Overlaid(lower: Lower, row: PhaseRow, p: Phase): PhaseRow {
    PhaseRow(
      if p.projectId.Some? then p.projectId.value else row.projectId,
      if p.caption.Some? then UpToNul(p.caption.value) else row.caption,
      if p.description.Some? then Map(p.description, UpToNul) else row.description,
      if p.beginDate.Some? then Map(p.beginDate, ToSeconds) else row.beginDate,
      if p.endDate.Some? then Map(p.endDate, ToSeconds) else row.endDate,
      if p.isArchive.Some? then (if p.isArchive.value then 1 else 0) else row.isArchive,
      if p.caption.Some? then Map(p.caption, lower) else row.searchCaption,
      if p.description.Some? then Map(p.description, lower) else row.searchDescription)
  }

  /** An exception makes it false, as does an UPDATE of no row. */
  function Update(lower: Lower, t: Table, p: Phase): (Table, bool) {
    if p.id.None? || Empty(p) || p.id.value !in t.rows then (t, false)
    else if p.projectId.Some? && p.projectId.value !in t.projects then (t, false)
    else (t.(rows := t.rows[p.id.value := Overlaid(lower, t.rows[p.id.value], p)]), true)
  }

  /** One transfer object laid over another. */
  function Over(a: Phase, b: Phase): Phase {
    Phase(a.id, Or(b.projectId, a.projectId), Or(b.caption, a.caption), Or(b.description, a.description),
          Or(b.beginDate, a.beginDate), Or(b.endDate, a.endDate), Or(b.isArchive, a.isArchive))
  }

  lemma OverlaidTwice(lower: Lower, row: PhaseRow, a: Phase, b: Phase)
    ensures Overlaid(lower, Overlaid(lower, row, a), b) == Overlaid(lower, row, Over(a, b))
  {
  }

  /** Two updates that succeed, one after the other, are the one of the second laid over the first. */
  lemma UpdateTwice(lower: Lower, t: Table, a: Phase, b: Phase)
    requires a.id == b.id && Update(lower, t, a).1 && Update(lower, Update(lower, t, a).0, b).1
    ensures Update(lower, Update(lower, t, a).0, b) == Update(lower, t, Over(a, b))
    ensures forall id | id in t.rows && Some(id) != a.id :: Update(lower, t, Over(a, b)).0.rows[id] == t.rows[id]
    ensures Update(lower, t, Over(a, b)).0.rows.Keys == t.rows.Keys
  {
    var id := a.id.value;
    OverlaidTwice(lower, t.rows[id], a, b);
    var row := Overlaid(lower, t.rows[id], a);
    assert t.rows[id := row][id] == row && Update(lower, t, a).0.rows == t.rows[id := row];
    assert t.rows[id := row][id := Overlaid(lower, row, b)] == t.rows[id := Overlaid(lower, row, b)];
  }

  /** The order of updates matters only where both give the same field. */
  lemma UpdatesCommute(lower: Lower, t: Table, a: Phase, b: Phase)
    requires a.id == b.id && Update(lower, t, a).1 && Update(lower, t, b).1
    requires Over(a, b) == Over(b, a)
    ensures Update(lower, Update(lower, t, a).0, b) == Update(lower, Update(lower, t, b).0, a)
  {
    UpdateTwice(lower, t, a, b);
    UpdateTwice(lower, t, b, a);
  }

  // ---------------------------------------------------------------- all the way round

  /** Columns as the repository writes them. */
  predicate Written(lower: Lower, row: PhaseRow) {
    && row.isArchive in {0, 1} && '\0' !in row.caption && (row.description.Some? ==> '\0' !in row.description.value)
    && row.searchCaption == Some(lower(row.caption))
    && (row.description.Some? ==> row.searchDescription == Map(row.description, lower))
  }

  lemma {:induction false} UpToNulSame(s: string)
    ensures UpToNul(s) == s <==> '\0' !in s
  {
  }

  lemma SameDates(row: PhaseRow)
    requires Readable(row)
    ensures row.beginDate.Some? ==> ToSeconds(FromSeconds(row.beginDate.value).value) == row.beginDate.value
                                    && FromSeconds(row.beginDate.value).value % NANOS == 0
    ensures row.endDate.Some? ==> ToSeconds(FromSeconds(row.endDate.value).value) == row.endDate.value
                                  && FromSeconds(row.endDate.value).value % NANOS == 0
  {
    if row.beginDate.Some? { SecondsRoundTrip(row.beginDate.value); }
    if row.endDate.Some? { SecondsRoundTrip(row.endDate.value); }
  }

  lemma OverlaidByItself(lower: Lower, id: int64, row: PhaseRow)
    requires Readable(row)
    ensures Overlaid(lower, row, FromRow(id, row).value) == row <==> Written(lower, row)
  {
    SameDates(row);
    UpToNulSame(row.caption);
    if row.description.Some? { UpToNulSame(row.description.value); }
  }

  /**
   A phase that is read, sent as JSON, read from it and used for an update stays as it was, and with it
   the whole table, if and only if its columns are as the repository writes them.
   */
  lemma ReadSendUpdate(lower: Lower, t: Table, id: int64, old_: Phase)
    requires id in t.rows && Readable(t.rows[id]) && t.rows[id].projectId in t.projects
    ensures var json := ToJson(FromRow(id, t.rows[id]).value);
            DateFits(json, BeginDate) && DateFits(json, EndDate)
            && FromJson(old_, json) == (FromRow(id, t.rows[id]).value, true)
            && Update(lower, t, FromJson(old_, json).0).1
            && (Update(lower, t, FromJson(old_, json).0).0 == t <==> Written(lower, t.rows[id]))
  {
    hide ToJson, FromJson, Readable, Written, Overlaid;
    var p := FromRow(id, t.rows[id]).value;
    WholeDates(id, t.rows[id]);
    JsonRoundTrip(p, old_);
    OverlaidByItself(lower, id, t.rows[id]);
    PutSame(t, id, Overlaid(lower, t.rows[id], p));
  }

  lemma WholeDates(id: int64, row: PhaseRow)
    requires Readable(row)
    ensures var p := FromRow(id, row).value;
            && (p.beginDate.Some? ==> p.beginDate.value % NANOS == 0) && (p.endDate.Some? ==> p.endDate.value % NANOS == 0)
  {
    SameDates(row);
  }

  lemma PutSame(t: Table, id: int64, row: PhaseRow)
    requires id in t.rows
    ensures t.(rows := t.rows[id := row]) == t <==> row == t.rows[id]
  {
    assert t.rows[id := row][id] == row;
    assert row == t.rows[id] ==> t.rows[id := row] == t.rows;
  }

  /** What the engine keeps of the texts, and seconds of the dates. */
  function Stored(p: Phase): Phase {
    Carried(p).(caption := Map(p.caption, UpToNul), description := Map(p.description, UpToNul))
  }

  /** After an update the phase reads as it did before, overlaid with what was given. */
  lemma UpdateReadsBack(lower: Lower, t: Table, p: Phase)
    requires Update(lower, t, p).1 && Readable(t.rows[p.id.value])
    ensures var row := Update(lower, t, p).0.rows[p.id.value];
            && (Readable(row) <==> (p.caption.Some? ==> !LooksLikeDate(UpToNul(p.caption.value)))
                                   && (p.description.Some? ==> !LooksLikeDate(UpToNul(p.description.value))))
            && (Readable(row) ==> FromRow(p.id.value, row).value == Over(FromRow(p.id.value, t.rows[p.id.value]).value, Stored(p)))
  {
    hide UpToNul, LooksLikeDate, ToSeconds;
    if p.beginDate.Some? { TimePointRoundTrip(p.beginDate.value); }
    if p.endDate.Some? { TimePointRoundTrip(p.endDate.value); }
  }

  // ---------------------------------------------------------------- create, archive, restore

  datatype Creation = NewId(id: int64) | Refused | Thrown

  function NewRow(lower: Lower, projectId: int64, caption: string, p: Phase): PhaseRow {
    PhaseRow(projectId, UpToNul(caption), Map(p.description, UpToNul), Map(p.beginDate, ToSeconds), Map(p.endDate, ToSeconds),
             if p.isArchive == Some(true) then 1 else 0, Some(lower(caption)), Map(p.description, lower))
  }

  function Create(lower: Lower, t: Table, next: int64, p: Phase): (Table, Creation) {
    if p.caption.None? || p.caption.value == "" || p.projectId.None? then (t, Refused)
    else if p.projectId.value !in t.projects then (t, Thrown)
    else (t.(rows := t.rows[next := NewRow(lower, p.projectId.value, p.caption.value, p)]), NewId(next))
  }

  function SetArchive(t: Table, id: int64, archive: bool): (Table, bool) {
    if id <= 0 || id !in t.rows then (t, false)
    else (t.(rows := t.rows[id := t.rows[id].(isArchive := if archive then 1 else 0)]), true)
  }

  datatype Request = DoCreate(next: int64, phase: Phase) | DoUpdate(phase: Phase) | DoArchive(id: int64) | DoRestore(id: int64)

  function Serve(lower: Lower, t: Table, r: Request): Table {
    match r
    case DoCreate(next, p) => Create(lower, t, next, p).0
    case DoUpdate(p) => Update(lower, t, p).0
    case DoArchive(id) => SetArchive(t, id, true).0
    case DoRestore(id) => SetArchive(t, id, false).0
  }

  function ServeAll(lower: Lower, t: Table, rs: seq<Request>): Table
    decreases |rs|
  {
    if rs == [] then t else ServeAll(lower, Serve(lower, t, rs[0]), rs[1..])
  }

  ghost predicate AllWritten(lower: Lower, t: Table) {
    forall id | id in t.rows :: Written(lower, t.rows[id]) && t.rows[id].projectId in t.projects
  }

  lemma NewRowIsWritten(lower: Lower, projectId: int64, caption: string, p: Phase)
    requires Lowering(lower)
    ensures Written(lower, NewRow(lower, projectId, caption, p))
  {
    assert LowersWell(lower, caption);
    assert p.description.Some? ==> LowersWell(lower, p.description.value);
  }

  lemma OverlaidIsWritten(lower: Lower, row: PhaseRow, p: Phase)
    requires Lowering(lower) && Written(lower, row)
    ensures Written(lower, Overlaid(lower, row, p))
  {
    assert p.caption.Some? ==> LowersWell(lower, p.caption.value);
    assert p.description.Some? ==> LowersWell(lower, p.description.value);
  }

  lemma ServeKeepsWritten(lower: Lower, t: Table, r: Request)
    requires Lowering(lower) && AllWritten(lower, t)
    ensures AllWritten(lower, Serve(lower, t, r)) && Serve(lower, t, r).projects == t.projects
  {
    match r
    case DoCreate(_, p) =>
      if p.projectId.Some? && p.caption.Some? { NewRowIsWritten(lower, p.projectId.value, p.caption.value, p); }
    case DoUpdate(p) =>
      if p.id.Some? && p.id.value in t.rows { OverlaidIsWritten(lower, t.rows[p.id.value], p); }
    case _ =>
  }

  /** Whatever is created, updated, archived and restored, every row stays as ReadSendUpdate needs it. */
  lemma {:induction false} RunsKeepWritten(lower: Lower, t: Table, rs: seq<Request>)
    requires Lowering(lower) && AllWritten(lower, t)
    ensures AllWritten(lower, ServeAll(lower, t, rs))
    decreases |rs|
  {
    if rs != [] {
      ServeKeepsWritten(lower, t, rs[0]);
      RunsKeepWritten(lower, Serve(lower, t, rs[0]), rs[1..]);
    }
  }

  // ---------------------------------------------------------------- the transfer object and the repository

  method ReadField<T>(json: Object, name: Name, current: Option<T>, get: Json -> Option<T>) returns (value: Option<T>, ok: bool)
    ensures (value, ok) == Read(json, name, current, get)
  {
    if !Given(json, name) { return None, true; }
    var got := get(json[name]);
    if got.None? { return current, false; }
    return got, true;
  }

  class PhaseDto {
    var id: Option<int64>
    var projectId: Option<int64>
    var caption: Option<string>
    var description: Option<string>
    var beginDate: Option<int64>
    var endDate: Option<int64>
    var isArchive: Option<bool>

    function Value(): Phase
      reads this
    {
      Phase(id, projectId, caption, description, beginDate, endDate, isArchive)
    }

    constructor ()
      ensures Value() == Phase(None, None, None, None, None, None, None)
    {
      id, projectId, caption, description, beginDate, endDate, isArchive := None, None, None, None, None, None, None;
    }

    /** One field after the other; a wrong type leaves its field alone and does not stop the rest. */
    method ReadJson(json: Object) returns (success: bool)
      requires DateFits(json, BeginDate) && DateFits(json, EndDate)
      modifies this
      ensures (Value(), success) == FromJson(old(Value()), json)
    {
      var ok: bool;
      id, success := ReadField(json, Id, id, ToInt64);
      projectId, ok := ReadField(json, ProjectId, projectId, ToInt64);
      success := success && ok;
      caption, ok := ReadField(json, Caption, caption, ToText);
      success := success && ok;
      description, ok := ReadField(json, Description, description, ToText);
      success := success && ok;
      beginDate, ok := ReadField(json, BeginDate, beginDate, ToDate);
      success := success && ok;
      endDate, ok := ReadField(json, EndDate, endDate, ToDate);
      success := success && ok;
      isArchive, ok := ReadField(json, IsArchive, isArchive, ToBool);
      success := success && ok;
    }
  }

  class PhaseRepository {
    const lower: Lower
    var table: Table

    constructor (lower: Lower, table: Table)
      ensures this.lower == lower && this.table == table
    {
      this.lower, this.table := lower, table;
    }

    method Insert(next: int64, p: Phase) returns (result: Creation)
      modifies this
      ensures (table, result) == Create(lower, old(table), next, p)
    {
      if p.caption.None? || p.caption.value == "" || p.projectId.None? { return Refused; }
      if p.projectId.value !in table.projects { return Thrown; }
      table := table.(rows := table.rows[next := NewRow(lower, p.projectId.value, p.caption.value, p)]);
      result := NewId(next);
    }

    /** The clauses of the UPDATE grow field by field. */
    method Change(p: Phase) returns (ok: bool)
      modifies this
      ensures (table, ok) == Update(lower, old(table), p)
    {
      if p.id.None? || p.id.value !in table.rows { return false; }
      var row, clauses := table.rows[p.id.value], 0;
      if p.projectId.Some? { row, clauses := row.(projectId := p.projectId.value), clauses + 1; }
      if p.caption.Some? {
        row := row.(caption := UpToNul(p.caption.value), searchCaption := Some(lower(p.caption.value)));
        clauses := clauses + 2;
      }
      if p.description.Some? {
        row := row.(description := Some(UpToNul(p.description.value)), searchDescription := Some(lower(p.description.value)));
        clauses := clauses + 2;
      }
      if p.beginDate.Some? { row, clauses := row.(beginDate := Some(ToSeconds(p.beginDate.value))), clauses + 1; }
      if p.endDate.Some? { row, clauses := row.(endDate := Some(ToSeconds(p.endDate.value))), clauses + 1; }
      if p.isArchive.Some? { row, clauses := row.(isArchive := if p.isArchive.value then 1 else 0), clauses + 1; }
      if clauses == 0 { return false; }
      if p.projectId.Some? && p.projectId.value !in table.projects { return false; }
      table := table.(rows := table.rows[p.id.value := row]);
      ok := true;
    }

    method Archive(id: int64) returns (ok: bool)
      modifies this
      ensures (table, ok) == SetArchive(old(table), id, true)
    {
      if id <= 0 || id !in table.rows { return false; }
      table := table.(rows := table.rows[id := table.rows[id].(isArchive := 1)]);
      ok := true;
    }

    method Restore(id: int64) returns (ok: bool)
      modifies this
      ensures (table, ok) == SetArchive(old(table), id, false)
    {
      if id <= 0 || id !in table.rows { return false; }
      table := table.(rows := table.rows[id := table.rows[id].(isArchive := 0)]);
      ok := true;
    }
  }
}
