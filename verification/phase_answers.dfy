/** When the phase repository succeeds and what is then in the table, and what reading JSON does to each field. */
module PhaseAnswers {
  import opened Sqlite
  import opened Texts
  import opened Times
  import opened Phases

  // ---------------------------------------------------------------- create

  /** Only this row is new or changed. */
  ghost predicate OnlyRow(before: Table, after: Table, id: int64) {
    && after.projects == before.projects && after.rows.Keys == before.rows.Keys + {id}
    && forall k | k in before.rows && k != id :: after.rows[k] == before.rows[k]
  }

  /** create: refused without a caption or a project, an exception for a project that is not there, a new row otherwise. */
  lemma CreateAnswers(lower: Lower, t: Table, next: int64, p: Phase)
    requires next !in t.rows
    ensures var (after, result) := Create(lower, t, next, p);
            var complete := p.caption.Some? && p.caption != Some("") && p.projectId.Some?;
            && (result.Refused? <==> !complete)
            && (result.Thrown? <==> complete && p.projectId.value !in t.projects)
            && (result.NewId? ==> result.id == next && OnlyRow(t, after, next))
            && (!result.NewId? ==> after == t)
  {
    hide NewRow;
  }

  /** The new row has each column from its own field, dates as seconds, and no flag that was not given. */
  lemma CreatedColumns(lower: Lower, t: Table, next: int64, p: Phase)
    requires Create(lower, t, next, p).1.NewId?
    ensures var row := Create(lower, t, next, p).0.rows[next];
            && Some(row.projectId) == p.projectId && Some(row.caption) == Map(p.caption, UpToNul)
            && row.description == Map(p.description, UpToNul)
            && row.beginDate == Map(p.beginDate, ToSeconds) && row.endDate == Map(p.endDate, ToSeconds)
            && row.isArchive == (if p.isArchive == Some(true) then 1 else 0)
            && row.searchCaption == Map(p.caption, lower) && row.searchDescription == Map(p.description, lower)
  {
    hide UpToNul, ToSeconds;
  }

  /**
   A new phase reads as the one given, texts cut at the first NUL, dates in whole seconds and the flag false
   if there was none; unless a stored text looks like a date, when reading it throws.
   */
  lemma CreateReadsBack(lower: Lower, t: Table, next: int64, p: Phase)
    requires Create(lower, t, next, p).1.NewId?
    ensures var caption, description := Map(p.caption, UpToNul), Map(p.description, UpToNul);
            FromRow(next, Create(lower, t, next, p).0.rows[next])
            == if LooksLikeDate(caption.value) || (description.Some? && LooksLikeDate(description.value)) then None
               else Some(Phase(Some(next), p.projectId, caption, description, WholeSeconds(p.beginDate), WholeSeconds(p.endDate),
                               Some(p.isArchive == Some(true))))
  {
    CreatedColumns(lower, t, next, p);
    hide UpToNul, LooksLikeDate, ToSeconds, Create;
    if p.beginDate.Some? { TimePointRoundTrip(p.beginDate.value); }
    if p.endDate.Some? { TimePointRoundTrip(p.endDate.value); }
  }

  // ---------------------------------------------------------------- update, archive, restore

  /** update succeeds exactly for a row that is there, with something to change and a project, if any, that is there. */
  lemma UpdateAnswers(lower: Lower, t: Table, p: Phase)
    ensures var (after, ok) := Update(lower, t, p);
            && (ok <==> && p.id.Some? && p.id.value in t.rows
                        && (p.projectId.Some? ==> p.projectId.value in t.projects)
                        && p != Phase(p.id, None, None, None, None, None, None))
            && (ok ==> OnlyRow(t, after, p.id.value))
            && (!ok ==> after == t)
  {
    hide Overlaid;
  }

  /** archive sets the flag to 1 and restore to 0, of a row that is there, and nothing else in the table. */
  lemma ArchiveAnswers(lower: Lower, t: Table, id: int64)
    ensures var there := 0 < id && id in t.rows;
            && SetArchive(t, id, true).1 == SetArchive(t, id, false).1 == there
            && Serve(lower, t, DoArchive(id)) == SetArchive(t, id, true).0 && Serve(lower, t, DoRestore(id)) == SetArchive(t, id, false).0
            && (!there ==> SetArchive(t, id, true).0 == SetArchive(t, id, false).0 == t)
            && (there ==> && OnlyRow(t, SetArchive(t, id, true).0, id) && OnlyRow(t, SetArchive(t, id, false).0, id)
                          && SetArchive(t, id, true).0.rows[id] == t.rows[id].(isArchive := 1)
                          && SetArchive(t, id, false).0.rows[id] == t.rows[id].(isArchive := 0))
  {
  }

  /** A phase that reads as before but for the flag, after each of the two. */
  lemma ArchivedReads(t: Table, id: int64)
    requires 0 < id && id in t.rows && FromRow(id, t.rows[id]).Some?
    ensures FromRow(id, SetArchive(t, id, true).0.rows[id]) == Some(FromRow(id, t.rows[id]).value.(isArchive := Some(true)))
    ensures FromRow(id, SetArchive(t, id, false).0.rows[id]) == Some(FromRow(id, t.rows[id]).value.(isArchive := Some(false)))
  {
    hide LooksLikeDate;
  }

  // ---------------------------------------------------------------- reading JSON

  predicate Cleared(json: Object, name: Name) {
    name !in json || json[name] == Null
  }

  /** The types that the members may have; other members are not looked at. */
  predicate RightType(name: Name, j: Json) {
    match name
    case Id | ProjectId | BeginDate | EndDate => j.Integer? || j.Float?
    case Caption | Description => j.Text?
    case IsArchive => j.Bool?
    case Other(_) => true
  }

  /** The 64-bit number for a JSON number: itself, or the one that is congruent to it; a fraction without what follows the point. */
  predicate Number(j: Json, v: int64) {
    match j
    case Integer(n) => v == n || v == n - 0x1_0000_0000_0000_0000
    case Float(x) => if x >= 0.0 then v >= 0 && 0.0 <= x - v as real < 1.0 else v <= 0 && -1.0 < x - v as real <= 0.0
    case _ => false
  }

  predicate Seconds(j: Json, t: int64) {
    t % NANOS == 0 && exists s: int64 :: Number(j, s) && t == s * NANOS
  }

  /** The members of the object: absent or null clears the field, a wrong type leaves it, else it has the member's value. */
  ghost predicate Took<T(!new)>(json: Object, name: Name, was: Option<T>, now: Option<T>, value: (Json, T) -> bool) {
    if Cleared(json, name) then now == None
    else if !RightType(name, json[name]) then now == was
    else now.Some? && value(json[name], now.value)
  }

  lemma NumberOf(j: Json)
    ensures ToInt64(j).Some? <==> j.Integer? || j.Float?
    ensures ToInt64(j).Some? ==> Number(j, ToInt64(j).value)
  {
  }

  lemma OnlyNumber(j: Json, v: int64, w: int64)
    requires Number(j, v) && Number(j, w)
    ensures v == w
  {
  }

  lemma TookNumber(json: Object, name: Name, was: Option<int64>)
    requires name in {Id, ProjectId}
    ensures var (now, ok) := Read(json, name, was, ToInt64);
            Took(json, name, was, now, Number) && (ok <==> Cleared(json, name) || RightType(name, json[name]))
  {
    if name in json { NumberOf(json[name]); }
    hide Number;
  }

  lemma TookDate(json: Object, name: Name, was: Option<int64>)
    requires name in {BeginDate, EndDate} && DateFits(json, name)
    ensures var (now, ok) := Read(json, name, was, ToDate);
            Took(json, name, was, now, Seconds) && (ok <==> Cleared(json, name) || RightType(name, json[name]))
  {
    if Given(json, name) && ToInt64(json[name]).Some? {
      var s := ToInt64(json[name]).value;
      assert FromSeconds(s).Some?;
      assert (s * NANOS) % NANOS == 0;
    }
    if name in json { NumberOf(json[name]); }
    hide Number, ToInt64;
  }

  /** Reading a phase, field by field. */
  lemma FieldsRead(old_: Phase, json: Object)
    requires DateFits(json, BeginDate) && DateFits(json, EndDate)
    ensures var p := FromJson(old_, json).0;
            && Took(json, Id, old_.id, p.id, Number) && Took(json, ProjectId, old_.projectId, p.projectId, Number)
            && Took(json, Caption, old_.caption, p.caption, (j: Json, s) => j == Text(s))
            && Took(json, Description, old_.description, p.description, (j: Json, s) => j == Text(s))
            && Took(json, BeginDate, old_.beginDate, p.beginDate, Seconds) && Took(json, EndDate, old_.endDate, p.endDate, Seconds)
            && Took(json, IsArchive, old_.isArchive, p.isArchive, (j: Json, b) => j == Bool(b))
  {
    TookNumber(json, Id, old_.id);
    TookNumber(json, ProjectId, old_.projectId);
    TookDate(json, BeginDate, old_.beginDate);
    TookDate(json, EndDate, old_.endDate);
    hide DateFits, ToInt64, ToDate, Number, Seconds;
  }

  /** The answer is true exactly when no member that is there has a wrong type. */
  lemma ReadSucceedsIff(old_: Phase, json: Object)
    requires DateFits(json, BeginDate) && DateFits(json, EndDate)
    ensures FromJson(old_, json).1 <==> forall name | !Cleared(json, name) :: RightType(name, json[name])
  {
    TookNumber(json, Id, old_.id);
    TookNumber(json, ProjectId, old_.projectId);
    TookDate(json, BeginDate, old_.beginDate);
    TookDate(json, EndDate, old_.endDate);
    hide DateFits, ToInt64, ToDate, Number, Seconds, Took;
    assert FromJson(old_, json).1 <==> forall name | name in {Id, ProjectId, Caption, Description, BeginDate, EndDate, IsArchive} ::
                                         Cleared(json, name) || RightType(name, json[name]);
  }
}
