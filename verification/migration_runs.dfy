/**
 What every run of the migration manager keeps: the stored version describes the content, however
 often and wherever migrations fail.
 */
module MigrationRuns {
  import opened Sqlite
  import opened Migrations

  datatype Command =
    | One(f: Faults)
    | All(read: bool, faults: uint32 -> Faults)
    | Down(f: Faults)

  ghost predicate Comes<C>(ms: seq<Migration<C>>, e: Engine<Schema<C>>, c: Command) {
    c.All? ==> Terminates(ms, e, c.read, c.faults)
  }

  ghost function Run<C>(ms: seq<Migration<C>>, e: Engine<Schema<C>>, c: Command): Engine<Schema<C>>
    requires Comes(ms, e, c)
  {
    match c
    case One(f) => UpgradeOne(ms, e, f).0
    case All(read, faults) => UpgradeAll(ms, e, read, faults).0
    case Down(f) => DowngradeOne(ms, e, f).0
  }

  /** Each call comes to an end. */
  ghost predicate AllCome<C>(ms: seq<Migration<C>>, e: Engine<Schema<C>>, cs: seq<Command>)
    decreases |cs|
  {
    cs == [] || (Comes(ms, e, cs[0]) && AllCome(ms, Run(ms, e, cs[0]), cs[1..]))
  }

  ghost function RunAll<C>(ms: seq<Migration<C>>, e: Engine<Schema<C>>, cs: seq<Command>): Engine<Schema<C>>
    requires AllCome(ms, e, cs)
    decreases |cs|
  {
    if cs == [] then e else RunAll(ms, Run(ms, e, cs[0]), cs[1..])
  }

  // ---------------------------------------------------------------- the version describes the content

  /** The upgrade leads from a right content of the version before to one of its own, and the downgrade back. */
  ghost predicate Leads<C>(right: (int, C) -> bool, m: Migration<C>, c: C) {
    && (right(Decrement(m.version), c) && Apply(m.up, c).Some? ==> right(m.version, Apply(m.up, c).value))
    && (m.version > 0 && right(m.version, c) && Apply(m.down, c).Some? ==> right(m.version - 1, Apply(m.down, c).value))
  }

  ghost predicate Sound<C(!new)>(ms: seq<Migration<C>>, right: (int, C) -> bool) {
    forall m, c: C | m in ms :: Leads(right, m, c)
  }

  ghost predicate Describes<C>(right: (int, C) -> bool, s: Schema<C>) {
    0 <= s.version <= UINT_MAX && right(s.version, s.tables)
  }

  /** Outside a transaction the content is right; inside one, left by a failed ROLLBACK, the durable one is. */
  ghost predicate Right<C>(right: (int, C) -> bool, e: Engine<Schema<C>>) {
    Describes(right, e.Durable())
  }

  lemma UpKeepsRight<C(!new)>(ms: seq<Migration<C>>, right: (int, C) -> bool, e: Engine<Schema<C>>, m: Migration<C>, f: Faults)
    requires Sound(ms, right) && Right(right, e) && m in ms
    requires e.snapshot.None? ==> e.content.version == Decrement(m.version)
    ensures Right(right, Attempt(e, m.up, m.version, f).0)
  {
    hide Attempt, Apply;
    AttemptApplies(e, m.up, m.version, f);
    assert Leads(right, m, e.content.tables);
  }

  /** A failing migration leaves what is durable; a successful one stores content and version together. */
  lemma {:induction false} RoundsKeepRight<C(!new)>(ms: seq<Migration<C>>, right: (int, C) -> bool, l: Loop<C>, faults: uint32 -> Faults, n: nat)
    requires Sound(ms, right) && Right(right, l.engine)
    requires l.At? && l.engine.snapshot.None? ==> l.engine.content.version == Decrement(l.target)
    ensures Right(right, Rounds(ms, l, faults, n).engine)
    decreases n
  {
    hide Right, Sound, Attempt;
    if n > 0 {
      if l.At? && l.target <= MaxVersion(ms) && Find(ms, l.target).Some? {
        var m := Find(ms, l.target).value;
        UpKeepsRight(ms, right, l.engine, m, faults(l.target));
        AttemptApplies(l.engine, m.up, l.target, faults(l.target));
      }
      RoundsKeepRight(ms, right, Round(ms, l, faults), faults, n - 1);
    }
  }

  lemma OneKeepsRight<C(!new)>(ms: seq<Migration<C>>, right: (int, C) -> bool, e: Engine<Schema<C>>, f: Faults)
    requires Sound(ms, right) && Right(right, e)
    ensures Right(right, UpgradeOne(ms, e, f).0)
  {
    hide Sound, Describes;
    var v := CurrentVersion(e);
    if v < MaxVersion(ms) && Find(ms, v + 1).Some? {
      if e.snapshot.None? { VersionFits(right, e); }
      UpKeepsRight(ms, right, e, Find(ms, v + 1).value, f);
    }
  }

  lemma VersionFits<C>(right: (int, C) -> bool, e: Engine<Schema<C>>)
    requires Right(right, e) && e.snapshot.None?
    ensures CurrentVersion(e) == e.content.version
  {
  }

  lemma DownKeepsRight<C(!new)>(ms: seq<Migration<C>>, right: (int, C) -> bool, e: Engine<Schema<C>>, f: Faults)
    requires Sound(ms, right) && Right(right, e)
    ensures Right(right, DowngradeOne(ms, e, f).0)
  {
    hide Attempt, Apply;
    var v := CurrentVersion(e);
    if v > 0 && Find(ms, v).Some? {
      var m := Find(ms, v).value;
      AttemptApplies(e, m.down, v - 1, f);
      assert Leads(right, m, e.content.tables);
    }
  }

  lemma AllKeepsRight<C(!new)>(ms: seq<Migration<C>>, right: (int, C) -> bool, e: Engine<Schema<C>>, read: bool, faults: uint32 -> Faults)
    requires Sound(ms, right) && Right(right, e) && Terminates(ms, e, read, faults)
    ensures Right(right, UpgradeAll(ms, e, read, faults).0)
  {
    hide Sound, Describes;
    var v := CurrentVersion(e);
    if !read && v < MaxVersion(ms) {
      var l := At(e, v + 1);
      var n: nat :| Rounds(ms, l, faults, n).Ended?;
      EndIs(ms, l, faults, n);
      if e.snapshot.None? { VersionFits(right, e); }
      RoundsKeepRight(ms, right, l, faults, n);
    }
  }

  lemma CommandKeepsRight<C(!new)>(ms: seq<Migration<C>>, right: (int, C) -> bool, e: Engine<Schema<C>>, c: Command)
    requires Comes(ms, e, c) && Sound(ms, right) && Right(right, e)
    ensures Right(right, Run(ms, e, c))
  {
    hide Sound, Right, Terminates, UpgradeOne, UpgradeAll, DowngradeOne;
    match c
    case One(f) => OneKeepsRight(ms, right, e, f);
    case All(read, faults) => AllKeepsRight(ms, right, e, read, faults);
    case Down(f) => DownKeepsRight(ms, right, e, f);
  }

  /**
   After any sequence of upgradeOne, upgradeAll and downgradeOne, with failures anywhere, what is
   durably stored is a right content for the durably stored version.
   */
  lemma {:induction false} VersionDescribesContent<C(!new)>(ms: seq<Migration<C>>, right: (int, C) -> bool,
                                                            e: Engine<Schema<C>>, cs: seq<Command>)
    requires AllCome(ms, e, cs) && Sound(ms, right) && Describes(right, e.Durable())
    ensures Describes(right, RunAll(ms, e, cs).Durable())
    decreases |cs|
  {
    hide Sound, Comes, Describes, Run;
    if cs != [] {
      CommandKeepsRight(ms, right, e, cs[0]);
      VersionDescribesContent(ms, right, Run(ms, e, cs[0]), cs[1..]);
    }
  }

  /** Once a failed ROLLBACK has left the engine inside a transaction, no BEGIN succeeds and nothing changes. */
  lemma OpenEngineStays<C>(ms: seq<Migration<C>>, e: Engine<Schema<C>>, c: Command)
    requires e.snapshot.Some?
    ensures Comes(ms, e, c) && Run(ms, e, c) == e
  {
    var v := CurrentVersion(e);
    if c.All? && v < MaxVersion(ms) {
      var l := At(e, v + 1);
      assert Rounds(ms, Round(ms, l, c.faults), c.faults, 0) == Round(ms, l, c.faults);
      EndIs(ms, l, c.faults, 1);
    }
  }

  // ---------------------------------------------------------------- when the loop ends

  /** Some unsigned version has no migration. */
  ghost predicate HasGap<C>(ms: seq<Migration<C>>) {
    exists v: uint32 :: Find(ms, v).None?
  }

  /** How many increments of an unsigned counter lead from one version to another. */
  ghost function Distance(from: uint32, to: uint32): nat {
    if from <= to then to - from else to - from + UINT_MAX + 1
  }

  lemma {:induction false} GapEnds<C>(ms: seq<Migration<C>>, l: Loop<C>, faults: uint32 -> Faults, gap: uint32)
    requires l.At? && Find(ms, gap).None?
    ensures Rounds(ms, l, faults, Distance(l.target, gap) + 1).Ended?
    decreases Distance(l.target, gap)
  {
    hide Attempt;
    var next := Round(ms, l, faults);
    if next.Ended? {
      EndStays(ms, next, faults, Distance(l.target, gap));
    } else {
      assert l.target != gap && Distance(next.target, gap) == Distance(l.target, gap) - 1;
      GapEnds(ms, next, faults, gap);
    }
  }

  lemma {:induction false} FullEndsByFailure<C>(ms: seq<Migration<C>>, l: Loop<C>, faults: uint32 -> Faults, n: nat)
    requires Sorted(ms) && !HasGap(ms) && Rounds(ms, l, faults, n).Ended? && (l.Ended? ==> l.outcome.Failed?)
    ensures Rounds(ms, l, faults, n).outcome.Failed?
    decreases n
  {
    hide Attempt;
    if n > 0 {
      if l.At? {
        var last: uint32 := UINT_MAX;
        assert Find(ms, last).Some? && Find(ms, l.target).Some?;
        MaxIsGreatest(ms);
      }
      FullEndsByFailure(ms, Round(ms, l, faults), faults, n - 1);
    }
  }

  /** A migration fails in one of the rounds. */
  ghost predicate Fails<C>(ms: seq<Migration<C>>, l: Loop<C>, faults: uint32 -> Faults) {
    exists n: nat :: var r := Rounds(ms, l, faults, n); r.Ended? && r.outcome.Failed?
  }

  /** The loop of upgradeAll ends exactly when some unsigned version is unregistered or a migration fails. */
  lemma LoopEndsIff<C>(ms: seq<Migration<C>>, l: Loop<C>, faults: uint32 -> Faults)
    requires Sorted(ms) && l.At?
    ensures Ends(ms, l, faults) <==> HasGap(ms) || Fails(ms, l, faults)
  {
    if HasGap(ms) {
      var gap: uint32 :| Find(ms, gap).None?;
      GapEnds(ms, l, faults, gap);
    } else if Ends(ms, l, faults) {
      var n: nat :| Rounds(ms, l, faults, n).Ended?;
      FullEndsByFailure(ms, l, faults, n);
    }
  }

  lemma GapLetsCome<C>(ms: seq<Migration<C>>, e: Engine<Schema<C>>, c: Command)
    requires HasGap(ms)
    ensures Comes(ms, e, c)
  {
    hide Rounds;
    var gap: uint32 :| Find(ms, gap).None?;
    var v := CurrentVersion(e);
    if c.All? && v < MaxVersion(ms) { GapEnds(ms, At(e, v + 1), c.faults, gap); }
  }

  lemma {:induction false} GapLetsAllCome<C>(ms: seq<Migration<C>>, e: Engine<Schema<C>>, cs: seq<Command>)
    requires HasGap(ms)
    ensures AllCome(ms, e, cs)
    decreases |cs|
  {
    hide HasGap, Comes, Run;
    if cs != [] {
      GapLetsCome(ms, e, cs[0]);
      GapLetsAllCome(ms, Run(ms, e, cs[0]), cs[1..]);
    }
  }

  // ---------------------------------------------------------------- exactly the upgrades up to the version

  /** The content after the upgrades of versions 1 to v, in order; None if one of them is refused. */
  function UpTo<C>(ms: seq<Migration<C>>, v: nat, origin: C): Option<C> {
    if v == 0 then Some(origin)
    else match UpTo(ms, v - 1, origin)
      case None => None
      case Some(below) => match Find(ms, v) case None => Some(below) case Some(m) => Apply(m.up, below)
  }

  predicate Unbroken<C>(ms: seq<Migration<C>>, v: nat) {
    forall k | 1 <= k <= v :: Find(ms, k).Some?
  }

  /** Unless one of its statements is refused, the downgrade leads back to the content before. */
  ghost predicate UndoneBy<C>(ms: seq<Migration<C>>, origin: C, m: Migration<C>) {
    m.version > 0 && UpTo(ms, m.version, origin).Some? ==>
      var undone := Apply(m.down, UpTo(ms, m.version, origin).value);
      undone.None? || undone == UpTo(ms, m.version - 1, origin)
  }

  /** Each downgrade undoes its upgrade on the content that the upgrades produce. */
  ghost predicate Inverse<C>(ms: seq<Migration<C>>, origin: C) {
    forall m {:trigger UndoneBy(ms, origin, m)} | m in ms :: UndoneBy(ms, origin, m)
  }

  lemma FindIs<C>(ms: seq<Migration<C>>, m: Migration<C>)
    requires Sorted(ms) && m in ms
    ensures Find(ms, m.version) == Some(m)
  {
    var found := Find(ms, m.version);
    assert found.Some? && found.value in ms;
    var i, j :| 0 <= i < |ms| && ms[i] == m && 0 <= j < |ms| && ms[j] == found.value;
    assert i == j;
  }

  ghost predicate Exact<C>(ms: seq<Migration<C>>, origin: C, v: int, c: C) {
    0 <= v <= MaxVersion(ms) && Unbroken(ms, v) && UpTo(ms, v, origin) == Some(c)
  }

  /** With a gap among the versions, a registered version 0 is never reached from the largest one. */
  lemma ZeroIsNotReached<C>(ms: seq<Migration<C>>, m: Migration<C>, origin: C, c: C)
    requires HasGap(ms) && Find(ms, m.version) == Some(m) && m.version == 0
    ensures !Exact(ms, origin, UINT_MAX, c)
  {
    var gap: uint32 :| Find(ms, gap).None?;
    assert gap != 0;
    assert !Unbroken(ms, UINT_MAX);
  }

  lemma ExactLeads<C>(ms: seq<Migration<C>>, origin: C, m: Migration<C>, c: C)
    requires Sorted(ms) && HasGap(ms) && m in ms && UndoneBy(ms, origin, m)
    ensures Leads((v: int, c: C) => Exact(ms, origin, v, c), m, c)
  {
    hide Apply, HasGap, Sorted;
    MaxIsGreatest(ms);
    FindIs(ms, m);
    if m.version == 0 { ZeroIsNotReached(ms, m, origin, c); } else { UnbrokenStep(ms, m.version); }
  }

  lemma UnbrokenStep<C>(ms: seq<Migration<C>>, v: nat)
    requires v > 0 && Find(ms, v).Some?
    ensures Unbroken(ms, v) <==> Unbroken(ms, v - 1)
  {
  }

  lemma ExactIsSound<C(!new)>(ms: seq<Migration<C>>, origin: C)
    requires Sorted(ms) && HasGap(ms) && Inverse(ms, origin)
    ensures Sound(ms, (v: int, c: C) => Exact(ms, origin, v, c))
  {
    hide Exact, HasGap, Sorted, UndoneBy;
    var right := (v: int, c: C) => Exact(ms, origin, v, c);
    forall m, c: C | m in ms ensures Leads(right, m, c) {
      assert UndoneBy(ms, origin, m);
      ExactLeads(ms, origin, m, c);
    }
  }

  /**
   Starting from version 0, with some unsigned version unregistered: whatever is called and whatever
   fails, the durable content is that of the upgrades of versions 1 to v, where v is the durable version,
   and each of these is registered.
   */
  lemma ContentIsUpToVersion<C(!new)>(ms: seq<Migration<C>>, origin: C, cs: seq<Command>)
    requires Sorted(ms) && HasGap(ms) && Inverse(ms, origin)
    ensures AllCome(ms, Engine(Schema(0, origin), None), cs)
    ensures var d := RunAll(ms, Engine(Schema(0, origin), None), cs).Durable();
            0 <= d.version <= MaxVersion(ms) && Unbroken(ms, d.version) && UpTo(ms, d.version, origin) == Some(d.tables)
  {
    hide HasGap, Sound, Inverse, AllCome, RunAll, Sorted;
    var right := (v: int, c: C) => Exact(ms, origin, v, c);
    GapLetsAllCome(ms, Engine(Schema(0, origin), None), cs);
    ExactIsSound(ms, origin);
    assert Describes(right, Schema(0, origin));
    VersionDescribesContent(ms, right, Engine(Schema(0, origin), None), cs);
  }

  // ---------------------------------------------------------------- upgradeAll against upgradeOne

  /** upgradeOne again and again, until the maximum is reached or one of them fails. */
  ghost function Ones<C>(ms: seq<Migration<C>>, e: Engine<Schema<C>>, faults: uint32 -> Faults)
    : (Engine<Schema<C>>, Outcome)
    decreases MaxVersion(ms) - CurrentVersion(e)
  {
    var v := CurrentVersion(e);
    if v >= MaxVersion(ms) then (e, Done)
    else
      var (e', outcome) := UpgradeOne(ms, e, faults(v + 1).(read := false));
      if outcome.Done? then
        AttemptApplies(e, Find(ms, v + 1).value.up, v + 1, faults(v + 1).(read := false));
        Ones(ms, e', faults)
      else (e', outcome)
  }

  lemma ReadDoesNotMatter<C>(e: Engine<Schema<C>>, script: seq<Step<C>>, target: int, f: Faults)
    ensures Attempt(e, script, target, f.(read := false)) == Attempt(e, script, target, f)
  {
  }

  /** One upgradeOne does what one round of the loop does. */
  lemma OneIsARound<C>(ms: seq<Migration<C>>, e: Engine<Schema<C>>, faults: uint32 -> Faults)
    requires CurrentVersion(e) == e.content.version < MaxVersion(ms)
    ensures var v := CurrentVersion(e);
            var next := Round(ms, At(e, v + 1), faults);
            if next.At? then next.target == Increment(v + 1) && next.engine.snapshot.None? && next.engine.content.version == v + 1
                             && Ones(ms, e, faults) == Ones(ms, next.engine, faults)
            else Ones(ms, e, faults) == (next.engine, next.outcome) && !next.outcome.Done?
  {
    hide Attempt;
    var v := CurrentVersion(e);
    var f := faults(v + 1);
    if Find(ms, v + 1).Some? {
      ReadDoesNotMatter(e, Find(ms, v + 1).value.up, v + 1, f);
      AttemptApplies(e, Find(ms, v + 1).value.up, v + 1, f);
    }
  }

  /**
   The loop of upgradeAll leaves the same engine as repeated upgradeOne, and stops at the same version
   for the same reason, within one round for each version to go and one more. The one exception is a
   complete upgrade to a largest version of 2^32 - 1: there the loop has done the same, and goes on with
   version 0.
   */
  lemma {:induction false} LoopIsOnes<C>(ms: seq<Migration<C>>, e: Engine<Schema<C>>, faults: uint32 -> Faults)
    requires CurrentVersion(e) == e.content.version < MaxVersion(ms)
    ensures var v := CurrentVersion(e);
            var (engine, outcome) := Ones(ms, e, faults);
            if outcome.Done? && MaxVersion(ms) == UINT_MAX
            then Rounds(ms, At(e, v + 1), faults, MaxVersion(ms) - v) == At(engine, 0)
            else Rounds(ms, At(e, v + 1), faults, MaxVersion(ms) - v + 1) == Ended(engine, outcome)
    decreases MaxVersion(ms) - e.content.version
  {
    hide Round, Ones;
    var v := CurrentVersion(e);
    var next := Round(ms, At(e, v + 1), faults);
    OneIsARound(ms, e, faults);
    if next.Ended? {
      EndStays(ms, next, faults, MaxVersion(ms) - v);
    } else if v + 1 < MaxVersion(ms) {
      LoopIsOnes(ms, next.engine, faults);
    } else {
      AtTheMaximum(ms, next, faults);
    }
  }

  lemma AtTheMaximum<C>(ms: seq<Migration<C>>, l: Loop<C>, faults: uint32 -> Faults)
    requires l.At? && l.engine.content.version == MaxVersion(ms) && l.target == Increment(MaxVersion(ms))
    ensures Ones(ms, l.engine, faults) == (l.engine, Done)
    ensures Rounds(ms, l, faults, 0) == l
    ensures MaxVersion(ms) < UINT_MAX ==> Rounds(ms, l, faults, 1) == Ended(l.engine, Done)
  {
    assert Rounds(ms, Round(ms, l, faults), faults, 0) == Round(ms, l, faults);
  }

  /** The version before the target is the durable one, and not beyond the maximum. */
  ghost predicate Below<C>(ms: seq<Migration<C>>, e: Engine<Schema<C>>, target: int) {
    0 <= target <= UINT_MAX && e.Durable().version == Decrement(target) <= MaxVersion(ms)
  }

  /** Where the loop has ended, and why. */
  ghost predicate EndsAs<C>(ms: seq<Migration<C>>, l: Loop<C>) {
    l.Ended? ==>
      match l.outcome
      case Done => l.engine.Durable().version == MaxVersion(ms) && MaxVersion(ms) < UINT_MAX
      case NotFound(v) => Below(ms, l.engine, v) && Find(ms, v).None?
      case Failed(v) => Below(ms, l.engine, v) && Find(ms, v).Some?
      case _ => false
  }

  lemma {:induction false} RoundsEndAs<C>(ms: seq<Migration<C>>, l: Loop<C>, faults: uint32 -> Faults, n: nat)
    requires EndsAs(ms, l) && (l.At? ==> l.engine.snapshot.None? && Below(ms, l.engine, l.target))
    ensures EndsAs(ms, Rounds(ms, l, faults, n))
    decreases n
  {
    hide Attempt;
    if n > 0 {
      if l.At? && Find(ms, l.target).Some? {
        AttemptApplies(l.engine, Find(ms, l.target).value.up, l.target, faults(l.target));
      }
      RoundsEndAs(ms, Round(ms, l, faults), faults, n - 1);
    }
  }

  /**
   What upgradeAll says: on success the durable version is the largest one, which then is below 2^32 - 1;
   otherwise it is the one before the version, registered or not, that the exception names.
   */
  lemma UpgradeAllTells<C>(ms: seq<Migration<C>>, e: Engine<Schema<C>>, faults: uint32 -> Faults)
    requires 0 <= e.content.version < MaxVersion(ms) && e.snapshot.None? && Terminates(ms, e, false, faults)
    ensures EndsAs(ms, Ended(UpgradeAll(ms, e, false, faults).0, UpgradeAll(ms, e, false, faults).1))
  {
    var l := At(e, e.content.version + 1);
    var n: nat :| Rounds(ms, l, faults, n).Ended?;
    EndIs(ms, l, faults, n);
    RoundsEndAs(ms, l, faults, n);
  }
}
