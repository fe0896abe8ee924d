/**
 The migration manager: a registry of migrations sorted by version, and upgrades and downgrades that
 each run in a transaction of their own, any statement of which may fail.
 */
module Migrations {
  import opened Sqlite
  import opened Connections

  /** The largest unsigned int, 2^32 - 1. */
  const UINT_MAX: uint32 := 0xFFFF_FFFF

  type uint32 = x: int | 0 <= x <= 0xFFFF_FFFF

  /** Conversion to unsigned int. */
  function Wrap(x: int): uint32 {
    if 0 <= x <= UINT_MAX then x else x % 0x1_0000_0000
  }

  /** A statement with its effect on the content; None is the engine's refusal, an exception. */
  type Step<!C> = C -> Option<C>

  /** `up` and `down` are the statements that the migration's methods execute, in order. */
  datatype Migration<!C> = Migration(version: uint32, up: seq<Step<C>>, down: seq<Step<C>>)

  /** The database: the one row of `.schema`, and everything else. */
  datatype Schema<C> = Schema(version: int, tables: C)

  /** What goes wrong during one migration; `script` is a statement of the migration that fails. */
  datatype Faults = Faults(read: bool, begin: bool, script: Option<nat>, setVersion: bool, commit: bool,
                           rollback: bool, destroy: bool)

  datatype Outcome = Done | ReadFailed | AlreadyLatest | AtZero | NotFound(version: int) | Failed(version: int)

  /** The stored 64-bit number is cast to unsigned int. */
  function CurrentVersion<C>(e: Engine<Schema<C>>): uint32 {
    Wrap(e.content.version)
  }

  // ---------------------------------------------------------------- the registry

  predicate Sorted<C>(ms: seq<Migration<C>>) {
    forall i, j | 0 <= i < j < |ms| :: ms[i].version < ms[j].version
  }

  function Find<C>(ms: seq<Migration<C>>, version: int): (r: Option<Migration<C>>)
    ensures r.Some? ==> r.value in ms && r.value.version == version
    ensures r.None? ==> forall m | m in ms :: m.version != version
  {
    if ms == [] then None
    else if ms[0].version == version then Some(ms[0])
    else Find(ms[1..], version)
  }

  function MaxVersion<C>(ms: seq<Migration<C>>): uint32 {
    if ms == [] then 0 else ms[|ms| - 1].version
  }

  /** Where a migration goes when the list is sorted again. */
  function InsertSorted<C>(ms: seq<Migration<C>>, m: Migration<C>): seq<Migration<C>> {
    if ms == [] || m.version < ms[0].version then [m] + ms else [ms[0]] + InsertSorted(ms[1..], m)
  }

  lemma {:induction false} InsertSortedSorts<C>(ms: seq<Migration<C>>, m: Migration<C>)
    requires Sorted(ms) && Find(ms, m.version).None?
    ensures Sorted(InsertSorted(ms, m))
    ensures forall x :: x in InsertSorted(ms, m) <==> x == m || x in ms
    ensures |InsertSorted(ms, m)| == |ms| + 1
  {
    if ms == [] || m.version < ms[0].version {
      FirstSorts(m, ms);
    } else {
      assert ms[0] in ms;
      InsertSortedSorts(ms[1..], m);
      FirstSorts(ms[0], InsertSorted(ms[1..], m));
    }
  }

  lemma FirstSorts<C>(first: Migration<C>, rest: seq<Migration<C>>)
    requires Sorted(rest) && (rest != [] ==> first.version < rest[0].version)
    ensures Sorted([first] + rest)
  {
  }

  /** There is one way to sort migrations of distinct versions, so it does not matter how it is done. */
  lemma {:induction false} SortedUnique<C>(a: seq<Migration<C>>, b: seq<Migration<C>>)
    requires Sorted(a) && Sorted(b) && (forall m :: m in a <==> m in b)
    ensures a == b
  {
    assert (a != [] ==> a[0] in b) && (b != [] ==> b[0] in a);
    if a != [] && b != [] {
      assert a[0] in b && b[0] in a;
      assert a[0] == b[0];
      forall m ensures m in a[1..] <==> m in b[1..] {
        if m in a[1..] { assert m in a && m in b && m != b[0]; }
        if m in b[1..] { assert m in b && m in a && m != a[0]; }
      }
      SortedUnique(a[1..], b[1..]);
    }
  }

  lemma MaxIsGreatest<C>(ms: seq<Migration<C>>)
    requires Sorted(ms)
    ensures forall m | m in ms :: m.version <= MaxVersion(ms)
    ensures ms != [] ==> exists m :: m in ms && m.version == MaxVersion(ms)
  {
    if ms != [] {
      assert ms[|ms| - 1] in ms;
    }
  }

  // ---------------------------------------------------------------- one migration in its transaction

  /** The content after the statements from the i-th on that ran, and whether all of them did. */
  function RunFrom<C>(c: C, script: seq<Step<C>>, i: nat, fault: Option<nat>): (C, bool)
    decreases |script| - i
  {
    if i >= |script| then (c, true)
    else if fault == Some(i) || script[i](c).None? then (c, false)
    else RunFrom(script[i](c).value, script, i + 1, fault)
  }

  /** All statements one after the other; None once one of them is refused. */
  function Apply<C>(script: seq<Step<C>>, c: C): Option<C> {
    if script == [] then Some(c)
    else match script[0](c) case None => None case Some(next) => Apply(script[1..], next)
  }

  lemma {:induction false} ApplyConcat<C>(a: seq<Step<C>>, b: seq<Step<C>>, c: C)
    ensures Apply(a + b, c) == match Apply(a, c) case None => None case Some(next) => Apply(b, next)
    decreases |a|
  {
    if a == [] {
      assert a + b == b;
    } else {
      assert (a + b)[1..] == a[1..] + b;
      if a[0](c).Some? { ApplyConcat(a[1..], b, a[0](c).value); }
    }
  }

  function Attempt<C>(e: Engine<Schema<C>>, script: seq<Step<C>>, target: int, f: Faults): (Engine<Schema<C>>, bool) {
    if f.begin || e.snapshot.Some? then (e, false)
    else
      var (after, ran) := RunFrom(e.content.tables, script, 0, f.script);
      var s := e.content.(tables := after);
      if ran && !f.setVersion && !f.commit then (Engine(s.(version := target), None), true)
      else if !f.rollback || !f.destroy then (e, false)
      else (Engine(if ran && !f.setVersion then s.(version := target) else s, Some(e.content)), false)
  }

  lemma {:induction false} RunApplies<C>(c: C, script: seq<Step<C>>, i: nat, fault: Option<nat>)
    requires i <= |script| && RunFrom(c, script, i, fault).1
    ensures Apply(script[i..], c) == Some(RunFrom(c, script, i, fault).0)
    decreases |script| - i
  {
    if i < |script| {
      assert script[i..][1..] == script[i + 1..];
      RunApplies(script[i](c).value, script, i + 1, fault);
    }
  }

  /** What success means: every statement applied in order, and the version with it. */
  lemma AttemptApplies<C>(e: Engine<Schema<C>>, script: seq<Step<C>>, target: int, f: Faults)
    ensures var (after, ok) := Attempt(e, script, target, f);
            && (ok ==> e.snapshot.None? && Apply(script, e.content.tables).Some?
                       && after == Engine(Schema(target, Apply(script, e.content.tables).value), None))
            && (!ok ==> after.Durable() == e.Durable())
  {
    if RunFrom(e.content.tables, script, 0, f.script).1 {
      RunApplies(e.content.tables, script, 0, f.script);
      assert script[0..] == script;
    }
  }

  function UpgradeOne<C>(ms: seq<Migration<C>>, e: Engine<Schema<C>>, f: Faults): (Engine<Schema<C>>, Outcome) {
    var current := CurrentVersion(e);
    if f.read then (e, ReadFailed)
    else if current >= MaxVersion(ms) then (e, AlreadyLatest)
    else match Find(ms, current + 1)
      case None => (e, NotFound(current + 1))
      case Some(m) =>
        var (e', ok) := Attempt(e, m.up, current + 1, f);
        (e', if ok then Done else Failed(current + 1))
  }

  function DowngradeOne<C>(ms: seq<Migration<C>>, e: Engine<Schema<C>>, f: Faults): (Engine<Schema<C>>, Outcome) {
    var current := CurrentVersion(e);
    if f.read then (e, ReadFailed)
    else if current == 0 then (e, AtZero)
    else match Find(ms, current)
      case None => (e, NotFound(current))
      case Some(m) =>
        var (e', ok) := Attempt(e, m.down, current - 1, f);
        (e', if ok then Done else Failed(current))
  }

  /** Unsigned counters wrap round. */
  function Increment(v: uint32): uint32 {
    if v == UINT_MAX then 0 else v + 1
  }

  function Decrement(v: uint32): uint32 {
    if v == 0 then UINT_MAX else v - 1
  }

  /** The loop of upgradeAll, before a round or after its end. */
  datatype Loop<C> = At(engine: Engine<Schema<C>>, target: uint32) | Ended(engine: Engine<Schema<C>>, outcome: Outcome)

  /** One round; `faults` gives what goes wrong at each target. */
  function Round<C>(ms: seq<Migration<C>>, l: Loop<C>, faults: uint32 -> Faults): Loop<C> {
    if l.Ended? then l
    else if l.target > MaxVersion(ms) then Ended(l.engine, Done)
    else match Find(ms, l.target)
      case None => Ended(l.engine, NotFound(l.target))
      case Some(m) =>
        var (e', ok) := Attempt(l.engine, m.up, l.target, faults(l.target));
        if ok then At(e', Increment(l.target)) else Ended(e', Failed(l.target))
  }

  function Rounds<C>(ms: seq<Migration<C>>, l: Loop<C>, faults: uint32 -> Faults, n: nat): Loop<C>
    decreases n
  {
    if n == 0 then l else Rounds(ms, Round(ms, l, faults), faults, n - 1)
  }

  /** The loop ends at all; with an unsigned counter this cannot be taken for granted. */
  ghost predicate Ends<C>(ms: seq<Migration<C>>, l: Loop<C>, faults: uint32 -> Faults) {
    exists n: nat :: Rounds(ms, l, faults, n).Ended?
  }

  lemma {:induction false} EndStays<C>(ms: seq<Migration<C>>, l: Loop<C>, faults: uint32 -> Faults, n: nat)
    requires l.Ended?
    ensures Rounds(ms, l, faults, n) == l
    decreases n
  {
    if n > 0 { EndStays(ms, l, faults, n - 1); }
  }

  lemma {:induction false} MoreRounds<C>(ms: seq<Migration<C>>, l: Loop<C>, faults: uint32 -> Faults, m: nat, n: nat)
    requires m <= n && Rounds(ms, l, faults, m).Ended?
    ensures Rounds(ms, l, faults, n) == Rounds(ms, l, faults, m)
    decreases m
  {
    if m == 0 { EndStays(ms, l, faults, n); } else { MoreRounds(ms, Round(ms, l, faults), faults, m - 1, n - 1); }
  }

  /** Where the loop ends. */
  ghost function End<C>(ms: seq<Migration<C>>, l: Loop<C>, faults: uint32 -> Faults): (r: Loop<C>)
    requires Ends(ms, l, faults)
    ensures r.Ended?
  {
    var n: nat :| Rounds(ms, l, faults, n).Ended?; Rounds(ms, l, faults, n)
  }

  lemma EndIs<C>(ms: seq<Migration<C>>, l: Loop<C>, faults: uint32 -> Faults, n: nat)
    requires Rounds(ms, l, faults, n).Ended?
    ensures Ends(ms, l, faults) && End(ms, l, faults) == Rounds(ms, l, faults, n)
  {
    var m: nat :| Rounds(ms, l, faults, m).Ended? && End(ms, l, faults) == Rounds(ms, l, faults, m);
    if m <= n { MoreRounds(ms, l, faults, m, n); } else { MoreRounds(ms, l, faults, n, m); }
  }

  /** What one round says of the end. */
  lemma RoundTells<C>(ms: seq<Migration<C>>, e: Engine<Schema<C>>, target: uint32, faults: uint32 -> Faults, n: nat)
    requires Rounds(ms, At(e, target), faults, n).Ended?
    ensures var end := Rounds(ms, At(e, target), faults, n);
            if target > MaxVersion(ms) then end == Ended(e, Done)
            else if Find(ms, target).None? then end == Ended(e, NotFound(target))
            else
              var (e', ok) := Attempt(e, Find(ms, target).value.up, target, faults(target));
              if ok then n > 0 && Rounds(ms, At(e', Increment(target)), faults, n - 1) == end else end == Ended(e', Failed(target))
  {
    hide Attempt;
    if Round(ms, At(e, target), faults).Ended? { EndStays(ms, Round(ms, At(e, target), faults), faults, n - 1); }
  }

  /** upgradeAll comes to an end. */
  ghost predicate Terminates<C>(ms: seq<Migration<C>>, e: Engine<Schema<C>>, read: bool, faults: uint32 -> Faults) {
    read || CurrentVersion(e) >= MaxVersion(ms) || Ends(ms, At(e, CurrentVersion(e) + 1), faults)
  }

  ghost function UpgradeAll<C>(ms: seq<Migration<C>>, e: Engine<Schema<C>>, read: bool, faults: uint32 -> Faults)
    : (Engine<Schema<C>>, Outcome)
    requires Terminates(ms, e, read, faults)
  {
    var current := CurrentVersion(e);
    if read then (e, ReadFailed)
    else if current >= MaxVersion(ms) then (e, AlreadyLatest)
    else
      var end := End(ms, At(e, current + 1), faults);
      (end.engine, end.outcome)
  }

  // ---------------------------------------------------------------- the manager

  class MigrationManager<C> {
    const conn: Connection<Schema<C>>
    var migrations: seq<Migration<C>>

    ghost predicate Valid()
      reads this, conn
    {
      Sorted(migrations) && conn.Settled() && !conn.inTransaction
    }

    constructor (conn: Connection<Schema<C>>)
      requires conn.Settled() && !conn.inTransaction
      ensures Valid() && this.conn == conn && migrations == []
    {
      this.conn := conn;
      migrations := [];
    }

    /** A version that is already there is refused. */
    method RegisterMigration(m: Migration<C>) returns (ok: bool)
      requires Valid()
      modifies this
      ensures Valid() && ok == Find(old(migrations), m.version).None?
      ensures migrations == if ok then InsertSorted(old(migrations), m) else old(migrations)
    {
      for i := 0 to |migrations|
        invariant forall j | 0 <= j < i :: migrations[j].version != m.version
      {
        if migrations[i].version == m.version {
          assert migrations[i] in migrations;
          return false;
        }
      }
      InsertSortedSorts(migrations, m);
      migrations := InsertSorted(migrations, m);
      ok := true;
    }

    method FindMigration(version: int) returns (r: Option<Migration<C>>)
      ensures r == Find(migrations, version)
    {
      for i := 0 to |migrations|
        invariant Find(migrations, version) == Find(migrations[i..], version)
      {
        assert migrations[i..][0] == migrations[i] && migrations[i..][1..] == migrations[i + 1..];
        if migrations[i].version == version { return Some(migrations[i]); }
      }
      r := None;
    }

    /** The statements of a migration, up to the first that fails or is refused. */
    method RunScript(script: seq<Step<C>>, fault: Option<nat>) returns (ok: bool)
      requires conn.Settled() && conn.inTransaction
      modifies conn
      ensures conn.Settled() && conn.inTransaction && conn.engine.snapshot == old(conn.engine.snapshot)
      ensures var (after, ran) := RunFrom(old(conn.engine.content.tables), script, 0, fault);
              ok == ran && conn.engine.content == old(conn.engine.content).(tables := after)
    {
      ghost var e := conn.engine;
      for i := 0 to |script|
        invariant conn.Settled() && conn.inTransaction && conn.engine.snapshot == e.snapshot
        invariant conn.engine.content.version == e.content.version
        invariant RunFrom(e.content.tables, script, 0, fault) == RunFrom(conn.engine.content.tables, script, i, fault)
      {
        var statement := script[i];
        var refused := statement(conn.engine.content.tables).None?;
        var effect := (s: Schema<C>) => match statement(s.tables) case None => s case Some(after) => s.(tables := after);
        ok := conn.Execute(Sql(effect), fault == Some(i) || refused);
        if !ok { return; }
      }
      ok := true;
    }

    /** One migration: its statements, the new version, COMMIT; on any failure ROLLBACK and an exception. */
    method Migrate(script: seq<Step<C>>, target: int, f: Faults) returns (ok: bool)
      requires Valid()
      modifies conn
      ensures Valid() && (conn.engine, ok) == Attempt(old(conn.engine), script, target, f)
    {
      var t := conn.BeginTransaction(f.begin);
      if t.None? { return false; }
      var tx := t.value;
      ok := RunScript(script, f.script);
      if ok {
        ok := conn.Execute(Sql((s: Schema<C>) => s.(version := target)), f.setVersion);
        if ok {
          ok := tx.DoCommit(f.commit);
        }
      }
      if !ok {
        var rolledBack := tx.DoRollback(f.rollback);
      }
      tx.Destroy(f.destroy);
    }

    method RunUpgradeOne(f: Faults) returns (outcome: Outcome)
      requires Valid()
      modifies conn
      ensures Valid() && (conn.engine, outcome) == UpgradeOne(migrations, old(conn.engine), f)
    {
      if f.read { return ReadFailed; }
      var current := CurrentVersion(conn.engine);
      if current >= MaxVersion(migrations) { return AlreadyLatest; }
      var target := current + 1;
      var m := FindMigration(target);
      if m.None? { return NotFound(target); }
      var ok := Migrate(m.value.up, target, f);
      outcome := if ok then Done else Failed(target);
    }

    /** Nothing is required but that the loop ends. */
    method RunUpgradeAll(read: bool, faults: uint32 -> Faults) returns (outcome: Outcome)
      requires Valid() && Terminates(migrations, conn.engine, read, faults)
      modifies conn
      ensures Valid() && (conn.engine, outcome) == UpgradeAll(migrations, old(conn.engine), read, faults)
    {
      if read { return ReadFailed; }
      var current := CurrentVersion(conn.engine);
      var maxVersion := MaxVersion(migrations);
      if current >= maxVersion { return AlreadyLatest; }
      var target: uint32 := current + 1;
      ghost var ms, start := migrations, At(conn.engine, target);
      ghost var n: nat :| Rounds(ms, start, faults, n).Ended?;
      ghost var end := Rounds(ms, start, faults, n);
      EndIs(ms, start, faults, n);
      hide Rounds, Round, Attempt;
      while target <= maxVersion
        invariant Valid() && migrations == ms && maxVersion == MaxVersion(ms)
        invariant Rounds(ms, At(conn.engine, target), faults, n) == end
        decreases n
      {
        RoundTells(ms, conn.engine, target, faults, n);
        var m := FindMigration(target);
        if m.None? { return NotFound(target); }
        var ok := Migrate(m.value.up, target, faults(target));
        if !ok { return Failed(target); }
        target := Increment(target);
        n := n - 1;
      }
      RoundTells(ms, conn.engine, target, faults, n);
      outcome := Done;
    }

    method RunDowngradeOne(f: Faults) returns (outcome: Outcome)
      requires Valid()
      modifies conn
      ensures Valid() && (conn.engine, outcome) == DowngradeOne(migrations, old(conn.engine), f)
    {
      if f.read { return ReadFailed; }
      var current := CurrentVersion(conn.engine);
      if current == 0 { return AtZero; }
      var m := FindMigration(current);
      if m.None? { return NotFound(current); }
      var ok := Migrate(m.value.down, current - 1, f);
      outcome := if ok then Done else Failed(current);
    }
  }
}
