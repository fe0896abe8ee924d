/** What each call of the migration manager answers, and when, in terms of the registered migrations alone. */
module MigrationAnswers {
  import opened Sqlite
  import opened Migrations
  import opened MigrationRuns

  /** Nothing fails of its own accord on the way through a script and its transaction. */
  predicate NoFault(f: Faults, statements: nat) {
    !f.begin && !f.setVersion && !f.commit && (f.script.Some? ==> f.script.value >= statements)
  }

  lemma {:induction false} RunsIff<C>(c: C, script: seq<Step<C>>, i: nat, fault: Option<nat>)
    requires i <= |script| && (fault.Some? ==> fault.value >= i)
    ensures RunFrom(c, script, i, fault).1 <==> Apply(script[i..], c).Some? && (fault.Some? ==> fault.value >= |script|)
    decreases |script| - i
  {
    if i < |script| {
      assert script[i..][0] == script[i] && script[i..][1..] == script[i + 1..];
      if script[i](c).Some? && fault != Some(i) { RunsIff(script[i](c).value, script, i + 1, fault); }
    }
  }

  /**
   A migration succeeds exactly when no transaction is open, nothing fails of its own accord and the engine
   refuses none of its statements; then content and version are stored together. Else nothing is.
   */
  lemma AttemptSucceedsIff<C>(e: Engine<Schema<C>>, script: seq<Step<C>>, target: int, f: Faults)
    ensures var (after, ok) := Attempt(e, script, target, f);
            && (ok <==> e.snapshot.None? && NoFault(f, |script|) && Apply(script, e.content.tables).Some?)
            && (ok ==> after == Engine(Schema(target, Apply(script, e.content.tables).value), None))
            && (!ok ==> after.Durable() == e.Durable())
  {
    AttemptApplies(e, script, target, f);
    RunsIff(e.content.tables, script, 0, f.script);
    assert script[0..] == script;
    hide RunFrom, Apply;
  }

  /** What a script has done when it stops is what some of its first statements do. */
  lemma {:induction false} RunIsPrefix<C>(c: C, script: seq<Step<C>>, i: nat, fault: Option<nat>) returns (k: nat)
    requires i <= |script|
    ensures i <= k <= |script| && Apply(script[i..k], c) == Some(RunFrom(c, script, i, fault).0)
    decreases |script| - i
  {
    if i == |script| || fault == Some(i) || script[i](c).None? {
      k := i;
    } else {
      k := RunIsPrefix(script[i](c).value, script, i + 1, fault);
      assert script[i..k][0] == script[i] && script[i..k][1..] == script[i + 1..k];
    }
  }

  /**
   The engine is left inside a transaction exactly when the migration fails after BEGIN and both attempts
   to roll back fail too; it then shows some of the first statements. Else a failure leaves it as it was.
   */
  lemma LeftOpenIff<C>(e: Engine<Schema<C>>, script: seq<Step<C>>, target: int, f: Faults)
    ensures var (after, ok) := Attempt(e, script, target, f);
            && (e.snapshot.Some? ==> !ok && after == e)
            && (e.snapshot.None? ==> (after.snapshot.Some? <==> !ok && !f.begin && f.rollback && f.destroy))
            && (e.snapshot.None? && after.snapshot.Some? ==>
                  after.snapshot == Some(e.content)
                  && exists k :: 0 <= k <= |script| && Apply(script[..k], e.content.tables) == Some(after.content.tables))
            && (!ok && after.snapshot.None? ==> after == e)
  {
    var k := RunIsPrefix(e.content.tables, script, 0, f.script);
    assert script[0..k] == script[..k];
    hide RunFrom, Apply;
  }

  // ---------------------------------------------------------------- the registry

  predicate Registered<C>(ms: seq<Migration<C>>, version: int) {
    exists i | 0 <= i < |ms| :: ms[i].version == version
  }

  /** The stored number modulo 2^32 is the version. */
  lemma VersionIsWrapped<C>(e: Engine<Schema<C>>)
    ensures 0 <= CurrentVersion(e) < 0x1_0000_0000
    ensures (e.content.version - CurrentVersion(e)) % 0x1_0000_0000 == 0
  {
    var x := e.content.version;
    if !(0 <= x <= UINT_MAX) { assert x == x / 0x1_0000_0000 * 0x1_0000_0000 + x % 0x1_0000_0000; }
  }

  lemma FoundIff<C>(ms: seq<Migration<C>>, version: int)
    ensures Find(ms, version).Some? <==> Registered(ms, version)
  {
    assert forall i | 0 <= i < |ms| :: ms[i] in ms;
    if Find(ms, version).Some? { assert Find(ms, version).value in ms; }
  }

  lemma FoundIs<C>(ms: seq<Migration<C>>, i: nat)
    requires Sorted(ms) && i < |ms|
    ensures Find(ms, ms[i].version) == Some(ms[i])
  {
    FindIs(ms, ms[i]);
  }

  lemma BelowMaxIff<C>(ms: seq<Migration<C>>, version: nat)
    requires Sorted(ms)
    ensures version < MaxVersion(ms) <==> exists i | 0 <= i < |ms| :: version < ms[i].version
  {
    if version < MaxVersion(ms) {
      assert ms[|ms| - 1].version == MaxVersion(ms);
    }
  }

  // ---------------------------------------------------------------- one step up, one step down

  /** The i-th migration goes through, and its statements leave this content. */
  ghost predicate Through<C>(e: Engine<Schema<C>>, script: seq<Step<C>>, f: Faults) {
    e.snapshot.None? && NoFault(f, |script|) && Apply(script, e.content.tables).Some?
  }

  /**
   downgradeOne, v being the stored version: "already at version 0" exactly at 0; "not found" exactly above
   0 with no migration of version v; done exactly when that migration's `down` goes through, and then
   version v - 1 is stored with what it leaves; failed otherwise. Unless it is done nothing durable changes.
   */
  lemma DowngradeOneAnswers<C>(ms: seq<Migration<C>>, e: Engine<Schema<C>>, f: Faults)
    requires Sorted(ms) && !f.read
    ensures var v, (after, outcome) := CurrentVersion(e), DowngradeOne(ms, e, f);
            && (outcome == AtZero <==> v == 0)
            && (outcome == NotFound(v) <==> v > 0 && !Registered(ms, v))
            && (outcome == Done <==> v > 0 && exists i :: 0 <= i < |ms| && ms[i].version == v && Through(e, ms[i].down, f))
            && (outcome in {AtZero, NotFound(v), Done, Failed(v)})
            && (outcome != Done ==> after.Durable() == e.Durable())
            && (forall i | 0 <= i < |ms| && ms[i].version == v && outcome == Done ::
                  Apply(ms[i].down, e.content.tables).Some?
                  && after == Engine(Schema(v - 1, Apply(ms[i].down, e.content.tables).value), None))
  {
    var v: int := CurrentVersion(e);
    FoundIff(ms, v);
    FoundForAll(ms, v);
    if Find(ms, v).Some? {
      AttemptSucceedsIff(e, Find(ms, v).value.down, v - 1, f);
      FoundAt(ms, v);
    }
    hide Attempt, Apply, NoFault, Find, Sorted, CurrentVersion, Registered;
  }

  /**
   upgradeOne, v being the stored version: "already at latest" exactly when no migration has a larger
   version; "not found" exactly when one has, but none version v + 1; done exactly when that one's `up`
   goes through; failed otherwise. Unless it is done nothing durable changes.
   */
  lemma UpgradeOneAnswers<C>(ms: seq<Migration<C>>, e: Engine<Schema<C>>, f: Faults)
    requires Sorted(ms) && !f.read
    ensures var v, (after, outcome) := CurrentVersion(e), UpgradeOne(ms, e, f);
            && (outcome == AlreadyLatest <==> forall i | 0 <= i < |ms| :: ms[i].version <= v)
            && (outcome == NotFound(v + 1) <==> (exists i | 0 <= i < |ms| :: v < ms[i].version) && !Registered(ms, v + 1))
            && (outcome == Done <==> exists i :: 0 <= i < |ms| && ms[i].version == v + 1 && Through(e, ms[i].up, f))
            && (outcome in {AlreadyLatest, NotFound(v + 1), Done, Failed(v + 1)})
            && (outcome != Done ==> after.Durable() == e.Durable())
            && (forall i | 0 <= i < |ms| && ms[i].version == v + 1 && outcome == Done ::
                  Apply(ms[i].up, e.content.tables).Some?
                  && after == Engine(Schema(v + 1, Apply(ms[i].up, e.content.tables).value), None))
  {
    var v: int := CurrentVersion(e);
    BelowMaxIff(ms, v);
    FoundIff(ms, v + 1);
    FoundForAll(ms, v + 1);
    if Find(ms, v + 1).Some? {
      UpgradeThrough(ms, e, f);
      FoundAt(ms, v + 1);
    }
    hide Attempt, Apply, NoFault, Find, Sorted, CurrentVersion, MaxVersion, Registered, Through;
    assert v < MaxVersion(ms) <==> !forall i | 0 <= i < |ms| :: ms[i].version <= v;
  }

  /** With the next migration registered and versions to go. */
  lemma UpgradeThrough<C>(ms: seq<Migration<C>>, e: Engine<Schema<C>>, f: Faults)
    requires !f.read && Find(ms, CurrentVersion(e) + 1).Some?
    ensures var v, m := CurrentVersion(e), Find(ms, CurrentVersion(e) + 1).value;
            var (after, outcome) := UpgradeOne(ms, e, f);
            v < MaxVersion(ms) ==>
              && outcome == (if Through(e, m.up, f) then Done else Failed(v + 1))
              && (Through(e, m.up, f) ==> after == Engine(Schema(v + 1, Apply(m.up, e.content.tables).value), None))
              && (!Through(e, m.up, f) ==> after.Durable() == e.Durable())
  {
    hide Attempt, Apply, NoFault, Find, MaxVersion;
    AttemptSucceedsIff(e, Find(ms, CurrentVersion(e) + 1).value.up, CurrentVersion(e) + 1, f);
  }

  lemma FoundForAll<C>(ms: seq<Migration<C>>, version: int)
    requires Sorted(ms)
    ensures forall i | 0 <= i < |ms| && ms[i].version == version :: Find(ms, version) == Some(ms[i])
  {
    hide Find, Sorted;
    forall i | 0 <= i < |ms| && ms[i].version == version ensures Find(ms, version) == Some(ms[i]) { FoundIs(ms, i); }
  }

  lemma FoundAt<C>(ms: seq<Migration<C>>, version: int)
    requires Find(ms, version).Some?
    ensures exists i :: 0 <= i < |ms| && ms[i] == Find(ms, version).value && ms[i].version == version
  {
    assert Find(ms, version).value in ms;
  }

  /** Where the version cannot be read, and where upgradeAll has nothing to do, nothing happens. */
  lemma NothingToDo<C>(ms: seq<Migration<C>>, e: Engine<Schema<C>>, f: Faults, faults: uint32 -> Faults)
    requires Sorted(ms)
    ensures f.read ==> UpgradeOne(ms, e, f) == DowngradeOne(ms, e, f) == (e, ReadFailed)
    ensures Terminates(ms, e, true, faults) && UpgradeAll(ms, e, true, faults) == (e, ReadFailed)
    ensures (forall i | 0 <= i < |ms| :: ms[i].version <= CurrentVersion(e)) ==>
              Terminates(ms, e, false, faults) && UpgradeAll(ms, e, false, faults) == (e, AlreadyLatest)
  {
    BelowMaxIff(ms, CurrentVersion(e));
  }
}
