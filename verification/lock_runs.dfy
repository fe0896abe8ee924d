/** Who can take the mutex, and whole transactions from their first step to their last. */
module LockRuns {
  import opened Sqlite
  import opened Locking

  // ---------------------------------------------------------------- who gets in

  /** No thread but t is at a point where it holds the mutex in this mode. */
  ghost predicate NoOtherWriter<D>(s: State<D>, t: Tid) {
    forall u | u in s.threads && u != t :: !HoldsExclusive(s.threads[u])
  }

  ghost predicate NoOtherReader<D>(s: State<D>, t: Tid) {
    forall u | u in s.threads && u != t :: !HoldsShared(s.threads[u])
  }

  lemma HeldBySomebody<D>(s: State<D>, t: Tid)
    requires Inv(s) && t in s.threads && !HoldsExclusive(s.threads[t]) && !HoldsShared(s.threads[t])
    ensures NoOtherWriter(s, t) <==> s.exclusive.None?
    ensures NoOtherReader(s, t) <==> s.shared == {}
  {
    hide ThreadInv, DataInv, HoldsExclusive, HoldsShared;
    if s.shared != {} {
      var u :| u in s.shared;
      assert u in s.threads && HoldsShared(s.threads[u]);
    }
  }

  /**
   A locked operation gets past the mutex exactly when its thread is inside a transaction, or when no other
   thread has it exclusively and, for an exclusive operation, none has it shared either. So readers never
   keep each other out.
   */
  lemma AcquiresIff<D>(s: State<D>, t: Tid)
    requires Inv(s) && t in s.threads && s.threads[t].op.Entered?
    ensures Enabled(s, Acquire(t))
            <==> s.threads[t].flag || (NoOtherWriter(s, t) && (s.threads[t].op.kind.Exclusive? ==> NoOtherReader(s, t)))
  {
    assert ThreadInv(s.threads[t]);
    if !s.threads[t].flag { HeldBySomebody(s, t); }
    hide Inv, NoOtherWriter, NoOtherReader;
  }

  /** A transaction gets the mutex exactly when no other thread has it in either mode. */
  lemma LocksIff<D>(s: State<D>, t: Tid)
    requires Inv(s) && t in s.threads && s.threads[t].tx.Locking?
    ensures Enabled(s, LockTx(t)) <==> NoOtherWriter(s, t) && NoOtherReader(s, t)
  {
    assert ThreadInv(s.threads[t]);
    HeldBySomebody(s, t);
    hide Inv, NoOtherWriter, NoOtherReader;
  }

  // ---------------------------------------------------------------- whole transactions

  lemma {:induction false} RunsJoin<D>(s: State<D>, a: seq<Event<D>>, b: seq<Event<D>>)
    requires Valid(s, a) && Valid(After(s, a), b)
    ensures Valid(s, a + b) && After(s, a + b) == After(After(s, a), b)
    decreases |a|
  {
    hide Enabled, Next;
    if a == [] {
      assert a + b == b;
    } else {
      assert (a + b)[1..] == a[1..] + b && (a + b)[0] == a[0];
      RunsJoin(Next(s, a[0]), a[1..], b);
    }
  }

  lemma ThreeSteps<D>(s: State<D>, a: Event<D>, b: Event<D>, c: Event<D>)
    requires Enabled(s, a) && Enabled(Next(s, a), b) && Enabled(Next(Next(s, a), b), c)
    ensures Valid(s, [a, b, c]) && After(s, [a, b, c]) == Next(Next(Next(s, a), b), c)
  {
    hide Enabled, Next;
    var s1, s2 := Next(s, a), Next(Next(s, a), b);
    assert [a, b, c][1..] == [b, c] && [b, c][1..] == [c] && [c][1..] == [];
    assert Valid(Next(s2, c), []) && After(Next(s2, c), []) == Next(s2, c);
    assert Valid(s2, [c]) && After(s2, [c]) == Next(s2, c);
    assert Valid(s1, [b, c]) && After(s1, [b, c]) == Next(s2, c);
  }

  /** One statement inside a transaction, from the call to the return. */
  function Operation<D>(t: Tid, stmt: Statement<D>): seq<Event<D>> {
    [Call(t, stmt, Exclusive), Acquire(t), Effect(t, false)] + [Finish(t)]
  }

  ghost function Noted<D>(th: Thread<D>, stmt: Statement<D>, content: D): Thread<D> {
    if stmt.Begin? then th.(base := content, writes := []) else if stmt.Sql? then th.(writes := th.writes + [stmt.effect]) else th
  }

  lemma CallAndAcquire<D>(s: State<D>, t: Tid, stmt: Statement<D>)
    requires t in s.threads && s.threads[t].op.NoOp? && s.threads[t].flag && Callable(s.threads[t].tx, stmt, Exclusive)
    ensures Enabled(s, Call(t, stmt, Exclusive)) && Enabled(Next(s, Call(t, stmt, Exclusive)), Acquire(t))
    ensures Next(Next(s, Call(t, stmt, Exclusive)), Acquire(t))
            == s.(threads := s.threads[t := s.threads[t].(op := Running(stmt, Exclusive, false))])
  {
    hide Callable;
    assert Next(s, Call(t, stmt, Exclusive)).threads[t] == s.threads[t].(op := Entered(stmt, Exclusive, false));
  }

  lemma EffectAndFinish<D>(s: State<D>, t: Tid, th: Thread<D>, stmt: Statement<D>)
    requires t in s.threads && s.threads[t] == th.(op := Running(stmt, Exclusive, false)) && Exec(s.engine, stmt, false).1
    ensures Enabled(s, Effect(t, false)) && Enabled(Next(s, Effect(t, false)), Finish(t))
    ensures Next(Next(s, Effect(t, false)), Finish(t))
            == s.(threads := s.threads[t := Resume(Noted(th, stmt, s.engine.content).(op := Finished(stmt, Exclusive, false, true)))],
                  engine := Exec(s.engine, stmt, false).0)
  {
    var th3 := Noted(th, stmt, s.engine.content).(op := Finished(stmt, Exclusive, false, true));
    assert Next(s, Effect(t, false)) == s.(threads := s.threads[t := th3], engine := Exec(s.engine, stmt, false).0);
    hide Exec, Resume;
  }

  lemma OneStep<D>(s: State<D>, e: Event<D>)
    requires Enabled(s, e)
    ensures Valid(s, [e]) && After(s, [e]) == Next(s, e)
  {
    hide Enabled, Next;
    assert [e][1..] == [];
    assert Valid(Next(s, e), []) && After(Next(s, e), []) == Next(s, e);
  }

  /** A statement that does not fail, inside a transaction of its thread. */
  lemma OperationRuns<D>(s: State<D>, t: Tid, stmt: Statement<D>)
    requires t in s.threads && s.threads[t].op.NoOp? && s.threads[t].flag && Callable(s.threads[t].tx, stmt, Exclusive)
    requires Exec(s.engine, stmt, false).1
    ensures Valid(s, Operation(t, stmt))
    ensures After(s, Operation(t, stmt))
            == s.(threads := s.threads[t := Resume(Noted(s.threads[t], stmt, s.engine.content)
                                                     .(op := Finished(stmt, Exclusive, false, true)))],
                  engine := Exec(s.engine, stmt, false).0)
  {
    hide Next, Enabled, Exec, Resume, Noted, Callable;
    CallAndAcquire(s, t, stmt);
    var s2 := s.(threads := s.threads[t := s.threads[t].(op := Running(stmt, Exclusive, false))]);
    EffectAndFinish(s2, t, s.threads[t], stmt);
    ThreeSteps(s, Call(t, stmt, Exclusive), Acquire(t), Effect(t, false));
    OneStep(Next(s2, Effect(t, false)), Finish(t));
    RunsJoin(s, [Call(t, stmt, Exclusive), Acquire(t), Effect(t, false)], [Finish(t)]);
  }

  /** The state with this thread in place of the one there, and with this engine and owner. */
  ghost function With<D>(s: State<D>, t: Tid, th: Thread<D>, exclusive: Option<Tid>, engine: Engine<D>): State<D> {
    s.(threads := s.threads[t := th], exclusive := exclusive, engine := engine)
  }

  lemma WithTwice<D>(s: State<D>, t: Tid, th: Thread<D>, ex: Option<Tid>, e: Engine<D>, th': Thread<D>, ex': Option<Tid>, e': Engine<D>)
    ensures With(With(s, t, th, ex, e), t, th', ex', e') == With(s, t, th', ex', e')
    ensures With(s, t, th, ex, e).threads[t] == th
  {
  }

  function Start<D>(t: Tid): seq<Event<D>> {
    [BeginTx(t), LockTx(t), SetFlag(t)] + Operation(t, Begin)
  }

  lemma EntersTransaction<D>(s: State<D>, t: Tid)
    requires t in s.threads && Idle(s.threads[t]) && s.exclusive.None? && s.shared == {}
    ensures var th := s.threads[t];
            && Enabled(s, BeginTx(t)) && Enabled(Next(s, BeginTx(t)), LockTx(t))
            && Enabled(Next(Next(s, BeginTx(t)), LockTx(t)), SetFlag(t))
            && Next(Next(Next(s, BeginTx(t)), LockTx(t)), SetFlag(t))
               == With(s, t, th.(tx := Beginning, flag := true), Some(t), s.engine)
  {
    var th := s.threads[t];
    assert Next(s, BeginTx(t)) == With(s, t, th.(tx := Tx.Locking), s.exclusive, s.engine);
    assert Next(Next(s, BeginTx(t)), LockTx(t)) == With(s, t, th.(tx := Locked), Some(t), s.engine);
  }

  lemma BeginRuns<D>(s: State<D>, t: Tid)
    requires t in s.threads && Idle(s.threads[t]) && s.exclusive.None? && s.shared == {} && s.engine.snapshot.None?
    ensures var c := s.engine.content;
            && Valid(s, Start(t))
            && After(s, Start(t)) == With(s, t, Thread(true, Open(true), NoOp, c, []), Some(t), Engine(c, Some(c)))
  {
    var th1 := s.threads[t].(tx := Beginning, flag := true);
    var s1 := With(s, t, th1, Some(t), s.engine);
    EntersTransaction(s, t);
    assert Callable(th1.tx, Statement<D>.Begin, Exclusive);
    hide Next, Enabled, Callable;
    ThreeSteps(s, BeginTx(t), LockTx(t), SetFlag(t));
    OperationRuns(s1, t, Begin);
    RunsJoin(s, [BeginTx(t), LockTx(t), SetFlag(t)], Operation(t, Begin));
  }

  function Writes<D>(t: Tid, effects: seq<D -> D>): seq<Event<D>> {
    if effects == [] then [] else Operation(t, Sql(effects[0])) + Writes(t, effects[1..])
  }

  lemma {:induction false} WritesRun<D>(s: State<D>, t: Tid, base: D, before: seq<D -> D>, effects: seq<D -> D>)
    requires t in s.threads && s.threads[t] == Thread(true, Open(true), NoOp, base, before)
    requires s.engine == Engine(ApplyAll(before, base), Some(base))
    ensures Valid(s, Writes(t, effects))
    ensures After(s, Writes(t, effects))
            == With(s, t, Thread(true, Open(true), NoOp, base, before + effects), s.exclusive,
                    Engine(ApplyAll(effects, ApplyAll(before, base)), Some(base)))
    decreases |effects|
  {
    if effects == [] {
      assert before + effects == before;
      assert s.threads[t := s.threads[t]] == s.threads;
    } else {
      var f, rest := effects[0], effects[1..];
      var mid := With(s, t, Thread(true, Open(true), NoOp, base, before + [f]), s.exclusive, Engine(f(ApplyAll(before, base)), Some(base)));
      WriteRuns(s, t, base, before, f);
      ApplyAllConcat(before, [f], base);
      hide Valid, After, Operation;
      assert before + [f] + rest == before + effects;
      WritesRun(mid, t, base, before + [f], rest);
      RunsJoin(s, Operation(t, Sql(f)), Writes(t, rest));
    }
  }

  lemma WriteRuns<D>(s: State<D>, t: Tid, base: D, before: seq<D -> D>, f: D -> D)
    requires t in s.threads && s.threads[t] == Thread(true, Open(true), NoOp, base, before) && s.engine.snapshot == Some(base)
    ensures Valid(s, Operation(t, Sql(f)))
    ensures After(s, Operation(t, Sql(f)))
            == With(s, t, Thread(true, Open(true), NoOp, base, before + [f]), s.exclusive, Engine(f(s.engine.content), Some(base)))
  {
    hide Valid, After, Operation;
    assert Callable(s.threads[t].tx, Sql(f), Exclusive);
    OperationRuns(s, t, Sql(f));
  }

  /** The end of the destructor. */
  function Leaving<D>(t: Tid): seq<Event<D>> {
    [ClearFlag(t)] + [UnlockTx(t)]
  }

  /** How a transaction ends: by commit(), by rollback(), or by its destructor alone. */
  datatype How = Committed | RolledBack | Dropped

  function Last<D>(how: How): Statement<D> {
    if how.Committed? then Commit else Rollback
  }

  function Ending<D>(t: Tid, how: How): seq<Event<D>> {
    if how.Dropped? then [Destroy(t)] + (Operation(t, Rollback) + Leaving(t))
    else Operation(t, Last(how)) + ([Destroy(t)] + Leaving(t))
  }

  /** The content that the end of the transaction leaves. */
  function Left<D>(e: Engine<D>, how: How): D
    requires e.snapshot.Some?
  {
    if how.Committed? then e.content else e.snapshot.value
  }

  lemma LeavingRuns<D>(s: State<D>, t: Tid)
    requires t in s.threads && s.threads[t].op.NoOp? && s.threads[t].tx == Closing(false)
    ensures Valid(s, Leaving(t))
    ensures After(s, Leaving(t)) == With(s, t, s.threads[t].(tx := NoTx, flag := false), None, s.engine)
  {
    var s1 := Next(s, ClearFlag(t));
    assert s1 == With(s, t, s.threads[t].(tx := FlagCleared, flag := false), s.exclusive, s.engine);
    assert Next(s1, UnlockTx(t)) == With(s, t, s.threads[t].(tx := NoTx, flag := false), None, s.engine);
    OneStep(s, ClearFlag(t));
    OneStep(s1, UnlockTx(t));
    hide Valid, After, Next, Enabled;
    RunsJoin(s, [ClearFlag(t)], [UnlockTx(t)]);
  }

  lemma DestroyRuns<D>(s: State<D>, t: Tid, active: bool)
    requires t in s.threads && s.threads[t].op.NoOp? && s.threads[t].tx == Open(active)
    ensures Valid(s, [Destroy(t)])
    ensures After(s, [Destroy(t)]) == With(s, t, s.threads[t].(tx := Closing(active)), s.exclusive, s.engine)
  {
    OneStep(s, Destroy(t));
  }

  lemma DestroyAndLeave<D>(s: State<D>, t: Tid)
    requires t in s.threads && s.threads[t].op.NoOp? && s.threads[t].tx == Open(false)
    ensures Valid(s, [Destroy(t)] + Leaving(t))
    ensures After(s, [Destroy(t)] + Leaving(t)) == With(s, t, s.threads[t].(tx := NoTx, flag := false), None, s.engine)
  {
    var closing, left := s.threads[t].(tx := Closing(false)), s.threads[t].(tx := NoTx, flag := false);
    var s1 := With(s, t, closing, s.exclusive, s.engine);
    DestroyRuns(s, t, false);
    LeavingRuns(s1, t);
    WithTwice(s, t, closing, s.exclusive, s.engine, left, None, s.engine);
    hide Valid, After, Leaving, With;
    RunsJoin(s, [Destroy(t)], Leaving(t));
  }

  ghost predicate InTransaction<D>(s: State<D>, t: Tid) {
    t in s.threads && s.threads[t].flag && s.threads[t].op.NoOp? && s.threads[t].tx == Open(true) && s.engine.snapshot.Some?
  }

  lemma EndReturns<D>(s: State<D>, t: Tid, how: How)
    requires InTransaction(s, t) && !how.Dropped?
    ensures Valid(s, Operation(t, Last(how)))
    ensures After(s, Operation(t, Last(how)))
            == With(s, t, s.threads[t].(tx := Open(false)), s.exclusive, Engine(Left(s.engine, how), None))
  {
    hide Valid, After, Operation;
    assert Callable(s.threads[t].tx, Last<D>(how), Exclusive);
    OperationRuns(s, t, Last(how));
  }

  lemma CallEnds<D>(s: State<D>, t: Tid, how: How)
    requires InTransaction(s, t) && !how.Dropped?
    ensures Valid(s, Ending(t, how))
    ensures After(s, Ending(t, how)) == With(s, t, s.threads[t].(tx := NoTx, flag := false), None, Engine(Left(s.engine, how), None))
  {
    var engine := Engine(Left(s.engine, how), None);
    var ended, left := s.threads[t].(tx := Open(false)), s.threads[t].(tx := NoTx, flag := false);
    var s1 := With(s, t, ended, s.exclusive, engine);
    EndReturns(s, t, how);
    hide Valid, After, Operation, Leaving, Last, Left;
    DestroyAndLeave(s1, t);
    WithTwice(s, t, ended, s.exclusive, engine, left, None, engine);
    hide With;
    RunsJoin(s, Operation(t, Last(how)), [Destroy(t)] + Leaving(t));
  }

  lemma DestructorRollsBack<D>(s: State<D>, t: Tid)
    requires t in s.threads && s.threads[t].flag && s.threads[t].op.NoOp? && s.threads[t].tx == Closing(true) && s.engine.snapshot.Some?
    ensures Valid(s, Operation(t, Rollback))
    ensures After(s, Operation(t, Rollback))
            == With(s, t, s.threads[t].(tx := Closing(false)), s.exclusive, Engine(s.engine.snapshot.value, None))
  {
    hide Valid, After, Operation;
    assert Callable(s.threads[t].tx, Statement<D>.Rollback, Exclusive);
    OperationRuns(s, t, Rollback);
  }

  lemma DropEnds<D>(s: State<D>, t: Tid)
    requires InTransaction(s, t)
    ensures Valid(s, Ending(t, Dropped))
    ensures After(s, Ending(t, Dropped))
            == With(s, t, s.threads[t].(tx := NoTx, flag := false), None, Engine(s.engine.snapshot.value, None))
  {
    var th, engine := s.threads[t], Engine(s.engine.snapshot.value, None);
    var closing, closed, left := th.(tx := Closing(true)), th.(tx := Closing(false)), th.(tx := NoTx, flag := false);
    var s1, s2 := With(s, t, closing, s.exclusive, s.engine), With(s, t, closed, s.exclusive, engine);
    WithTwice(s, t, closing, s.exclusive, s.engine, closed, s.exclusive, engine);
    WithTwice(s, t, closed, s.exclusive, engine, left, None, engine);
    hide Valid, After, Operation, Leaving;
    DestroyRuns(s, t, true);
    DestructorRollsBack(s1, t);
    LeavingRuns(s2, t);
    hide With;
    RunsJoin(s1, Operation(t, Rollback), Leaving(t));
    RunsJoin(s, [Destroy(t)], Operation(t, Rollback) + Leaving(t));
  }

  function Transaction<D>(t: Tid, effects: seq<D -> D>, how: How): seq<Event<D>> {
    Start(t) + (Writes(t, effects) + Ending(t, how))
  }

  /**
   An idle thread that finds the mutex free and the engine outside transactions can run a whole transaction
   with any writes: committed, it leaves all of them; rolled back or dropped, none. The thread is idle again,
   the mutex free, and nothing else has changed.
   */
  lemma WholeTransactionRuns<D>(s: State<D>, t: Tid, effects: seq<D -> D>, how: How)
    requires t in s.threads && Idle(s.threads[t]) && s.exclusive.None? && s.shared == {} && s.engine.snapshot.None?
    ensures var c := s.engine.content;
            && Valid(s, Transaction(t, effects, how))
            && After(s, Transaction(t, effects, how))
               == With(s, t, Thread(false, NoTx, NoOp, c, effects), None, Engine(if how.Committed? then ApplyAll(effects, c) else c, None))
  {
    var c, open, wrote := s.engine.content, Thread(true, Open(true), NoOp, s.engine.content, []), ApplyAll(effects, s.engine.content);
    var full, idle := Thread(true, Open(true), NoOp, c, effects), Thread(false, NoTx, NoOp, c, effects);
    var s1, s2 := With(s, t, open, Some(t), Engine(c, Some(c))), With(s, t, full, Some(t), Engine(wrote, Some(c)));
    assert ApplyAll([], c) == c && [] + effects == effects;
    hide Valid, After, Start, Writes, Ending, ApplyAll;
    BeginRuns(s, t);
    WritesRun(s1, t, c, [], effects);
    if how.Dropped? { DropEnds(s2, t); } else { CallEnds(s2, t, how); }
    WithTwice(s, t, open, Some(t), Engine(c, Some(c)), full, Some(t), Engine(wrote, Some(c)));
    WithTwice(s, t, full, Some(t), Engine(wrote, Some(c)), idle, None, Engine(if how.Committed? then wrote else c, None));
    hide With;
    RunsJoin(s1, Writes(t, effects), Ending(t, how));
    RunsJoin(s, Start(t), Writes(t, effects) + Ending(t, how));
  }

  // ---------------------------------------------------------------- outside transactions

  /** A call of one statement outside transactions. */
  function Plain<D>(t: Tid, stmt: Statement<D>, kind: Kind): seq<Event<D>> {
    [Call(t, stmt, kind), Acquire(t), Effect(t, false)] + [Finish(t)]
  }

  ghost predicate GetsIn<D>(s: State<D>, t: Tid, kind: Kind) {
    && t in s.threads && Idle(s.threads[t]) && !s.threads[t].flag
    && s.exclusive.None? && (kind.Exclusive? ==> s.shared == {}) && t !in s.shared
  }

  /** A query in either mode, or a write. */
  predicate Suits<D>(stmt: Statement<D>, kind: Kind) {
    stmt.Query? || (stmt.Sql? && kind.Exclusive?)
  }

  lemma PlainTakes<D>(s: State<D>, t: Tid, stmt: Statement<D>, kind: Kind)
    requires GetsIn(s, t, kind) && Suits(stmt, kind)
    ensures Enabled(s, Call(t, stmt, kind)) && Enabled(Next(s, Call(t, stmt, kind)), Acquire(t))
    ensures Next(Next(s, Call(t, stmt, kind)), Acquire(t))
            == s.(threads := s.threads[t := s.threads[t].(op := Running(stmt, kind, true))],
                  exclusive := if kind.Exclusive? then Some(t) else s.exclusive,
                  shared := if kind.Exclusive? then s.shared else s.shared + {t})
  {
    assert Next(s, Call(t, stmt, kind)).threads[t] == s.threads[t].(op := Entered(stmt, kind, true));
  }

  lemma PlainGives<D>(s: State<D>, t: Tid, th: Thread<D>, stmt: Statement<D>, kind: Kind)
    requires t in s.threads && Idle(th) && s.threads[t] == th.(op := Running(stmt, kind, true)) && Suits(stmt, kind)
    ensures Enabled(s, Effect(t, false)) && Enabled(Next(s, Effect(t, false)), Finish(t))
    ensures var after := Next(Next(s, Effect(t, false)), Finish(t));
            && after.exclusive == (if kind.Exclusive? then None else s.exclusive)
            && after.shared == (if kind.Exclusive? then s.shared else s.shared - {t}) && after.leaked == s.leaked
            && after.threads == s.threads[t := Noted(th, stmt, s.engine.content)]
            && after.engine == if stmt.Sql? then s.engine.(content := stmt.effect(s.engine.content)) else s.engine
  {
    var s1 := Next(s, Effect(t, false));
    assert s1.threads[t] == Noted(th, stmt, s.engine.content).(op := Finished(stmt, kind, true, true));
    assert Next(s1, Finish(t)).threads[t] == Noted(th, stmt, s.engine.content);
  }

  /**
   Outside transactions a thread that finds no writer inside can run a query, and if it finds nobody inside a
   write, which takes effect at once and for good; the mutex and the other threads are then as before.
   */
  lemma PlainRuns<D>(s: State<D>, t: Tid, stmt: Statement<D>, kind: Kind)
    requires Inv(s) && t in s.threads && Idle(s.threads[t]) && NoOtherWriter(s, t) && (kind.Exclusive? ==> NoOtherReader(s, t))
    requires Suits(stmt, kind) && s.engine.snapshot.None?
    ensures Valid(s, Plain(t, stmt, kind))
    ensures var after := After(s, Plain(t, stmt, kind));
            && t in after.threads && Idle(after.threads[t])
            && after == s.(threads := s.threads[t := after.threads[t]], engine := after.engine)
            && after.engine.Durable() == if stmt.Sql? then stmt.effect(s.engine.Durable()) else s.engine.Durable()
  {
    hide Valid, After, Enabled, Next, Inv, NoOtherWriter, NoOtherReader, Suits;
    NobodyInside(s, t, kind);
    var th := s.threads[t];
    PlainTakes(s, t, stmt, kind);
    var s2 := Next(Next(s, Call(t, stmt, kind)), Acquire(t));
    PlainGives(s2, t, th, stmt, kind);
    assert s.shared + {t} - {t} == s.shared;
    OneStep(Next(s2, Effect(t, false)), Finish(t));
    ThreeSteps(s, Call(t, stmt, kind), Acquire(t), Effect(t, false));
    RunsJoin(s, [Call(t, stmt, kind), Acquire(t), Effect(t, false)], [Finish(t)]);
  }

  lemma NobodyInside<D>(s: State<D>, t: Tid, kind: Kind)
    requires Inv(s) && t in s.threads && Idle(s.threads[t]) && NoOtherWriter(s, t) && (kind.Exclusive? ==> NoOtherReader(s, t))
    ensures GetsIn(s, t, kind)
  {
    assert ThreadInv(s.threads[t]);
    HeldBySomebody(s, t);
  }
}
