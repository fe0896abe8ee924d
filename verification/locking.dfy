/**
 Threads that share one connection: its shared_mutex, the thread-local isInTransaction flag and the
 transaction object, one step at a time and in every interleaving.

 A locked operation goes through four steps: read the flag, take the mutex unless the flag is set,
 run the statement, give the mutex back. A transaction goes through: take the mutex, set the flag,
 BEGIN, the calls of its owner, the destructor's ROLLBACK if it is still active, clear the flag, give
 the mutex back. Any statement may fail.
 */
module Locking {
  import opened Sqlite

  type Tid = nat

  datatype Kind = Shared | Exclusive

  /** A locked operation in progress; `takes` is m_shouldLock. */
  datatype Op<!D> =
    | NoOp
    | Entered(stmt: Statement<D>, kind: Kind, takes: bool)
    | Running(stmt: Statement<D>, kind: Kind, takes: bool)
    | Finished(stmt: Statement<D>, kind: Kind, takes: bool, ok: bool)

  /** Where the thread is in the life of its transaction object. */
  datatype Tx =
    | NoTx
    | Locking
    | Locked
    | Beginning
    | Open(active: bool)
    | Closing(active: bool)
    | FlagCleared
    | Wedged

  /** `base` and `writes` record the content found by the last BEGIN and the writes that succeeded since. */
  datatype Thread<!D> = Thread(flag: bool, tx: Tx, op: Op<D>, base: D, writes: seq<D -> D>)

  /** `leaked`: some destructor's ROLLBACK failed, so the engine is left inside a transaction nobody owns. */
  datatype State<!D> = State(threads: map<Tid, Thread<D>>, exclusive: Option<Tid>, shared: set<Tid>,
                             engine: Engine<D>, leaked: bool)

  datatype Event<!D> =
    | Call(t: Tid, stmt: Statement<D>, kind: Kind)
    | Acquire(t: Tid)
    | Effect(t: Tid, fails: bool)
    | Finish(t: Tid)
    | BeginTx(t: Tid)
    | LockTx(t: Tid)
    | SetFlag(t: Tid)
    | Destroy(t: Tid)
    | ClearFlag(t: Tid)
    | UnlockTx(t: Tid)
    | NestTx(t: Tid)

  /** Which calls the code at this point may issue. */
  ghost predicate Callable<D>(tx: Tx, stmt: Statement<D>, kind: Kind) {
    match stmt
    case Query => tx.NoTx? || tx.Open?
    case Sql(_) => kind.Exclusive? && (tx.NoTx? || tx.Open?)
    case Begin => kind.Exclusive? && tx.Beginning?
    case Commit => kind.Exclusive? && tx == Open(true)
    case Rollback => kind.Exclusive? && (tx == Open(true) || tx == Closing(true))
  }

  ghost predicate Free<D>(s: State<D>, kind: Kind) {
    s.exclusive.None? && (kind.Exclusive? ==> s.shared == {})
  }

  ghost predicate Enabled<D>(s: State<D>, e: Event<D>) {
    && e.t in s.threads
    && var th := s.threads[e.t];
       match e
       case Call(_, stmt, kind) => th.op.NoOp? && Callable(th.tx, stmt, kind)
       case Acquire(_) => th.op.Entered? && (th.op.takes ==> Free(s, th.op.kind))
       case Effect(_, _) => th.op.Running?
       case Finish(_) => th.op.Finished?
       case BeginTx(_) => th.op.NoOp? && th.tx.NoTx?
       case LockTx(_) => th.tx.Locking? && Free(s, Exclusive)
       case SetFlag(_) => th.tx.Locked?
       case Destroy(_) => th.op.NoOp? && th.tx.Open?
       case ClearFlag(_) => th.op.NoOp? && th.tx == Closing(false)
       case UnlockTx(_) => th.tx.FlagCleared?
       case NestTx(_) => th.op.NoOp? && th.tx.Open?
  }

  /** What the code does once a statement has returned or thrown. */
  ghost function Resume<D>(th: Thread<D>): Thread<D>
    requires th.op.Finished?
  {
    var idle := th.(op := NoOp);
    match th.tx
    case Beginning => if th.op.ok then idle.(tx := Open(true)) else idle.(tx := FlagCleared, flag := false)
    case Open(active) => if th.op.ok && (th.op.stmt.Commit? || th.op.stmt.Rollback?) then idle.(tx := Open(false)) else idle
    case Closing(_) => idle.(tx := Closing(false))
    case _ => idle
  }

  ghost function Next<D>(s: State<D>, e: Event<D>): State<D>
    requires Enabled(s, e)
  {
    var t := e.t;
    var th := s.threads[t];
    match e
    case Call(_, stmt, kind) =>
      s.(threads := s.threads[t := th.(op := Entered(stmt, kind, !th.flag))])
    case Acquire(_) =>
      var s1 := s.(threads := s.threads[t := th.(op := Running(th.op.stmt, th.op.kind, th.op.takes))]);
      if !th.op.takes then s1
      else if th.op.kind.Exclusive? then s1.(exclusive := Some(t))
      else s1.(shared := s.shared + {t})
    case Effect(_, fails) =>
      var (engine, ok) := Exec(s.engine, th.op.stmt, fails);
      var th1 := th.(op := Finished(th.op.stmt, th.op.kind, th.op.takes, ok));
      var th2 := if ok && th.op.stmt.Begin? then th1.(base := s.engine.content, writes := [])
                 else if ok && th.op.stmt.Sql? then th1.(writes := th.writes + [th.op.stmt.effect])
                 else th1;
      s.(threads := s.threads[t := th2], engine := engine)
    case Finish(_) =>
      s.(threads := s.threads[t := Resume(th)],
         exclusive := if th.op.takes && th.op.kind.Exclusive? then None else s.exclusive,
         shared := if th.op.takes && th.op.kind.Shared? then s.shared - {t} else s.shared,
         leaked := s.leaked || (th.tx.Closing? && !th.op.ok))
    case BeginTx(_) => s.(threads := s.threads[t := th.(tx := Locking)])
    case LockTx(_) => s.(threads := s.threads[t := th.(tx := Locked)], exclusive := Some(t))
    case SetFlag(_) => s.(threads := s.threads[t := th.(tx := Beginning, flag := true)])
    case Destroy(_) => s.(threads := s.threads[t := th.(tx := Closing(th.tx.active))])
    case ClearFlag(_) => s.(threads := s.threads[t := th.(tx := FlagCleared, flag := false)])
    case UnlockTx(_) => s.(threads := s.threads[t := th.(tx := NoTx)], exclusive := None)
    case NestTx(_) => s.(threads := s.threads[t := th.(tx := Wedged)])
  }

  /** Every thread idle, the mutex free, no transaction open. */
  ghost predicate Init<D>(s: State<D>) {
    && (forall t | t in s.threads :: var th := s.threads[t]; th.tx.NoTx? && th.op.NoOp? && !th.flag)
    && s.exclusive.None? && s.shared == {} && s.engine.snapshot.None? && !s.leaked
  }

  ghost predicate Valid<D>(s: State<D>, es: seq<Event<D>>)
    decreases |es|
  {
    es == [] || (Enabled(s, es[0]) && Valid(Next(s, es[0]), es[1..]))
  }

  ghost function After<D>(s: State<D>, es: seq<Event<D>>): State<D>
    requires Valid(s, es)
    decreases |es|
  {
    if es == [] then s else After(Next(s, es[0]), es[1..])
  }

  // ---------------------------------------------------------------- the invariant

  ghost predicate InsideLock<D>(th: Thread<D>) {
    th.op.Running? || th.op.Finished?
  }

  /** The thread's transaction object owns the mutex. */
  ghost predicate TxHolds<D>(th: Thread<D>) {
    th.tx.Locked? || th.tx.Beginning? || th.tx.Open? || th.tx.Closing? || th.tx.FlagCleared? || th.tx.Wedged?
  }

  ghost predicate HoldsExclusive<D>(th: Thread<D>) {
    TxHolds(th) || (InsideLock(th) && th.op.takes && th.op.kind.Exclusive?)
  }

  ghost predicate HoldsShared<D>(th: Thread<D>) {
    InsideLock(th) && th.op.takes && th.op.kind.Shared?
  }

  ghost predicate ThreadInv<D>(th: Thread<D>) {
    && (th.flag <==> th.tx.Beginning? || th.tx.Open? || th.tx.Closing? || th.tx.Wedged?)
    && (!th.op.NoOp? ==> th.op.takes == !th.flag && Callable(th.tx, th.op.stmt, th.op.kind))
  }

  ghost predicate MutexInv<D>(s: State<D>) {
    && (forall t | t in s.threads :: s.exclusive == Some(t) <==> HoldsExclusive(s.threads[t]))
    && (forall t | t in s.threads :: t in s.shared <==> HoldsShared(s.threads[t]))
    && (s.exclusive.Some? ==> s.exclusive.value in s.threads && s.shared == {})
    && s.shared <= s.threads.Keys
  }

  /** The engine is inside a transaction that this thread began and has not ended. */
  ghost predicate EngineOpen<D>(th: Thread<D>) {
    if th.op.Finished? && th.op.ok && th.op.stmt.Begin? then true
    else if th.op.Finished? && th.op.ok && (th.op.stmt.Commit? || th.op.stmt.Rollback?) then false
    else th.tx == Open(true) || th.tx == Closing(true)
  }

  ghost predicate DataInv<D>(s: State<D>) {
    && (s.leaked ==> s.engine.snapshot.Some?)
    && (forall t | t in s.threads && EngineOpen(s.threads[t]) ::
          && !s.leaked
          && s.engine == Engine(ApplyAll(s.threads[t].writes, s.threads[t].base), Some(s.threads[t].base)))
    && (s.engine.snapshot.Some? && !s.leaked ==>
          s.exclusive.Some? && s.exclusive.value in s.threads
          && (EngineOpen(s.threads[s.exclusive.value]) || s.threads[s.exclusive.value].tx.Wedged?))
  }

  ghost predicate Inv<D>(s: State<D>) {
    && (forall t | t in s.threads :: ThreadInv(s.threads[t]))
    && MutexInv(s)
    && DataInv(s)
  }

  lemma InitInv<D>(s: State<D>)
    requires Init(s)
    ensures Inv(s)
  {
  }

  lemma ThreadInvKept<D>(s: State<D>, e: Event<D>)
    requires Inv(s) && Enabled(s, e)
    ensures forall t | t in Next(s, e).threads :: ThreadInv(Next(s, e).threads[t])
  {
  }

  /** A step changes its own thread only. */
  lemma OthersUntouched<D>(s: State<D>, e: Event<D>)
    requires Enabled(s, e)
    ensures Next(s, e).threads == s.threads[e.t := Next(s, e).threads[e.t]]
  {
  }

  /** What a step does to the mutex follows what it does to its own thread. */
  lemma MutexFollows<D>(s: State<D>, e: Event<D>)
    requires Enabled(s, e) && ThreadInv(s.threads[e.t])
    requires s.exclusive == Some(e.t) <==> HoldsExclusive(s.threads[e.t])
    requires e.t in s.shared <==> HoldsShared(s.threads[e.t])
    ensures var th, th' := s.threads[e.t], Next(s, e).threads[e.t];
            && Next(s, e).exclusive == (if HoldsExclusive(th') then Some(e.t)
                                        else if HoldsExclusive(th) then None else s.exclusive)
            && Next(s, e).shared == (if HoldsShared(th') then s.shared + {e.t} else s.shared - {e.t})
            && (HoldsExclusive(th') && !HoldsExclusive(th) ==> Free(s, Exclusive))
            && (HoldsShared(th') && !HoldsShared(th) ==> s.exclusive.None? && !HoldsExclusive(th'))
  {
    match e
    case Finish(_) =>
    case Acquire(_) =>
    case _ =>
  }

  lemma MutexInvKept<D>(s: State<D>, e: Event<D>)
    requires Inv(s) && Enabled(s, e)
    ensures MutexInv(Next(s, e))
  {
    MutexFollows(s, e);
    OthersUntouched(s, e);
  }

  lemma EngineOpenHolds<D>(s: State<D>, t: Tid)
    requires Inv(s) && t in s.threads && EngineOpen(s.threads[t])
    ensures TxHolds(s.threads[t]) && s.exclusive == Some(t)
  {
    assert ThreadInv(s.threads[t]);
  }

  /** A statement that can change the engine runs while its thread holds the mutex exclusively. */
  lemma EffectHolds<D>(s: State<D>, e: Event<D>)
    requires Inv(s) && Enabled(s, e) && e.Effect? && !s.threads[e.t].op.stmt.Query?
    ensures s.exclusive == Some(e.t)
    ensures forall u | u in s.threads && u != e.t :: !EngineOpen(s.threads[u])
  {
    assert ThreadInv(s.threads[e.t]);
    forall u | u in s.threads && u != e.t ensures !EngineOpen(s.threads[u]) {
      if EngineOpen(s.threads[u]) { EngineOpenHolds(s, u); }
    }
  }

  lemma EffectKeepsData<D>(s: State<D>, e: Event<D>)
    requires Inv(s) && Enabled(s, e) && e.Effect?
    ensures DataInv(Next(s, e))
  {
    var th := s.threads[e.t];
    assert ThreadInv(th);
    if th.op.stmt.Query? {
      return;
    }
    EffectHolds(s, e);
    if th.op.stmt.Sql? {
      ApplyAllConcat(th.writes, [th.op.stmt.effect], th.base);
    }
  }

  /** Steps that take the mutex or run under it. */
  ghost predicate UnderMutex<D>(e: Event<D>) {
    e.Acquire? || e.Effect? || e.Finish? || e.LockTx?
  }

  /** While a transaction object owns the mutex, only its own thread can take a locked step. */
  lemma OthersShutOut<D>(s: State<D>, t: Tid, e: Event<D>)
    requires Inv(s) && t in s.threads && TxHolds(s.threads[t])
    requires Enabled(s, e) && UnderMutex(e)
    ensures e.t == t
  {
    assert ThreadInv(s.threads[e.t]);
    assert s.exclusive == Some(t);
  }

  /** Apart from statements and what follows them, steps leave the engine and its transaction alone. */
  lemma QuietStep<D>(s: State<D>, e: Event<D>)
    requires Enabled(s, e) && !e.Effect? && !e.Finish? && ThreadInv(s.threads[e.t])
    ensures Next(s, e).engine == s.engine && Next(s, e).leaked == s.leaked
    ensures var th, th' := s.threads[e.t], Next(s, e).threads[e.t];
            && th'.base == th.base && th'.writes == th.writes && (EngineOpen(th') ==> EngineOpen(th))
            && (EngineOpen(th) || th.tx.Wedged? ==> EngineOpen(th') || th'.tx.Wedged?)
  {
  }

  lemma QuietKeepsData<D>(s: State<D>, e: Event<D>)
    requires Inv(s) && Enabled(s, e) && !e.Effect? && !e.Finish?
    ensures DataInv(Next(s, e))
  {
    assert ThreadInv(s.threads[e.t]);
    QuietStep(s, e);
    OthersUntouched(s, e);
    OpenerStays(s, e);
    hide EngineOpen, ThreadInv, Enabled, Next, MutexInv, HoldsExclusive, HoldsShared;
  }

  /** While the engine is inside somebody's transaction, a quiet step leaves the mutex with its owner. */
  lemma OpenerStays<D>(s: State<D>, e: Event<D>)
    requires Inv(s) && Enabled(s, e) && !e.Effect? && !e.Finish?
    ensures s.engine.snapshot.Some? && !s.leaked ==> Next(s, e).exclusive == s.exclusive
  {
    assert ThreadInv(s.threads[e.t]);
    if s.engine.snapshot.Some? && !s.leaked {
      var o := s.exclusive.value;
      assert ThreadInv(s.threads[o]);
      if UnderMutex(e) { OthersShutOut(s, o, e); }
    }
  }

  lemma FinishKeepsData<D>(s: State<D>, e: Event<D>)
    requires Inv(s) && Enabled(s, e) && e.Finish?
    ensures DataInv(Next(s, e))
  {
    hide HoldsShared;
    assert ThreadInv(s.threads[e.t]);
  }

  lemma DataInvKept<D>(s: State<D>, e: Event<D>)
    requires Inv(s) && Enabled(s, e)
    ensures DataInv(Next(s, e))
  {
    hide Inv, Enabled, Next, DataInv;
    if e.Effect? { EffectKeepsData(s, e); } else if e.Finish? { FinishKeepsData(s, e); } else { QuietKeepsData(s, e); }
  }

  lemma InvKept<D>(s: State<D>, e: Event<D>)
    requires Inv(s) && Enabled(s, e)
    ensures Inv(Next(s, e))
  {
    ThreadInvKept(s, e);
    MutexInvKept(s, e);
    DataInvKept(s, e);
  }

  lemma {:induction false} InvAfter<D>(s: State<D>, es: seq<Event<D>>)
    requires Inv(s) && Valid(s, es)
    ensures Inv(After(s, es))
    decreases |es|
  {
    if es != [] {
      InvKept(s, es[0]);
      InvAfter(Next(s, es[0]), es[1..]);
    }
  }

  // ---------------------------------------------------------------- isolation

  /**
   In every interleaving: from the step that gives the mutex to a transaction until the step that
   returns it, every execute, prepare, step, finalize, reset and lastInsertId is the owner's.
   */
  lemma {:induction false} OwnerRunsAlone<D>(s: State<D>, es: seq<Event<D>>, t: Tid)
    requires Inv(s) && Valid(s, es) && t in s.threads && TxHolds(s.threads[t])
    requires forall i | 0 <= i < |es| :: !(es[i].UnlockTx? && es[i].t == t)
    ensures forall i | 0 <= i < |es| && UnderMutex(es[i]) :: es[i].t == t
    ensures t in After(s, es).threads && TxHolds(After(s, es).threads[t])
    decreases |es|
  {
    hide Inv, Enabled, Next, TxHolds;
    if es != [] {
      if UnderMutex(es[0]) { OthersShutOut(s, t, es[0]); }
      OwnerKeeps(s, es[0], t);
      InvKept(s, es[0]);
      OwnerRunsAlone(Next(s, es[0]), es[1..], t);
    }
  }

  /** Only one step returns the mutex. */
  lemma OwnerKeeps<D>(s: State<D>, e: Event<D>, t: Tid)
    requires Enabled(s, e) && t in s.threads && TxHolds(s.threads[t]) && !(e.UnlockTx? && e.t == t)
    ensures t in Next(s, e).threads && TxHolds(Next(s, e).threads[t])
  {
  }

  /** With the flag set the thread owns the mutex exclusively, so a skipped lock is never a missing one. */
  lemma FlagMeansExclusive<D>(s: State<D>, es: seq<Event<D>>, t: Tid)
    requires Init(s) && Valid(s, es) && t in After(s, es).threads
    requires After(s, es).threads[t].flag
    ensures After(s, es).exclusive == Some(t)
    ensures forall u | u in After(s, es).threads && u != t :: !InsideLock(After(s, es).threads[u])
  {
    InitInv(s);
    InvAfter(s, es);
    var s' := After(s, es);
    assert ThreadInv(s'.threads[t]);
    forall u | u in s'.threads && u != t ensures !InsideLock(s'.threads[u]) {
      assert ThreadInv(s'.threads[u]);
    }
  }

  // ---------------------------------------------------------------- atomicity

  /** What a step adds to the durable content. */
  ghost function Publishes<D>(s: State<D>, e: Event<D>): seq<D -> D>
    requires Enabled(s, e)
  {
    if !e.Effect? || e.fails then []
    else match s.threads[e.t].op.stmt
      case Commit => s.threads[e.t].writes
      case Sql(effect) => if s.engine.snapshot.None? then [effect] else []
      case _ => []
  }

  ghost function Published<D>(s: State<D>, es: seq<Event<D>>): seq<D -> D>
    requires Valid(s, es)
    decreases |es|
  {
    if es == [] then [] else Publishes(s, es[0]) + Published(Next(s, es[0]), es[1..])
  }

  lemma StepPublishes<D>(s: State<D>, e: Event<D>)
    requires Inv(s) && Enabled(s, e)
    ensures Next(s, e).engine.Durable() == ApplyAll(Publishes(s, e), s.engine.Durable())
    ensures s.leaked ==> Publishes(s, e) == []
  {
    if e.Effect? {
      var th := s.threads[e.t];
      assert ThreadInv(th);
      if !th.op.stmt.Query? { EffectHolds(s, e); }
      if th.op.stmt.Commit? || th.op.stmt.Rollback? { assert EngineOpen(th); }
    }
  }

  /**
   The durable content of every run is the initial one plus blocks: a block is either one write made
   outside transactions or all the writes of one transaction, added at its COMMIT.
   */
  lemma {:induction false} CommittedInBlocks<D>(s: State<D>, es: seq<Event<D>>)
    requires Inv(s) && Valid(s, es)
    ensures After(s, es).engine.Durable() == ApplyAll(Published(s, es), s.engine.Durable())
    decreases |es|
  {
    if es != [] {
      StepPublishes(s, es[0]);
      InvKept(s, es[0]);
      CommittedInBlocks(Next(s, es[0]), es[1..]);
      ApplyAllConcat(Publishes(s, es[0]), Published(Next(s, es[0]), es[1..]), s.engine.Durable());
    }
  }

  /** The successful writes of one thread, read off the run alone. */
  ghost function WritesBy<D>(s: State<D>, es: seq<Event<D>>, t: Tid): seq<D -> D>
    requires Valid(s, es)
    decreases |es|
  {
    if es == [] then []
    else
      var op := s.threads[es[0].t].op;
      (if es[0].t == t && es[0].Effect? && !es[0].fails && op.stmt.Sql? then [op.stmt.effect] else [])
      + WritesBy(Next(s, es[0]), es[1..], t)
  }

  /** One step while the engine transaction of t is open, and stays open. */
  lemma OpenTransactionStep<D>(s: State<D>, e: Event<D>, t: Tid)
    requires Inv(s) && Enabled(s, e) && t in s.threads && EngineOpen(s.threads[t])
    requires EngineOpen(Next(s, e).threads[t])
    ensures Next(s, e).threads[t].base == s.threads[t].base
    ensures Next(s, e).threads[t].writes == s.threads[t].writes + WritesBy(s, [e], t)
    ensures Next(s, e).engine.content == ApplyAll(WritesBy(s, [e], t), s.engine.content)
  {
    EngineOpenHolds(s, t);
    if UnderMutex(e) { OthersShutOut(s, t, e); }
    assert ThreadInv(s.threads[t]);
    assert WritesBy(Next(s, e), [e][1..], t) == [];
  }

  /** The thread's engine transaction is open before every step of the run. */
  ghost predicate StaysOpen<D>(s: State<D>, es: seq<Event<D>>, t: Tid)
    requires Valid(s, es)
    decreases |es|
  {
    && t in s.threads && EngineOpen(s.threads[t])
    && (es == [] || StaysOpen(Next(s, es[0]), es[1..], t))
  }

  lemma WritesByCons<D>(s: State<D>, es: seq<Event<D>>, t: Tid)
    requires Valid(s, es) && es != []
    ensures WritesBy(s, es, t) == WritesBy(s, [es[0]], t) + WritesBy(Next(s, es[0]), es[1..], t)
  {
    assert WritesBy(Next(s, es[0]), [es[0]][1..], t) == [];
  }

  lemma {:induction false} OpenTransactionRun<D>(s: State<D>, es: seq<Event<D>>, t: Tid)
    requires Inv(s) && Valid(s, es) && StaysOpen(s, es, t)
    ensures Inv(After(s, es)) && t in After(s, es).threads && EngineOpen(After(s, es).threads[t])
    ensures After(s, es).engine.content == ApplyAll(WritesBy(s, es, t), s.engine.content)
    ensures After(s, es).threads[t].base == s.threads[t].base
    decreases |es|
  {
    if es != [] {
      var s1, rest, here := Next(s, es[0]), es[1..], WritesBy(s, [es[0]], t);
      InvKept(s, es[0]);
      OpenTransactionStep(s, es[0], t);
      WritesByCons(s, es, t);
      OpenTransactionRun(s1, rest, t);
      ApplyAllConcat(here, WritesBy(s1, rest, t), s.engine.content);
    }
  }

  /**
   Whatever the other threads do, an open transaction leaves the durable content as its BEGIN found
   it, and sees that content plus exactly its own successful writes.
   */
  lemma OpenTransactionSeesItself<D>(s: State<D>, es: seq<Event<D>>, t: Tid)
    requires Inv(s) && Valid(s, es) && StaysOpen(s, es, t)
    ensures After(s, es).engine.Durable() == s.engine.Durable() == s.threads[t].base
    ensures After(s, es).engine.content == ApplyAll(WritesBy(s, es, t), s.engine.content)
  {
    OpenTransactionRun(s, es, t);
  }

  /**
   From BEGIN to the end of the transaction, in any interleaving: COMMIT leaves the content found by
   BEGIN plus all the successful writes of this thread and nobody else's, ROLLBACK leaves that content.
   */
  lemma AllOrNothing<D>(s: State<D>, es: seq<Event<D>>, t: Tid)
    requires Inv(s) && Enabled(s, Effect(t, false)) && s.threads[t].op.stmt.Begin? && s.engine.snapshot.None?
    requires var s1 := Next(s, Effect(t, false)); Valid(s1, es) && StaysOpen(s1, es, t)
    requires var s2 := After(Next(s, Effect(t, false)), es);
             Enabled(s2, Effect(t, false)) && (s2.threads[t].op.stmt.Commit? || s2.threads[t].op.stmt.Rollback?)
    ensures var s1 := Next(s, Effect(t, false));
            var s2 := After(s1, es);
            Next(s2, Effect(t, false)).engine
            == Engine(if s2.threads[t].op.stmt.Commit? then ApplyAll(WritesBy(s1, es, t), s.engine.content)
                      else s.engine.content, None)
  {
    InvKept(s, Effect(t, false));
    OpenTransactionRun(Next(s, Effect(t, false)), es, t);
  }

  /** After a destructor's ROLLBACK has failed, nothing is made durable on this connection any more. */
  lemma {:induction false} LeakFreezesDatabase<D>(s: State<D>, es: seq<Event<D>>)
    requires Inv(s) && s.leaked && Valid(s, es)
    ensures After(s, es).leaked && After(s, es).engine.Durable() == s.engine.Durable()
    decreases |es|
  {
    if es != [] {
      StepPublishes(s, es[0]);
      InvKept(s, es[0]);
      LeakFreezesDatabase(Next(s, es[0]), es[1..]);
    }
  }

  // ---------------------------------------------------------------- deadlock

  ghost predicate Waits<D>(th: Thread<D>) {
    th.tx.Locking? || (th.op.Entered? && th.op.takes)
  }

  ghost predicate Idle<D>(th: Thread<D>) {
    th.tx.NoTx? && th.op.NoOp?
  }

  /** Nobody waits for a mutex it already holds, and outside operations and transactions it holds nothing. */
  lemma NoRelocking<D>(s: State<D>, es: seq<Event<D>>, t: Tid)
    requires Init(s) && Valid(s, es) && t in After(s, es).threads
    ensures var th := After(s, es).threads[t];
            && (Waits(th) ==> !HoldsExclusive(th) && !HoldsShared(th) && After(s, es).exclusive != Some(t))
            && (Idle(th) ==> !th.flag && After(s, es).exclusive != Some(t) && t !in After(s, es).shared)
  {
    InitInv(s);
    InvAfter(s, es);
    assert ThreadInv(After(s, es).threads[t]);
  }

  /** A thread that already holds the mutex, and has not nested, can take its next step. */
  lemma HolderMoves<D>(s: State<D>, t: Tid)
    requires Inv(s) && t in s.threads && (HoldsExclusive(s.threads[t]) || HoldsShared(s.threads[t]))
    requires !s.threads[t].tx.Wedged?
    ensures exists e: Event<D> :: e.t == t && Enabled(s, e) && !e.NestTx?
  {
    var th := s.threads[t];
    assert ThreadInv(th);
    var e: Event<D> :=
      if th.op.Entered? then Acquire(t)
      else if th.op.Running? then Effect(t, false)
      else if th.op.Finished? then Finish(t)
      else if th.tx.Locked? then SetFlag(t)
      else if th.tx.Beginning? then Call(t, Begin, Exclusive)
      else if th.tx.Open? then Destroy(t)
      else if th.tx == Closing(true) then Call(t, Rollback, Exclusive)
      else if th.tx.Closing? then ClearFlag(t)
      else UnlockTx(t);
    assert Enabled(s, e);
  }

  /** A thread can always go on unless it waits or has nested a transaction. */
  lemma MovesUnlessWaiting<D>(s: State<D>, t: Tid)
    requires Inv(s) && t in s.threads && !Waits(s.threads[t]) && !s.threads[t].tx.Wedged?
    ensures exists e: Event<D> :: e.t == t && Enabled(s, e) && !e.NestTx?
  {
    var th := s.threads[t];
    assert ThreadInv(th);
    if HoldsExclusive(th) || HoldsShared(th) {
      HolderMoves(s, t);
    } else {
      var e: Event<D> :=
        if th.op.Entered? then Acquire(t)
        else if th.op.Running? then Effect(t, false)
        else if th.op.Finished? then Finish(t)
        else BeginTx(t);
      assert Enabled(s, e);
    }
  }

  /** Unless some thread has nested a transaction, a thread that is not idle never means a standstill. */
  lemma NoDeadlock<D>(s: State<D>, es: seq<Event<D>>, t: Tid)
    requires Init(s) && Valid(s, es) && t in After(s, es).threads && !Idle(After(s, es).threads[t])
    requires forall u | u in After(s, es).threads :: !After(s, es).threads[u].tx.Wedged?
    ensures exists e: Event<D> :: Enabled(After(s, es), e) && !Idle(After(s, es).threads[e.t]) && !e.NestTx?
  {
    InitInv(s);
    InvAfter(s, es);
    var s' := After(s, es);
    if s'.exclusive.Some? {
      HolderMoves(s', s'.exclusive.value);
    } else if u :| u in s'.shared {
      HolderMoves(s', u);
    } else {
      var th := s'.threads[t];
      assert ThreadInv(th) && !HoldsExclusive(th) && !HoldsShared(th);
      var e: Event<D> := if th.op.Entered? then Acquire(t) else LockTx(t);
      assert Enabled(s', e);
    }
  }

  /** A nested beginTransaction() is the one way to a standstill: its thread and everyone waiting stay put for good. */
  lemma {:induction false} NestingBlocksForever<D>(s: State<D>, es: seq<Event<D>>, t: Tid, u: Tid)
    requires Inv(s) && Valid(s, es) && t in s.threads && s.threads[t].tx.Wedged?
    requires u in s.threads && Waits(s.threads[u])
    ensures t in After(s, es).threads && u in After(s, es).threads
    ensures After(s, es).threads[t] == s.threads[t] && After(s, es).threads[u] == s.threads[u]
    decreases |es|
  {
    hide Inv, Enabled, Next, Waits;
    if es != [] {
      BlockedStay(s, es[0], t, u);
      InvKept(s, es[0]);
      NestingBlocksForever(Next(s, es[0]), es[1..], t, u);
    }
  }

  lemma BlockedStay<D>(s: State<D>, e: Event<D>, t: Tid, u: Tid)
    requires Inv(s) && Enabled(s, e) && t in s.threads && s.threads[t].tx.Wedged?
    requires u in s.threads && Waits(s.threads[u])
    ensures t in Next(s, e).threads && u in Next(s, e).threads
    ensures Next(s, e).threads[t] == s.threads[t] && Next(s, e).threads[u] == s.threads[u]
  {
    assert ThreadInv(s.threads[u]) && ThreadInv(s.threads[t]);
    assert s.exclusive == Some(t);
    assert e.t != t && e.t != u;
    OthersUntouched(s, e);
    hide Next, Enabled, Inv;
  }
}
