/**
 One thread using a connection: the scoped lock that is skipped inside a transaction, and the
 transaction object with its constructor, commit, rollback and destructor, any statement of which may
 fail. Every method that can throw reports it in its result.
 */
module Connections {
  import opened Sqlite

  /** What the calling thread holds of the connection's shared_mutex. */
  datatype Hold = Free | Shared | Exclusive

  class Connection<D> {
    var engine: Engine<D>
    var hold: Hold
    var inTransaction: bool

    /** Between two calls of this thread. */
    predicate Settled()
      reads this
    {
      hold == if inTransaction then Exclusive else Free
    }

    constructor (content: D)
      ensures Settled() && !inTransaction && engine == Engine(content, None)
    {
      engine, hold, inTransaction := Engine(content, None), Free, false;
    }

    /** Locking a mutex one already holds is undefined, so each call site has to rule it out. */
    method Lock(kind: Hold)
      requires hold == Free && kind != Free
      modifies this`hold
      ensures hold == kind
    {
      hold := kind;
    }

    method Unlock()
      requires hold != Free
      modifies this`hold
      ensures hold == Free
    {
      hold := Free;
    }

    method Execute(s: Statement<D>, fails: bool) returns (ok: bool)
      requires Settled()
      modifies this
      ensures hold == old(hold) && inTransaction == old(inTransaction)
      ensures (engine, ok) == Exec(old(engine), s, fails)
    {
      var shouldLock := !inTransaction;
      if shouldLock { Lock(Exclusive); }
      var r := Exec(engine, s, fails);
      engine, ok := r.0, r.1;
      if shouldLock { Unlock(); }
    }

    /** A reading call: prepare, a result set's next, or lastInsertId. */
    method Read() returns (content: D)
      requires Settled()
      modifies this`hold
      ensures hold == old(hold) && content == engine.content
    {
      var shouldLock := !inTransaction;
      if shouldLock { Lock(Shared); }
      content := engine.content;
      if shouldLock { Unlock(); }
    }

    /** `None` is the exception of a failing BEGIN; the lock and the flag are given back. */
    method BeginTransaction(fails: bool) returns (tx: Option<Transaction<D>>)
      requires Settled() && !inTransaction
      modifies this
      ensures (engine, tx.Some?) == Exec(old(engine), Begin, fails)
      ensures tx.Some? ==> fresh(tx.value) && tx.value.conn == this && tx.value.Owns() && tx.value.active
      ensures tx.None? ==> Settled() && !inTransaction
    {
      Lock(Exclusive);
      inTransaction := true;
      var ok := Execute(Begin, fails);
      if !ok {
        inTransaction := false;
        Unlock();
        return None;
      }
      var t := new Transaction(this);
      tx := Some(t);
    }
  }

  class Transaction<D> {
    const conn: Connection<D>
    var active: bool

    predicate Owns()
      reads this, conn
    {
      conn.inTransaction && conn.hold == Exclusive
    }

    constructor (conn: Connection<D>)
      ensures this.conn == conn && active
    {
      this.conn := conn;
      active := true;
    }

    ghost function State(): Session<D>
      reads this, conn
    {
      Session(conn.engine, active)
    }

    method DoCommit(fails: bool) returns (ok: bool)
      requires Owns()
      modifies this, conn
      ensures Owns() && (State(), ok) == Perform(old(State()), TxCommit(fails))
    {
      if !active { return false; }
      ok := conn.Execute(Commit, fails);
      if ok { active := false; }
    }

    method DoRollback(fails: bool) returns (ok: bool)
      requires Owns()
      modifies this, conn
      ensures Owns() && (State(), ok) == Perform(old(State()), TxRollback(fails))
    {
      if !active { return false; }
      ok := conn.Execute(Rollback, fails);
      if ok { active := false; }
    }

    /** The destructor: a failing rollback is swallowed, the flag is cleared and then the lock goes. */
    method Destroy(fails: bool)
      requires Owns()
      modifies this, conn
      ensures conn.engine == Close(old(State()), fails)
      ensures conn.Settled() && !conn.inTransaction
    {
      if active {
        var swallowed := DoRollback(fails);
      }
      conn.inTransaction := false;
      conn.Unlock();
    }
  }

  // ---------------------------------------------------------------- the life of one transaction

  datatype TxCall<!D> = TxWrite(effect: D -> D, fails: bool) | TxCommit(fails: bool) | TxRollback(fails: bool)

  datatype Session<D> = Session(engine: Engine<D>, active: bool)

  function Perform<D>(s: Session<D>, c: TxCall<D>): (Session<D>, bool) {
    match c
    case TxWrite(effect, fails) => var (e, ok) := Exec(s.engine, Sql(effect), fails); (Session(e, s.active), ok)
    case TxCommit(fails) =>
      if !s.active then (s, false)
      else var (e, ok) := Exec(s.engine, Commit, fails); (Session(e, !ok), ok)
    case TxRollback(fails) =>
      if !s.active then (s, false)
      else var (e, ok) := Exec(s.engine, Rollback, fails); (Session(e, !ok), ok)
  }

  function PerformAll<D>(s: Session<D>, calls: seq<TxCall<D>>): (Session<D>, seq<bool>)
    decreases |calls|
  {
    if calls == [] then (s, [])
    else
      var (s1, ok) := Perform(s, calls[0]);
      var (s2, oks) := PerformAll(s1, calls[1..]);
      (s2, [ok] + oks)
  }

  lemma {:induction false} PerformAllSnoc<D>(s: Session<D>, calls: seq<TxCall<D>>, c: TxCall<D>)
    ensures var (s1, oks) := PerformAll(s, calls);
            var (s2, ok) := Perform(s1, c);
            PerformAll(s, calls + [c]) == (s2, oks + [ok])
    decreases |calls|
  {
    if calls == [] {
      assert calls + [c] == [c] && [c][1..] == [];
      var (s1, ok) := Perform(s, c);
      assert PerformAll(s1, []) == (s1, []);
      assert PerformAll(s, [c]) == (s1, [ok] + []);
      assert [ok] + [] == [] + [ok];
    } else {
      assert (calls + [c])[1..] == calls[1..] + [c];
      var (s0, ok0) := Perform(s, calls[0]);
      PerformAllSnoc(s0, calls[1..], c);
      var (s1, oks) := PerformAll(s0, calls[1..]);
      var ok := Perform(s1, c).1;
      assert [ok0] + (oks + [ok]) == ([ok0] + oks) + [ok];
    }
  }

  function Close<D>(s: Session<D>, fails: bool): Engine<D> {
    if s.active then Exec(s.engine, Rollback, fails).0 else s.engine
  }

  /** What a whole transaction, from its constructor to its destructor, does to the engine. */
  function Lifetime<D>(e: Engine<D>, beginFails: bool, calls: seq<TxCall<D>>, closeFails: bool): Engine<D> {
    var (e1, ok) := Exec(e, Begin, beginFails);
    if !ok then e1 else Close(PerformAll(Session(e1, true), calls).0, closeFails)
  }

  /** A client that opens a transaction, makes the calls whatever they answer, and lets it go out of scope. */
  method RunTransaction<D>(conn: Connection<D>, beginFails: bool, calls: seq<TxCall<D>>, closeFails: bool)
    returns (begun: bool, oks: seq<bool>)
    requires conn.Settled() && !conn.inTransaction
    modifies conn
    ensures conn.Settled() && !conn.inTransaction
    ensures conn.engine == Lifetime(old(conn.engine), beginFails, calls, closeFails)
    ensures begun == Exec(old(conn.engine), Begin, beginFails).1
    ensures begun ==> oks == PerformAll(Session(Exec(old(conn.engine), Begin, beginFails).0, true), calls).1
  {
    ghost var e1 := Exec(conn.engine, Begin, beginFails).0;
    var t := conn.BeginTransaction(beginFails);
    if t.None? { return false, []; }
    var tx := t.value;
    begun, oks := true, [];
    for i := 0 to |calls|
      invariant tx.conn == conn && tx.Owns() && fresh(tx)
      invariant (tx.State(), oks) == PerformAll(Session(e1, true), calls[..i])
    {
      assert calls[..i + 1] == calls[..i] + [calls[i]];
      PerformAllSnoc(Session(e1, true), calls[..i], calls[i]);
      var ok: bool;
      match calls[i] {
        case TxWrite(effect, fails) => ok := conn.Execute(Sql(effect), fails);
        case TxCommit(fails) => ok := tx.DoCommit(fails);
        case TxRollback(fails) => ok := tx.DoRollback(fails);
      }
      oks := oks + [ok];
    }
    assert calls[..|calls|] == calls;
    tx.Destroy(closeFails);
  }

  // ---------------------------------------------------------------- all or nothing

  predicate Ends<D>(c: TxCall<D>) {
    !c.TxWrite? && !c.fails
  }

  function Writes<D>(calls: seq<TxCall<D>>): seq<D -> D> {
    if calls == [] then []
    else (if calls[0].TxWrite? && !calls[0].fails then [calls[0].effect] else []) + Writes(calls[1..])
  }

  /** The index of the first commit or rollback that does not fail, or the number of calls. */
  function End<D>(calls: seq<TxCall<D>>): (n: nat)
    ensures n <= |calls|
    ensures n < |calls| ==> Ends(calls[n])
    ensures forall i | 0 <= i < n :: !Ends(calls[i])
  {
    if calls == [] || Ends(calls[0]) then 0 else 1 + End(calls[1..])
  }

  lemma {:induction false} BeforeTheEnd<D>(base: D, done: seq<D -> D>, calls: seq<TxCall<D>>)
    requires forall i | 0 <= i < |calls| :: !Ends(calls[i])
    ensures PerformAll(Session(Engine(ApplyAll(done, base), Some(base)), true), calls).0
            == Session(Engine(ApplyAll(done + Writes(calls), base), Some(base)), true)
    decreases |calls|
  {
    if calls == [] {
      assert done + Writes(calls) == done;
    } else {
      var here := if calls[0].TxWrite? && !calls[0].fails then [calls[0].effect] else [];
      ApplyAllConcat(done, here, base);
      BeforeTheEnd(base, done + here, calls[1..]);
      assert (done + here) + Writes(calls[1..]) == done + (here + Writes(calls[1..]));
    }
  }

  lemma {:induction false} AfterTheEnd<D>(d: D, calls: seq<TxCall<D>>)
    ensures PerformAll(Session(Engine(d, None), false), calls).0
            == Session(Engine(ApplyAll(Writes(calls), d), None), false)
    decreases |calls|
  {
    if calls != [] {
      var here := if calls[0].TxWrite? && !calls[0].fails then [calls[0].effect] else [];
      ApplyAllConcat(here, Writes(calls[1..]), d);
      AfterTheEnd(ApplyAll(here, d), calls[1..]);
    }
  }

  lemma {:induction false} PerformAllConcat<D>(s: Session<D>, a: seq<TxCall<D>>, b: seq<TxCall<D>>)
    ensures PerformAll(s, a + b).0 == PerformAll(PerformAll(s, a).0, b).0
    decreases |a|
  {
    if a == [] {
      assert a + b == b;
    } else {
      assert (a + b)[1..] == a[1..] + b;
      PerformAllConcat(Perform(s, a[0]).0, a[1..], b);
    }
  }

  lemma UntilTheEnd<D>(e: Engine<D>, calls: seq<TxCall<D>>)
    requires forall i | 0 <= i < |calls| :: !Ends(calls[i])
    ensures PerformAll(Session(Engine(e.content, Some(e.content)), true), calls).0
            == Session(Engine(ApplyAll(Writes(calls), e.content), Some(e.content)), true)
  {
    BeforeTheEnd(e.content, [], calls);
    assert [] + Writes(calls) == Writes(calls);
  }

  lemma FromTheEnd<D>(base: D, d: D, calls: seq<TxCall<D>>)
    requires calls != [] && Ends(calls[0])
    ensures PerformAll(Session(Engine(d, Some(base)), true), calls).0
            == Session(Engine(ApplyAll(Writes(calls[1..]), if calls[0].TxCommit? then d else base), None), false)
  {
    AfterTheEnd(if calls[0].TxCommit? then d else base, calls[1..]);
  }

  lemma Split<D>(calls: seq<TxCall<D>>, n: nat)
    requires n < |calls|
    ensures calls[..n] + calls[n..] == calls && calls[n..] != [] && calls[n..][0] == calls[n] && calls[n..][1..] == calls[n + 1..]
  {
  }

  lemma EndedSession<D>(e: Engine<D>, calls: seq<TxCall<D>>)
    requires End(calls) < |calls|
    ensures var n := End(calls);
            var kept := if calls[n].TxCommit? then ApplyAll(Writes(calls[..n]), e.content) else e.content;
            PerformAll(Session(Engine(e.content, Some(e.content)), true), calls).0
            == Session(Engine(ApplyAll(Writes(calls[n + 1..]), kept), None), false)
  {
    hide PerformAll, Writes, ApplyAll, End, Ends;
    var n := End(calls);
    var before, rest := calls[..n], calls[n..];
    Split(calls, n);
    UntilTheEnd(e, before);
    FromTheEnd(e.content, ApplyAll(Writes(before), e.content), rest);
    PerformAllConcat(Session(Engine(e.content, Some(e.content)), true), before, rest);
  }

  /**
   What is left once the transaction object is gone, for every sequence of calls and failures: all
   the writes up to the end when the first call that ends the transaction is a commit, none of them
   otherwise, and in either case the writes made after that call. Only a failing ROLLBACK in the
   destructor leaves the engine inside the transaction.
   */
  lemma AllOrNothing<D>(e: Engine<D>, beginFails: bool, calls: seq<TxCall<D>>, closeFails: bool)
    requires e.snapshot.None?
    ensures var n := End(calls);
            Lifetime(e, beginFails, calls, closeFails)
            == if beginFails then e
               else if n == |calls| then
                 if closeFails then Engine(ApplyAll(Writes(calls), e.content), Some(e.content)) else e
               else
                 var kept := if calls[n].TxCommit? then ApplyAll(Writes(calls[..n]), e.content) else e.content;
                 Engine(ApplyAll(Writes(calls[n + 1..]), kept), None)
  {
    if !beginFails {
      if End(calls) < |calls| {
        EndedSession(e, calls);
      } else {
        UntilTheEnd(e, calls);
      }
    }
  }

  /** commit() and rollback() return normally at most once: the first time they do not fail. */
  lemma {:induction false} OnlyTheFirstEndSucceeds<D>(s: Session<D>, calls: seq<TxCall<D>>, i: nat)
    requires s.active <==> s.engine.snapshot.Some?
    requires i < |calls| && !calls[i].TxWrite?
    ensures |PerformAll(s, calls).1| == |calls|
    ensures PerformAll(s, calls).1[i] <==> s.active && i == End(calls)
    decreases |calls|
  {
    var (s1, ok) := Perform(s, calls[0]);
    PerformAllLength(s1, calls[1..]);
    if i > 0 {
      OnlyTheFirstEndSucceeds(s1, calls[1..], i - 1);
    }
  }

  lemma {:induction false} PerformAllLength<D>(s: Session<D>, calls: seq<TxCall<D>>)
    ensures |PerformAll(s, calls).1| == |calls|
    decreases |calls|
  {
    if calls != [] { PerformAllLength(Perform(s, calls[0]).0, calls[1..]); }
  }
}
