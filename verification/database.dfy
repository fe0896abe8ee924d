/**
 The database object hands one connection to everybody and keeps only a weak reference to it, so that
 the connection is closed when its last holder lets go.
 */
module Databases {
  import opened Sqlite

  /**
   `live` counts the holders of each open connection; `weak` is the connection last opened, whether it
   is still open or not.
   */
  datatype Sharing = Sharing(initialized: bool, weak: Option<nat>, live: map<nat, nat>, nextId: nat)

  datatype Event = Initialize(hasPath: bool) | Shutdown | Connect(fails: bool) | Release(id: nat)

  /** Connections are numbered in the order they are opened; holders are counted from one. */
  predicate WellFormed(s: Sharing) {
    && (forall id | id in s.live :: id < s.nextId && s.live[id] > 0)
    && (s.weak.Some? ==> s.weak.value < s.nextId)
  }

  function Step(s: Sharing, e: Event): (Sharing, Option<nat>) {
    match e
    case Initialize(hasPath) => (if !s.initialized && hasPath then s.(initialized := true) else s, None)
    case Shutdown => (s.(initialized := false, weak := None), None)
    case Connect(fails) =>
      if !s.initialized then (s, None)
      else if s.weak.Some? && s.weak.value in s.live then
        (s.(live := s.live[s.weak.value := s.live[s.weak.value] + 1]), s.weak)
      else if fails then (s, None)
      else (Sharing(true, Some(s.nextId), s.live[s.nextId := 1], s.nextId + 1), Some(s.nextId))
    case Release(id) =>
      if id !in s.live then (s, None)
      else if s.live[id] > 1 then (s.(live := s.live[id := s.live[id] - 1]), None)
      else (s.(live := s.live - {id}), None)
  }

  function Steps(s: Sharing, es: seq<Event>): Sharing
    decreases |es|
  {
    if es == [] then s else Steps(Step(s, es[0]).0, es[1..])
  }

  class SqliteDatabase {
    var initialized: bool
    var weak: Option<nat>
    var live: map<nat, nat>
    var nextId: nat

    function State(): Sharing
      reads this
    {
      Sharing(initialized, weak, live, nextId)
    }

    constructor ()
      ensures State() == Sharing(false, None, map[], 0)
    {
      initialized, weak, live, nextId := false, None, map[], 0;
    }

    method DoInitialize(hasPath: bool) returns (ok: bool)
      modifies this
      ensures State() == Step(old(State()), Initialize(hasPath)).0
      ensures ok == (!old(initialized) && hasPath)
    {
      if initialized || !hasPath { return false; }
      initialized := true;
      ok := true;
    }

    method DoShutdown()
      modifies this
      ensures State() == Step(old(State()), Shutdown).0
    {
      initialized, weak := false, None;
    }

    /** `None` is an exception: not initialized, or the connection could not be opened and set up. */
    method GetConnection(fails: bool) returns (id: Option<nat>)
      modifies this
      ensures (State(), id) == Step(old(State()), Connect(fails))
    {
      if !initialized { return None; }
      if weak.Some? && weak.value in live {
        live := live[weak.value := live[weak.value] + 1];
        return weak;
      }
      if fails { return None; }
      id := Some(nextId);
      live, weak, nextId := live[nextId := 1], id, nextId + 1;
    }
  }

  // ---------------------------------------------------------------- one connection for all holders

  /** Every holder holds the connection that the next caller will get. */
  predicate OneForAll(s: Sharing) {
    forall id | id in s.live :: s.weak == Some(id)
  }

  /** No shutdown while somebody still holds a connection. */
  predicate Orderly(s: Sharing, es: seq<Event>)
    decreases |es|
  {
    es == [] || ((es[0].Shutdown? ==> s.live == map[]) && Orderly(Step(s, es[0]).0, es[1..]))
  }

  lemma {:induction false} SharedByAll(s: Sharing, es: seq<Event>)
    requires WellFormed(s) && OneForAll(s) && Orderly(s, es)
    ensures WellFormed(Steps(s, es)) && OneForAll(Steps(s, es)) && |Steps(s, es).live| <= 1
    decreases |es|
  {
    if es == [] {
      if s.weak.Some? {
        assert s.live.Keys <= {s.weak.value};
        SubsetSize(s.live.Keys, {s.weak.value});
      } else {
        assert s.live.Keys == {};
      }
    } else {
      SharedByAll(Step(s, es[0]).0, es[1..]);
    }
  }

  lemma {:induction false} SubsetSize<T>(a: set<T>, b: set<T>)
    requires a <= b
    ensures |a| <= |b|
  {
    if x :| x in a {
      SubsetSize(a - {x}, b - {x});
    }
  }

  /** A connection is opened only when nobody holds one, exactly as long as all holders share one. */
  lemma OpensOnlyWhenAlone(s: Sharing)
    requires WellFormed(s) && s.initialized
    ensures OneForAll(Step(s, Connect(false)).0) <==> OneForAll(s)
    ensures OneForAll(s) ==> (Step(s, Connect(false)).1 == Some(s.nextId) <==> s.live == map[])
  {
    var s' := Step(s, Connect(false)).0;
    if OneForAll(s') {
      forall id | id in s.live ensures s.weak == Some(id) {
        assert id in s'.live;
      }
    }
    if s.live != map[] {
      var id :| id in s.live.Keys;
    }
  }

  /** A shutdown that comes too early lets two connections, each with a mutex of its own, live side by side. */
  lemma EarlyShutdownSplits(s: Sharing)
    requires WellFormed(s) && OneForAll(s) && s.live != map[]
    ensures var s' := Steps(s, [Shutdown, Initialize(true), Connect(false)]);
            !OneForAll(s') && |s'.live| == |s.live| + 1
  {
    var s1 := Step(s, Shutdown).0;
    var s2 := Step(s1, Initialize(true)).0;
    var s3 := Step(s2, Connect(false)).0;
    assert [Shutdown, Initialize(true), Connect(false)][1..] == [Initialize(true), Connect(false)];
    assert [Initialize(true), Connect(false)][1..] == [Connect(false)];
    assert Steps(s, [Shutdown, Initialize(true), Connect(false)]) == s3;
    var id :| id in s.live.Keys;
    assert s3.live.Keys == s.live.Keys + {s.nextId};
    assert id in s3.live && s.nextId in s3.live && id != s.nextId;
  }
}
