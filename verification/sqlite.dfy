/**
 The SQL engine behind one connection, reduced to what the connection layer relies on.

 A statement either fails and changes nothing, or takes effect as a whole. BEGIN remembers the
 content that ROLLBACK goes back to; there is at most one open transaction per connection.
 */
module Sqlite {

  datatype Option<+T> = None | Some(value: T) {
    predicate IsFailure() { None? }

    function PropagateFailure<U>(): Option<U>
      requires None?
    {
      None
    }

    function Extract(): T
      requires Some?
    {
      value
    }
  }

  function Map<T, U>(o: Option<T>, f: T -> U): Option<U> {
    if o.Some? then Some(f(o.value)) else None
  }

  /** What one call hands to the engine. `Query` stands for every call that leaves the content alone. */
  datatype Statement<!D> = Begin | Commit | Rollback | Sql(effect: D -> D) | Query

  /** `snapshot` is present exactly while a transaction is open. */
  datatype Engine<D> = Engine(content: D, snapshot: Option<D>) {
    /** The content that another connection, or a restart, would find. */
    function Durable(): D {
      if snapshot.Some? then snapshot.value else content
    }
  }

  /** Runs one statement; `fails` says whether the engine reports an error of its own. */
  function Exec<D>(e: Engine<D>, s: Statement<D>, fails: bool): (r: (Engine<D>, bool))
    ensures !r.1 ==> r.0 == e
    ensures fails ==> !r.1
  {
    if fails then (e, false)
    else match s
      case Begin => if e.snapshot.Some? then (e, false) else (e.(snapshot := Some(e.content)), true)
      case Commit => if e.snapshot.None? then (e, false) else (e.(snapshot := None), true)
      case Rollback => if e.snapshot.None? then (e, false) else (Engine(e.snapshot.value, None), true)
      case Sql(effect) => (e.(content := effect(e.content)), true)
      case Query => (e, true)
  }

  /** Effects applied in order, the first element first. */
  function ApplyAll<D>(effects: seq<D -> D>, d: D): D {
    if effects == [] then d else ApplyAll(effects[1..], effects[0](d))
  }

  lemma {:induction false} ApplyAllConcat<D>(a: seq<D -> D>, b: seq<D -> D>, d: D)
    ensures ApplyAll(a + b, d) == ApplyAll(b, ApplyAll(a, d))
    decreases |a|
  {
    if a == [] {
      assert a + b == b;
    } else {
      assert (a + b)[1..] == a[1..] + b;
      ApplyAllConcat(a[1..], b, a[0](d));
    }
  }
}
