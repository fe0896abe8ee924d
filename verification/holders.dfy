/**
 Who holds which connection, counted from outside: by the answers of connection() and the releases alone,
 without looking at what the database object keeps.
 */
module ConnectionHolders {
  import opened Sqlite
  import opened Databases

  /** A call and what it answered. */
  datatype Entry = Entry(event: Event, answer: Option<nat>)

  const FRESH := Sharing(false, None, map[], 0)

  function Log(es: seq<Event>): seq<Entry>
    decreases |es|
  {
    if es == [] then []
    else
      var front, last := es[..|es| - 1], es[|es| - 1];
      Log(front) + [Entry(last, Step(Steps(FRESH, front), last).1)]
  }

  /** How often the connection has been handed out, less how often it has been released. */
  function Holders(log: seq<Entry>, id: nat): int {
    if log == [] then 0
    else
      var last := log[|log| - 1];
      Holders(log[..|log| - 1], id)
      + (if last.event.Connect? && last.answer == Some(id) then 1 else 0)
      - (if last.event == Release(id) then 1 else 0)
  }

  /** The database object is initialized. */
  predicate Up(log: seq<Entry>) {
    log != [] &&
    match log[|log| - 1].event
    case Initialize(hasPath) => hasPath || Up(log[..|log| - 1])
    case Shutdown => false
    case _ => Up(log[..|log| - 1])
  }

  /** The connection handed out last, since the last shutdown. */
  function Latest(log: seq<Entry>): Option<nat> {
    if log == [] then None
    else
      var last := log[|log| - 1];
      if last.event.Shutdown? then None
      else if last.event.Connect? && last.answer.Some? then last.answer
      else Latest(log[..|log| - 1])
  }

  predicate Answered(log: seq<Entry>, id: nat) {
    exists i | 0 <= i < |log| :: log[i].event.Connect? && log[i].answer == Some(id)
  }

  /** Only what is held is released. */
  predicate Fair(es: seq<Event>)
    decreases |es|
  {
    es != [] ==>
      var front, last := es[..|es| - 1], es[|es| - 1];
      Fair(front) && (last.Release? ==> Holders(Log(front), last.id) > 0)
  }

  // ---------------------------------------------------------------- what the database object keeps is that

  function Count(s: Sharing, id: nat): nat {
    if id in s.live then s.live[id] else 0
  }

  ghost predicate Counted(s: Sharing, log: seq<Entry>) {
    && WellFormed(s)
    && s.initialized == Up(log) && s.weak == Latest(log)
    && (forall id: nat :: Count(s, id) == Holders(log, id))
    && (forall id: nat :: Answered(log, id) <==> id < s.nextId)
  }

  lemma {:induction false} StepsSnoc(s: Sharing, es: seq<Event>, e: Event)
    ensures Steps(s, es + [e]) == Step(Steps(s, es), e).0
    decreases |es|
  {
    hide Step;
    if es == [] {
      assert [] + [e] == [e] && [e][1..] == [];
      assert Steps(Step(s, e).0, []) == Step(s, e).0;
    } else {
      assert (es + [e])[0] == es[0] && (es + [e])[1..] == es[1..] + [e];
      StepsSnoc(Step(s, es[0]).0, es[1..], e);
    }
  }

  lemma AnsweredSnoc(log: seq<Entry>, entry: Entry, id: nat)
    ensures Answered(log + [entry], id) <==> Answered(log, id) || (entry.event.Connect? && entry.answer == Some(id))
  {
    if Answered(log, id) {
      var i :| 0 <= i < |log| && log[i].event.Connect? && log[i].answer == Some(id);
      assert (log + [entry])[i] == log[i];
    }
    if entry.event.Connect? && entry.answer == Some(id) { assert (log + [entry])[|log|] == entry; }
  }

  lemma LogSnoc(log: seq<Entry>, entry: Entry, id: nat)
    ensures Holders(log + [entry], id)
            == Holders(log, id) + (if entry.event.Connect? && entry.answer == Some(id) then 1 else 0)
               - (if entry.event == Release(id) then 1 else 0)
    ensures Up(log + [entry]) == match entry.event
                                 case Initialize(hasPath) => hasPath || Up(log)
                                 case Shutdown => false
                                 case _ => Up(log)
    ensures Latest(log + [entry])
            == if entry.event.Shutdown? then None
               else if entry.event.Connect? && entry.answer.Some? then entry.answer else Latest(log)
  {
    assert (log + [entry])[..|log|] == log;
  }

  lemma CountStep(s: Sharing, e: Event, id: nat)
    requires WellFormed(s) && (e.Release? ==> Count(s, e.id) > 0)
    ensures WellFormed(Step(s, e).0)
    ensures Count(Step(s, e).0, id)
            == Count(s, id) + (if e.Connect? && Step(s, e).1 == Some(id) then 1 else 0) - (if e == Release(id) then 1 else 0)
    ensures id < Step(s, e).0.nextId <==> id < s.nextId || (e.Connect? && Step(s, e).1 == Some(id))
  {
  }

  lemma OtherStep(s: Sharing, e: Event)
    ensures Step(s, e).0.initialized == match e case Initialize(hasPath) => hasPath || s.initialized case Shutdown => false case _ => s.initialized
    ensures Step(s, e).0.weak
            == if e.Shutdown? then None else if e.Connect? && Step(s, e).1.Some? then Step(s, e).1 else s.weak
  {
  }

  lemma CountedStep(s: Sharing, log: seq<Entry>, e: Event)
    requires Counted(s, log) && (e.Release? ==> Holders(log, e.id) > 0)
    ensures Counted(Step(s, e).0, log + [Entry(e, Step(s, e).1)])
  {
    var entry, s' := Entry(e, Step(s, e).1), Step(s, e).0;
    assert e.Release? ==> Count(s, e.id) == Holders(log, e.id);
    CountStep(s, e, 0);
    OtherStep(s, e);
    LogSnoc(log, entry, 0);
    hide Step, Count, Holders, Up, Latest, Answered, WellFormed;
    forall id: nat ensures Count(s', id) == Holders(log + [entry], id) && (Answered(log + [entry], id) <==> id < s'.nextId) {
      CountStep(s, e, id);
      LogSnoc(log, entry, id);
      AnsweredSnoc(log, entry, id);
    }
  }

  lemma {:induction false} RunsAreCounted(es: seq<Event>)
    requires Fair(es)
    ensures Counted(Steps(FRESH, es), Log(es))
    decreases |es|
  {
    hide Step, Counted, Holders;
    if es == [] {
      NothingIsCounted();
    } else {
      var front, last := es[..|es| - 1], es[|es| - 1];
      assert es == front + [last];
      RunsAreCounted(front);
      StepsSnoc(FRESH, front, last);
      CountedStep(Steps(FRESH, front), Log(front), last);
    }
  }

  lemma NothingIsCounted()
    ensures Counted(FRESH, [])
  {
  }

  // ---------------------------------------------------------------- what callers see

  /**
   After every run in which only what is held is released: connection() throws when not initialized; it
   hands out the connection handed out last as long as somebody holds it; and else, unless opening fails, a
   connection that nobody has been given before.
   */
  lemma ConnectAnswers(es: seq<Event>, fails: bool)
    requires Fair(es)
    ensures var log, answer := Log(es), Step(Steps(FRESH, es), Connect(fails)).1;
            if !Up(log) then answer.None?
            else if Latest(log).Some? && Holders(log, Latest(log).value) > 0 then answer == Latest(log)
            else if fails then answer.None?
            else answer.Some? && !Answered(log, answer.value)
  {
    RunsAreCounted(es);
    var s, log := Steps(FRESH, es), Log(es);
    hide Log, Steps, Holders, Up, Latest, Answered;
    if s.weak.Some? { assert Count(s, s.weak.value) == Holders(log, s.weak.value); }
  }

  /** Shutdowns come when nobody holds a connection. */
  ghost predicate Quiet(log: seq<Entry>) {
    forall id: nat :: Holders(log, id) == 0
  }

  ghost predicate InOrder(es: seq<Event>)
    decreases |es|
  {
    es != [] ==> InOrder(es[..|es| - 1]) && (es[|es| - 1].Shutdown? ==> Quiet(Log(es[..|es| - 1])))
  }

  lemma {:induction false} AllHoldTheLatest(es: seq<Event>)
    requires Fair(es) && InOrder(es)
    ensures forall id: nat | Holders(Log(es), id) > 0 :: Latest(Log(es)) == Some(id)
    decreases |es|
  {
    hide Step, Steps, Up;
    if es != [] {
      var front, last := es[..|es| - 1], es[|es| - 1];
      AllHoldTheLatest(front);
      ConnectAnswersFront(front, last);
      forall id: nat | Holders(Log(es), id) > 0 ensures Latest(Log(es)) == Some(id) {
        LogSnoc(Log(front), Entry(last, Step(Steps(FRESH, front), last).1), id);
      }
    }
  }

  lemma ConnectAnswersFront(front: seq<Event>, last: Event)
    requires Fair(front)
    ensures last.Connect? && Latest(Log(front)).Some? && Holders(Log(front), Latest(Log(front)).value) > 0 ==>
              var answer := Step(Steps(FRESH, front), last).1; answer.None? || answer == Latest(Log(front))
  {
    hide Step, Steps, Log, Latest, Holders;
    if last.Connect? { ConnectAnswers(front, last.fails); }
  }

  /** In an orderly run all holders hold one connection, and it is the one that the next caller is given. */
  lemma HoldersShare(es: seq<Event>, a: nat, b: nat, fails: bool)
    requires Fair(es) && InOrder(es) && Up(Log(es)) && Holders(Log(es), a) > 0 && Holders(Log(es), b) > 0
    ensures a == b && Step(Steps(FRESH, es), Connect(fails)).1 == Some(a)
  {
    hide Step, Steps, Log, Latest, Holders;
    AllHoldTheLatest(es);
    ConnectAnswers(es, fails);
  }
}
