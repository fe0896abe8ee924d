/**
 Requests of several threads against one middleware, step by step, next to an ideal middleware whose
 set of revoked tokens only grows. Both take the same steps and give the same answers.
 */
module Revocation {
  import opened Sqlite
  import opened Auth

  type Tid = nat

  /** Where a thread is inside validateRequest or invalidateToken. */
  datatype Call =
    | NoCall
    | Validating(token: string)
    | Checked(token: string, hit: bool)
    | Revoking(token: string)
    | Verified(token: string, expiresAt: int)
    | Inserted
    | Sweeping(now: int)

  datatype Event =
    | Tick(now: int)
    | StartValidate(t: Tid, token: string)
    | Check(t: Tid)
    | Decide(t: Tid, user: Option<string>)
    | StartRevoke(t: Tid, token: string)
    | VerifyForRevoke(t: Tid)
    | Insert(t: Tid)
    | Return(t: Tid, sweep: bool)
    | DoSweep(t: Tid)

  datatype Real = Real(clock: int, blacklist: Blacklist, calls: map<Tid, Call>)

  datatype Ideal = Ideal(clock: int, revoked: set<string>, calls: map<Tid, Call>)

  function Answer(verify: Verifier, token: string, hit: bool, now: int): Option<string> {
    if hit || verify(token, now).None? then None else Some(verify(token, now).value.userId)
  }

  /** The steps possible for a thread, apart from what the middleware remembers. */
  predicate Possible(verify: Verifier, clock: int, calls: map<Tid, Call>, e: Event) {
    match e
    case Tick(_) => true
    case StartValidate(t, _) => t in calls && calls[t].NoCall?
    case Check(t) => t in calls && calls[t].Validating?
    case Decide(t, user) => t in calls && calls[t].Checked? && user == Answer(verify, calls[t].token, calls[t].hit, clock)
    case StartRevoke(t, _) => t in calls && calls[t].NoCall?
    case VerifyForRevoke(t) => t in calls && calls[t].Revoking?
    case Insert(t) => t in calls && calls[t].Verified?
    case Return(t, _) => t in calls && calls[t].Inserted?
    case DoSweep(t) => t in calls && calls[t].Sweeping?
  }

  /** How a step moves its thread; `hit` is what a look-up finds. */
  function Advance(verify: Verifier, clock: int, calls: map<Tid, Call>, e: Event, hit: bool): map<Tid, Call>
    requires Possible(verify, clock, calls, e)
  {
    match e
    case Tick(_) => calls
    case StartValidate(t, token) => calls[t := Validating(token)]
    case Check(t) => calls[t := Checked(calls[t].token, hit)]
    case Decide(t, _) => calls[t := NoCall]
    case StartRevoke(t, token) => calls[t := Revoking(token)]
    case VerifyForRevoke(t) =>
      var claims := verify(calls[t].token, clock);
      calls[t := if claims.None? then NoCall else Verified(calls[t].token, claims.value.expiresAt)]
    case Insert(t) => calls[t := Inserted]
    case Return(t, sweep) => calls[t := if sweep then Sweeping(clock) else NoCall]
    case DoSweep(t) => calls[t := NoCall]
  }

  function RealNext(verify: Verifier, r: Real, e: Event): Real
    requires Possible(verify, r.clock, r.calls, e)
  {
    var hit := e.Check? && Lookup(r.blacklist, r.calls[e.t].token, r.clock).1;
    var calls := Advance(verify, r.clock, r.calls, e, hit);
    match e
    case Tick(now) => Real(now, r.blacklist, calls)
    case Check(t) => Real(r.clock, Lookup(r.blacklist, r.calls[t].token, r.clock).0, calls)
    case Insert(t) => Real(r.clock, r.blacklist[r.calls[t].token := r.calls[t].expiresAt], calls)
    case DoSweep(t) => Real(r.clock, Sweep(r.blacklist, r.calls[t].now), calls)
    case _ => r.(calls := calls)
  }

  function IdealNext(verify: Verifier, i: Ideal, e: Event): Ideal
    requires Possible(verify, i.clock, i.calls, e)
  {
    var hit := e.Check? && i.calls[e.t].token in i.revoked;
    var calls := Advance(verify, i.clock, i.calls, e, hit);
    match e
    case Tick(now) => Ideal(now, i.revoked, calls)
    case Insert(t) => Ideal(i.clock, i.revoked + {i.calls[t].token}, calls)
    case _ => i.(calls := calls)
  }

  predicate RealRun(verify: Verifier, r: Real, es: seq<Event>)
    decreases |es|
  {
    es == [] || (Possible(verify, r.clock, r.calls, es[0]) && RealRun(verify, RealNext(verify, r, es[0]), es[1..]))
  }

  predicate IdealRun(verify: Verifier, i: Ideal, es: seq<Event>)
    decreases |es|
  {
    es == [] || (Possible(verify, i.clock, i.calls, es[0]) && IdealRun(verify, IdealNext(verify, i, es[0]), es[1..]))
  }

  // ---------------------------------------------------------------- the simulation

  /** A look-up may miss a revoked token, but only one that has expired since. */
  ghost predicate SameCall(expiry: string -> int, clock: int, a: Call, b: Call) {
    || (a == b && (a.Verified? ==> a.expiresAt == expiry(a.token)) && (a.Sweeping? ==> a.now <= clock))
    || (a.Checked? && b.Checked? && a.token == b.token && !a.hit && b.hit && expiry(a.token) < clock)
  }

  ghost predicate Simulates(expiry: string -> int, r: Real, i: Ideal) {
    && r.clock == i.clock
    && r.calls.Keys == i.calls.Keys
    && (forall t | t in r.calls :: SameCall(expiry, r.clock, r.calls[t], i.calls[t]))
    && (forall t | t in i.calls && i.calls[t].Checked? && i.calls[t].hit :: i.calls[t].token in i.revoked)
    && (forall token | token in r.blacklist :: token in i.revoked && r.blacklist[token] == expiry(token))
    && (forall token | token in i.revoked :: token in r.blacklist || expiry(token) < r.clock)
  }

  /**
   The clock may be set to this time, earlier ones included: what has been forgotten, or has just been
   missed, is expired then too, and no sweep is under way with a later time.
   */
  ghost predicate TickFits(expiry: string -> int, r: Real, i: Ideal, now: int) {
    && (forall token | token in i.revoked && token !in r.blacklist :: expiry(token) < now)
    && (forall t | t in r.calls && t in i.calls && r.calls[t] != i.calls[t] && r.calls[t].Checked? :: expiry(r.calls[t].token) < now)
    && (forall t | t in r.calls && r.calls[t].Sweeping? :: r.calls[t].now <= now)
  }

  /** A clock that does not go back always fits. */
  lemma ForwardFits(expiry: string -> int, r: Real, i: Ideal, now: int)
    requires Simulates(expiry, r, i) && r.clock <= now
    ensures TickFits(expiry, r, i, now)
  {
    forall t | t in r.calls ensures SameCall(expiry, r.clock, r.calls[t], i.calls[t]) {
    }
  }

  lemma SamePossible(verify: Verifier, expiry: string -> int, r: Real, i: Ideal, e: Event)
    requires Lawful(verify, expiry) && Simulates(expiry, r, i)
    ensures Possible(verify, r.clock, r.calls, e) <==> Possible(verify, i.clock, i.calls, e)
  {
    if !e.Tick? && e.t in r.calls {
      assert SameCall(expiry, r.clock, r.calls[e.t], i.calls[e.t]);
    }
  }

  lemma TickSimulates(expiry: string -> int, r: Real, i: Ideal, now: int)
    requires Simulates(expiry, r, i) && TickFits(expiry, r, i, now)
    ensures Simulates(expiry, r.(clock := now), i.(clock := now))
  {
    forall t | t in r.calls ensures SameCall(expiry, now, r.calls[t], i.calls[t]) {
      assert SameCall(expiry, r.clock, r.calls[t], i.calls[t]);
    }
  }

  lemma CheckSimulates(verify: Verifier, expiry: string -> int, r: Real, i: Ideal, e: Event)
    requires Simulates(expiry, r, i) && e.Check? && Possible(verify, r.clock, r.calls, e) && Possible(verify, i.clock, i.calls, e)
    ensures Simulates(expiry, RealNext(verify, r, e), IdealNext(verify, i, e))
  {
    assert SameCall(expiry, r.clock, r.calls[e.t], i.calls[e.t]);
  }

  lemma SweepSimulates(verify: Verifier, expiry: string -> int, r: Real, i: Ideal, e: Event)
    requires Simulates(expiry, r, i) && e.DoSweep? && Possible(verify, r.clock, r.calls, e) && Possible(verify, i.clock, i.calls, e)
    ensures Simulates(expiry, RealNext(verify, r, e), IdealNext(verify, i, e))
  {
    assert SameCall(expiry, r.clock, r.calls[e.t], i.calls[e.t]);
  }

  lemma InsertSimulates(verify: Verifier, expiry: string -> int, r: Real, i: Ideal, e: Event)
    requires Simulates(expiry, r, i) && e.Insert? && Possible(verify, r.clock, r.calls, e) && Possible(verify, i.clock, i.calls, e)
    ensures Simulates(expiry, RealNext(verify, r, e), IdealNext(verify, i, e))
  {
    assert SameCall(expiry, r.clock, r.calls[e.t], i.calls[e.t]);
  }

  /** The steps that leave the blacklist alone. */
  lemma CallSimulates(verify: Verifier, expiry: string -> int, r: Real, i: Ideal, e: Event)
    requires Lawful(verify, expiry) && Simulates(expiry, r, i)
    requires Possible(verify, r.clock, r.calls, e) && Possible(verify, i.clock, i.calls, e)
    requires !e.Tick? && !e.Check? && !e.DoSweep? && !e.Insert?
    ensures Simulates(expiry, RealNext(verify, r, e), IdealNext(verify, i, e))
  {
    assert SameCall(expiry, r.clock, r.calls[e.t], i.calls[e.t]);
  }

  lemma StepSimulates(verify: Verifier, expiry: string -> int, r: Real, i: Ideal, e: Event)
    requires Lawful(verify, expiry) && Simulates(expiry, r, i) && Possible(verify, r.clock, r.calls, e)
    requires e.Tick? ==> TickFits(expiry, r, i, e.now)
    ensures Possible(verify, i.clock, i.calls, e)
    ensures Simulates(expiry, RealNext(verify, r, e), IdealNext(verify, i, e))
  {
    hide Lawful, Simulates, Possible, TickFits;
    SamePossible(verify, expiry, r, i, e);
    match e
    case Tick(now) => TickSimulates(expiry, r, i, now);
    case Check(_) => CheckSimulates(verify, expiry, r, i, e);
    case DoSweep(_) => SweepSimulates(verify, expiry, r, i, e);
    case Insert(_) => InsertSimulates(verify, expiry, r, i, e);
    case _ => CallSimulates(verify, expiry, r, i, e);
  }

  /** Every setting of the clock in the run fits when it happens. */
  ghost predicate ClockFits(verify: Verifier, expiry: string -> int, r: Real, i: Ideal, es: seq<Event>)
    decreases |es|
  {
    es != [] ==>
      && (es[0].Tick? ==> TickFits(expiry, r, i, es[0].now))
      && (Possible(verify, r.clock, r.calls, es[0]) && Possible(verify, i.clock, i.calls, es[0]) ==>
            ClockFits(verify, expiry, RealNext(verify, r, es[0]), IdealNext(verify, i, es[0]), es[1..]))
  }

  /** The clock never goes back. */
  predicate Steady(clock: int, es: seq<Event>)
    decreases |es|
  {
    es != [] ==> if es[0].Tick? then clock <= es[0].now && Steady(es[0].now, es[1..]) else Steady(clock, es[1..])
  }

  lemma {:induction false} SteadyFits(verify: Verifier, expiry: string -> int, r: Real, i: Ideal, es: seq<Event>)
    requires Lawful(verify, expiry) && Simulates(expiry, r, i) && Steady(r.clock, es)
    ensures ClockFits(verify, expiry, r, i, es)
    decreases |es|
  {
    hide Lawful, Simulates, TickFits, Possible;
    if es != [] {
      SimulatesClock(expiry, r, i);
      if es[0].Tick? { ForwardFits(expiry, r, i, es[0].now); }
      if Possible(verify, r.clock, r.calls, es[0]) {
        StepSimulates(verify, expiry, r, i, es[0]);
        SteadyFits(verify, expiry, RealNext(verify, r, es[0]), IdealNext(verify, i, es[0]), es[1..]);
      }
    }
  }

  lemma SimulatesClock(expiry: string -> int, r: Real, i: Ideal)
    requires Simulates(expiry, r, i)
    ensures r.clock == i.clock
  {
  }

  /**
   For every interleaving of requests, revocations and sweeps, with a clock set as it may be (a clock that
   does not go back always is): the middleware that forgets can take exactly the steps, with the answers,
   of the one that never does.
   */
  lemma {:induction false} DecidesAsIfNothingForgotten(verify: Verifier, expiry: string -> int, r: Real, i: Ideal, es: seq<Event>)
    requires Lawful(verify, expiry) && Simulates(expiry, r, i) && ClockFits(verify, expiry, r, i, es)
    ensures RealRun(verify, r, es) <==> IdealRun(verify, i, es)
    decreases |es|
  {
    hide Lawful, Simulates, TickFits, Possible;
    if es != [] {
      SamePossible(verify, expiry, r, i, es[0]);
      if Possible(verify, r.clock, r.calls, es[0]) {
        StepSimulates(verify, expiry, r, i, es[0]);
        DecidesAsIfNothingForgotten(verify, expiry, RealNext(verify, r, es[0]), IdealNext(verify, i, es[0]), es[1..]);
      }
    }
  }

  /** A middleware nobody has used yet. */
  lemma FreshSimulates(expiry: string -> int, clock: int, threads: set<Tid>)
    ensures Simulates(expiry, Real(clock, map[], map t | t in threads :: NoCall),
                      Ideal(clock, {}, map t | t in threads :: NoCall))
  {
  }

  // ---------------------------------------------------------------- revoked means rejected

  /** The thread's request was begun on a token already revoked, and is still undecided. */
  ghost predicate Doomed(i: Ideal, t: Tid, token: string) {
    && token in i.revoked && t in i.calls
    && (i.calls[t] == Validating(token) || i.calls[t] == Checked(token, true))
  }

  lemma {:induction false} DoomedIsRejected(verify: Verifier, i: Ideal, es: seq<Event>, t: Tid, token: string, k: nat)
    requires IdealRun(verify, i, es) && Doomed(i, t, token)
    requires k < |es| && es[k].Decide? && es[k].t == t
    requires forall j | 0 <= j < k :: !(es[j].Decide? && es[j].t == t)
    ensures es[k].user.None?
    decreases k
  {
    if k > 0 {
      DoomedIsRejected(verify, IdealNext(verify, i, es[0]), es[1..], t, token, k - 1);
    }
  }

  /** A request on the token, from its first step to its decision. */
  predicate RequestIn(es: seq<Event>, t: Tid, token: string, begun: nat, decided: nat) {
    && begun < decided < |es| && es[begun] == StartValidate(t, token) && es[decided].Decide? && es[decided].t == t
    && forall j | begun < j < decided :: !(es[j].Decide? && es[j].t == t)
  }

  lemma RequestLater(es: seq<Event>, t: Tid, token: string, begun: nat, decided: nat)
    requires begun > 0 && RequestIn(es, t, token, begun, decided)
    ensures RequestIn(es[1..], t, token, begun - 1, decided - 1) && es[1..][decided - 1] == es[decided]
  {
    var rest := es[1..];
    forall j | begun - 1 < j < decided - 1 ensures !(rest[j].Decide? && rest[j].t == t) {
      assert rest[j] == es[j + 1];
    }
  }

  lemma RequestNow(verify: Verifier, i: Ideal, es: seq<Event>, t: Tid, token: string, decided: nat)
    requires RequestIn(es, t, token, 0, decided) && IdealRun(verify, i, es) && token in i.revoked
    ensures es[decided].user.None?
  {
    var rest := es[1..];
    forall j | 0 <= j < decided - 1 ensures !(rest[j].Decide? && rest[j].t == t) { assert rest[j] == es[j + 1]; }
    assert rest[decided - 1] == es[decided];
    DoomedIsRejected(verify, IdealNext(verify, i, es[0]), rest, t, token, decided - 1);
  }

  /**
   In any run: once a token has been put on the blacklist, every validateRequest begun on it later
   answers with a rejection, whatever has been evicted in between.
   */
  lemma {:induction false} RevokedThenRejected(verify: Verifier, expiry: string -> int, r: Real, i: Ideal, es: seq<Event>,
                                               token: string, t: Tid, begun: nat, decided: nat)
    requires Lawful(verify, expiry) && Simulates(expiry, r, i) && RealRun(verify, r, es) && ClockFits(verify, expiry, r, i, es)
    requires token in i.revoked && RequestIn(es, t, token, begun, decided)
    ensures es[decided].user.None?
    decreases begun
  {
    hide Lawful, Simulates, TickFits, Possible;
    if begun > 0 {
      StepSimulates(verify, expiry, r, i, es[0]);
      RequestLater(es, t, token, begun, decided);
      hide RequestIn;
      RevokedThenRejected(verify, expiry, RealNext(verify, r, es[0]), IdealNext(verify, i, es[0]), es[1..], token, t, begun - 1, decided - 1);
    } else {
      hide RealRun, IdealRun, ClockFits, RealNext, IdealNext;
      DecidesAsIfNothingForgotten(verify, expiry, r, i, es);
      RequestNow(verify, i, es, t, token, decided);
    }
  }

  /** From the step of invalidateToken that stores an accepted token, as its caller sees it return. */
  lemma InvalidatedThenRejected(verify: Verifier, expiry: string -> int, r: Real, i: Ideal, es: seq<Event>,
                                revoker: Tid, t: Tid, begun: nat, decided: nat)
    requires Lawful(verify, expiry) && Simulates(expiry, r, i) && RealRun(verify, r, es) && ClockFits(verify, expiry, r, i, es)
    requires es != [] && es[0] == Insert(revoker) && revoker in r.calls && r.calls[revoker].Verified?
    requires 0 < begun && RequestIn(es, t, r.calls[revoker].token, begun, decided)
    ensures es[decided].user.None?
  {
    hide *;
    RunFirst(verify, expiry, r, i, es);
    InsertedIsRevoked(verify, expiry, r, i, revoker);
    StepSimulates(verify, expiry, r, i, es[0]);
    RequestLater(es, t, r.calls[revoker].token, begun, decided);
    RevokedThenRejected(verify, expiry, RealNext(verify, r, es[0]), IdealNext(verify, i, es[0]), es[1..],
                        r.calls[revoker].token, t, begun - 1, decided - 1);
  }

  /** The first step of a run, and the rest. */
  lemma RunFirst(verify: Verifier, expiry: string -> int, r: Real, i: Ideal, es: seq<Event>)
    requires es != [] && RealRun(verify, r, es) && ClockFits(verify, expiry, r, i, es)
    ensures Possible(verify, r.clock, r.calls, es[0]) && RealRun(verify, RealNext(verify, r, es[0]), es[1..])
    ensures es[0].Tick? ==> TickFits(expiry, r, i, es[0].now)
    ensures Possible(verify, i.clock, i.calls, es[0]) ==>
              ClockFits(verify, expiry, RealNext(verify, r, es[0]), IdealNext(verify, i, es[0]), es[1..])
  {
    hide Possible, TickFits, RealNext, IdealNext;
  }

  lemma InsertedIsRevoked(verify: Verifier, expiry: string -> int, r: Real, i: Ideal, revoker: Tid)
    requires Simulates(expiry, r, i) && revoker in r.calls && r.calls[revoker].Verified?
    ensures Possible(verify, i.clock, i.calls, Insert(revoker))
    ensures r.calls[revoker].token in IdealNext(verify, i, Insert(revoker)).revoked
  {
    assert SameCall(expiry, r.clock, r.calls[revoker], i.calls[revoker]);
  }

  // ---------------------------------------------------------------- a clock set back too far

  /**
   A token evicted at one time is accepted at another exactly when the verifier accepts it then, and that
   is at or before its expiry, so before the eviction.
   */
  lemma ClockSetBackReadmits(verify: Verifier, expiry: string -> int, b: Blacklist, token: string, evictedAt: int, now: int)
    requires Lawful(verify, expiry) && token in b && b[token] == expiry(token) < evictedAt
    ensures var left := Lookup(b, token, evictedAt).0;
            var answer := Answer(verify, token, Lookup(left, token, now).1, now);
            (answer.Some? <==> verify(token, now).Some?) && (answer.Some? ==> now <= expiry(token) < evictedAt)
  {
  }

  /** How a setting of the clock fails to fit, for one token and one thread. */
  predicate Forgotten(r: Real, i: Ideal, token: string, t: Tid) {
    token in i.revoked && token !in r.blacklist && t in r.calls && t in i.calls && r.calls[t].NoCall? && i.calls[t].NoCall?
  }

  predicate Missed(r: Real, i: Ideal, token: string, t: Tid) {
    t in r.calls && t in i.calls && r.calls[t] == Checked(token, false) && i.calls[t] == Checked(token, true)
  }

  predicate SweptAway(r: Real, i: Ideal, token: string, t: Tid) {
    t in r.calls && t in i.calls && r.calls[t].Sweeping? && i.calls[t] == r.calls[t]
    && token in r.blacklist && token in i.revoked && r.blacklist[token] < r.calls[t].now
  }

  /** A run that the middleware takes and the one that never forgets does not. */
  ghost predicate Tells(verify: Verifier, r: Real, i: Ideal, es: seq<Event>) {
    RealRun(verify, r, es) && !IdealRun(verify, i, es)
  }

  lemma TellsFrom(verify: Verifier, r: Real, i: Ideal, e: Event, rest: seq<Event>)
    requires Possible(verify, r.clock, r.calls, e) && Possible(verify, i.clock, i.calls, e)
    requires Tells(verify, RealNext(verify, r, e), IdealNext(verify, i, e), rest)
    ensures Tells(verify, r, i, [e] + rest)
  {
    hide Possible;
    assert ([e] + rest)[1..] == rest;
  }

  /** The missed look-up is answered with the user. */
  lemma MissedTells(verify: Verifier, r: Real, i: Ideal, token: string, t: Tid)
    requires Missed(r, i, token, t) && verify(token, r.clock).Some? && r.clock == i.clock
    ensures Tells(verify, r, i, [Decide(t, Some(verify(token, r.clock).value.userId))])
  {
    var e := Decide(t, Some(verify(token, r.clock).value.userId));
    assert [e][1..] == [];
  }

  /** The forgotten token is presented once more. */
  lemma ForgottenTells(verify: Verifier, r: Real, i: Ideal, token: string, t: Tid)
    requires Forgotten(r, i, token, t) && verify(token, r.clock).Some? && r.clock == i.clock
    ensures Tells(verify, r, i, [StartValidate(t, token)] + ([Check(t)] + [Decide(t, Some(verify(token, r.clock).value.userId))]))
  {
    var r1, i1 := RealNext(verify, r, StartValidate(t, token)), IdealNext(verify, i, StartValidate(t, token));
    var r2, i2 := RealNext(verify, r1, Check(t)), IdealNext(verify, i1, Check(t));
    assert Missed(r2, i2, token, t);
    hide RealRun, IdealRun;
    MissedTells(verify, r2, i2, token, t);
    TellsFrom(verify, r1, i1, Check(t), [Decide(t, Some(verify(token, r.clock).value.userId))]);
    TellsFrom(verify, r, i, StartValidate(t, token), [Check(t)] + [Decide(t, Some(verify(token, r.clock).value.userId))]);
  }

  lemma SweptAwayTells(verify: Verifier, r: Real, i: Ideal, token: string, t: Tid) returns (es: seq<Event>)
    requires SweptAway(r, i, token, t) && verify(token, r.clock).Some? && r.clock == i.clock
    ensures Tells(verify, r, i, es) && forall e | e in es :: !e.Tick?
  {
    var r1, i1 := RealNext(verify, r, DoSweep(t)), IdealNext(verify, i, DoSweep(t));
    assert Forgotten(r1, i1, token, t);
    hide RealRun, IdealRun;
    ForgottenTells(verify, r1, i1, token, t);
    var rest := [StartValidate(t, token)] + ([Check(t)] + [Decide(t, Some(verify(token, r.clock).value.userId))]);
    TellsFrom(verify, r, i, DoSweep(t), rest);
    es := [DoSweep(t)] + rest;
  }

  /**
   Set back to a time at which the verifier accepts a token that has been forgotten or missed, or that a
   sweep under way is about to drop, the clock tells the two middlewares apart.
   */
  lemma UnfitTickTells(verify: Verifier, r: Real, i: Ideal, now: int, token: string, t: Tid) returns (es: seq<Event>)
    requires r.clock == i.clock && verify(token, now).Some?
    requires Forgotten(r, i, token, t) || Missed(r, i, token, t) || SweptAway(r, i, token, t)
    ensures es != [] && es[0] == Tick(now) && Steady(now, es[1..]) && Tells(verify, r, i, es)
  {
    var r1, i1 := RealNext(verify, r, Tick(now)), IdealNext(verify, i, Tick(now));
    hide RealRun, IdealRun;
    var rest: seq<Event>;
    if Missed(r, i, token, t) {
      MissedTells(verify, r1, i1, token, t);
      rest := [Decide(t, Some(verify(token, now).value.userId))];
    } else if Forgotten(r, i, token, t) {
      ForgottenTells(verify, r1, i1, token, t);
      rest := [StartValidate(t, token)] + ([Check(t)] + [Decide(t, Some(verify(token, now).value.userId))]);
    } else {
      rest := SweptAwayTells(verify, r1, i1, token, t);
    }
    NoTickIsSteady(now, rest);
    TellsFrom(verify, r, i, Tick(now), rest);
    es := [Tick(now)] + rest;
    assert es[1..] == rest;
  }

  lemma {:induction false} NoTickIsSteady(clock: int, es: seq<Event>)
    requires forall e | e in es :: !e.Tick?
    ensures Steady(clock, es)
    decreases |es|
  {
    if es != [] {
      assert es[0] in es;
      NoTickIsSteady(clock, es[1..]);
    }
  }

  /** The runs that set the clock to this time and never back from there. */
  predicate SetsClock(es: seq<Event>, now: int) {
    es != [] && es[0] == Tick(now) && Steady(now, es[1..])
  }

  /**
   With some thread idle, no sweep under way, and revoked tokens that the verifier accepts up to their
   expiry: setting the clock fits if and only if the two middlewares agree on every run that does so.
   */
  lemma TickIsSafeIff(verify: Verifier, expiry: string -> int, r: Real, i: Ideal, now: int, idle: Tid)
    requires Lawful(verify, expiry) && Simulates(expiry, r, i)
    requires idle in r.calls && r.calls[idle].NoCall? && forall t | t in r.calls :: !r.calls[t].Sweeping?
    requires forall token :: token in i.revoked && now <= expiry(token) ==> verify(token, now).Some?
    ensures TickFits(expiry, r, i, now)
            <==> forall es | SetsClock(es, now) :: RealRun(verify, r, es) <==> IdealRun(verify, i, es)
  {
    if TickFits(expiry, r, i, now) {
      forall es | SetsClock(es, now) ensures RealRun(verify, r, es) <==> IdealRun(verify, i, es) {
        FittingRun(verify, expiry, r, i, now, es);
      }
    } else {
      SimulatesClock(expiry, r, i);
      var token, t := UnfitFor(expiry, r, i, now, idle);
      var es := UnfitTickTells(verify, r, i, now, token, t);
      assert SetsClock(es, now);
    }
  }

  lemma FittingRun(verify: Verifier, expiry: string -> int, r: Real, i: Ideal, now: int, es: seq<Event>)
    requires Lawful(verify, expiry) && Simulates(expiry, r, i) && TickFits(expiry, r, i, now) && SetsClock(es, now)
    ensures RealRun(verify, r, es) <==> IdealRun(verify, i, es)
  {
    TickSimulates(expiry, r, i, now);
    hide Lawful, Simulates, TickFits;
    SteadyFits(verify, expiry, r.(clock := now), i.(clock := now), es[1..]);
    DecidesAsIfNothingForgotten(verify, expiry, r, i, es);
  }

  lemma UnfitFor(expiry: string -> int, r: Real, i: Ideal, now: int, idle: Tid) returns (token: string, t: Tid)
    requires Simulates(expiry, r, i) && !TickFits(expiry, r, i, now)
    requires idle in r.calls && r.calls[idle].NoCall? && forall t | t in r.calls :: !r.calls[t].Sweeping?
    ensures token in i.revoked && now <= expiry(token) && (Forgotten(r, i, token, t) || Missed(r, i, token, t))
  {
    if k :| k in i.revoked && k !in r.blacklist && now <= expiry(k) {
      token, t := k, idle;
      assert SameCall(expiry, r.clock, r.calls[idle], i.calls[idle]);
    } else {
      t :| t in r.calls && r.calls[t] != i.calls[t] && r.calls[t].Checked? && now <= expiry(r.calls[t].token);
      token := r.calls[t].token;
      assert SameCall(expiry, r.clock, r.calls[t], i.calls[t]);
    }
  }

  // ---------------------------------------------------------------- calls without interruption

  /** invalidateToken puts an accepted token on both lists, with its expiry; a token that is not accepted leaves them. */
  lemma TokenIsRevoked(verify: Verifier, r: Real, i: Ideal, t: Tid, token: string)
    requires t in r.calls && t in i.calls && r.calls[t].NoCall? && i.calls[t].NoCall? && r.clock == i.clock
    ensures Possible(verify, r.clock, r.calls, StartRevoke(t, token)) && Possible(verify, i.clock, i.calls, StartRevoke(t, token))
    ensures var r1, i1 := RealNext(verify, r, StartRevoke(t, token)), IdealNext(verify, i, StartRevoke(t, token));
            && Possible(verify, r1.clock, r1.calls, VerifyForRevoke(t)) && Possible(verify, i1.clock, i1.calls, VerifyForRevoke(t))
            && var r2, i2 := RealNext(verify, r1, VerifyForRevoke(t)), IdealNext(verify, i1, VerifyForRevoke(t));
               match verify(token, r.clock)
               case None => r2 == r && i2 == i
               case Some(claims) =>
                 && Possible(verify, r2.clock, r2.calls, Insert(t)) && Possible(verify, i2.clock, i2.calls, Insert(t))
                 && RealNext(verify, r2, Insert(t)) == Real(r.clock, r.blacklist[token := claims.expiresAt], r.calls[t := Inserted])
                 && IdealNext(verify, i2, Insert(t)) == Ideal(i.clock, i.revoked + {token}, i.calls[t := Inserted])
  {
    assert r.calls[t := NoCall] == r.calls && i.calls[t := NoCall] == i.calls;
  }

  /** A request for a token that is on neither list is answered by the verifier at the time of the answer. */
  lemma OthersAreServed(verify: Verifier, r: Real, t: Tid, token: string)
    requires t in r.calls && r.calls[t].NoCall? && token !in r.blacklist
    ensures Possible(verify, r.clock, r.calls, StartValidate(t, token))
    ensures var r1 := RealNext(verify, r, StartValidate(t, token));
            && Possible(verify, r1.clock, r1.calls, Check(t))
            && var r2 := RealNext(verify, r1, Check(t));
               forall user ::
                 Possible(verify, r2.clock, r2.calls, Decide(t, user))
                 <==> user == match verify(token, r.clock) case None => None case Some(claims) => Some(claims.userId)
  {
  }
}
