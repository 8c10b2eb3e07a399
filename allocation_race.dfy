/**
 * Concurrent createBooking calls for one storage unit. Each call is a transaction that begins
 * (reads and checks) and later ends (commits or rolls back); a schedule is any interleaving of
 * those begin and end events. Whatever the schedule, at most one call books the unit, the
 * store ends exactly as if that call had run alone, and every other call fails with a booking
 * conflict or with the unit no longer available.
 */
module AllocationRace {
  import opened Wrappers
  import opened Entities
  import opened Exceptions
  import opened Requests
  import opened Tables
  import opened Bookings

  /** One createBooking call: the caller's tenant and its request. */
  datatype Attempt = Attempt(tenantId: Id, request: CreateBooking)

  /** Transaction `t` begins, or transaction `t` ends. */
  datatype Event = Start(t: nat) | End(t: nat)

  /** The store, what each begun transaction read, and how each ended transaction came out. */
  datatype Race = Race(
    db: Db,
    begun: map<nat, Result<PendingAllocation, Error>>,
    outcome: map<nat, Result<Booking, Error>>)

  predicate AllComplete(attempts: seq<Attempt>)
  {
    forall i | 0 <= i < |attempts| :: attempts[i].request.Complete()
  }

  /** A transaction begins at most once and ends at most once, and only after it began. */
  function Step(r: Race, attempts: seq<Attempt>, e: Event): (r': Race)
    requires AllComplete(attempts)
    ensures r'.begun.Keys >= r.begun.Keys && r'.outcome.Keys >= r.outcome.Keys
  {
    match e
    case Start(t) =>
      if t < |attempts| && t !in r.begun then
        r.(begun := r.begun[t := Begin(r.db, attempts[t].tenantId, attempts[t].request)])
      else r
    case End(t) =>
      if t in r.begun && t !in r.outcome then
        var (db', result) := Finish(r.db, r.begun[t]);
        Race(db', r.begun, r.outcome[t := result])
      else r
  }

  function Run(r: Race, attempts: seq<Attempt>, events: seq<Event>): Race
    requires AllComplete(attempts)
    decreases |events|
  {
    if events == [] then r else Run(Step(r, attempts, events[0]), attempts, events[1..])
  }

  function Winners(r: Race): set<nat>
  {
    set t | t in r.outcome && r.outcome[t].Ok?
  }

  /** Every call books unit `u` and would pass the checks on the starting store. */
  predicate Contenders(db0: Db, u: Id, attempts: seq<Attempt>)
  {
    && AllComplete(attempts)
    && (forall i | 0 <= i < |attempts| :: attempts[i].request.storageUnitId.value == u)
    && (forall i | 0 <= i < |attempts| :: CanAllocate(db0, attempts[i].tenantId, attempts[i].request))
  }

  /** What holds after every prefix of every schedule. */
  ghost predicate RaceInv(db0: Db, u: Id, attempts: seq<Attempt>, r: Race)
    requires Contenders(db0, u, attempts)
  {
    && r.outcome.Keys <= r.begun.Keys
    && (forall t | t in r.begun :: t < |attempts|)
    && (forall t | t in r.begun && r.begun[t].Ok? ::
          r.begun[t] == Begin(db0, attempts[t].tenantId, attempts[t].request))
    && (forall t | t in r.begun && r.begun[t].Err? :: r.begun[t] == Err(IllegalState))
    && (forall t | t in r.outcome && r.outcome[t].Err? ::
          r.outcome[t] == Err(IllegalState) || r.outcome[t] == Err(BookingConflict))
    && (Winners(r) == {} ==> r.db == db0 && r.outcome.Keys == {})
    && (Winners(r) == {} ==> forall t | t in r.begun :: r.begun[t].Ok?)
    && (Winners(r) != {} ==> exists w :: WonBy(db0, attempts, r, w))
  }

  /** The winner, when there is one, and the store it left. */
  ghost predicate WonBy(db0: Db, attempts: seq<Attempt>, r: Race, w: nat)
    requires AllComplete(attempts)
  {
    && w in r.outcome && Winners(r) == {w} && w < |attempts|
    && (r.db, r.outcome[w]) == Allocate(db0, attempts[w].tenantId, attempts[w].request)
  }

  /** What a later commit sees of the winner's store: the unit OCCUPIED, its version moved on. */
  lemma WinnerUnit(db0: Db, u: Id, attempts: seq<Attempt>, w: nat)
    requires Wf(db0) && Contenders(db0, u, attempts) && w < |attempts|
    ensures var (db1, r) := Allocate(db0, attempts[w].tenantId, attempts[w].request);
      && r.Ok? && u in db0.units && u in db1.units && db1.units[u].status == Occupied
      && db1.units[u].version == db0.units[u].version + 1
  {
    AllocateSucceeds(db0, attempts[w].tenantId, attempts[w].request);
  }

  lemma StartAfterWin(db0: Db, u: Id, attempts: seq<Attempt>, r: Race, t: nat, w: nat)
    requires Wf(db0) && Contenders(db0, u, attempts) && RaceInv(db0, u, attempts, r)
    requires WonBy(db0, attempts, r, w)
    ensures RaceInv(db0, u, attempts, Step(r, attempts, Start(t)))
  {
    WinnerUnit(db0, u, attempts, w);
    var r' := Step(r, attempts, Start(t));
    if t < |attempts| && t !in r.begun {
      assert r'.begun[t] == Err(IllegalState);
    }
    assert WonBy(db0, attempts, r', w);
  }

  lemma EndAfterWin(db0: Db, u: Id, attempts: seq<Attempt>, r: Race, t: nat, w: nat)
    requires Wf(db0) && Contenders(db0, u, attempts) && RaceInv(db0, u, attempts, r)
    requires WonBy(db0, attempts, r, w)
    ensures RaceInv(db0, u, attempts, Step(r, attempts, End(t)))
  {
    WinnerUnit(db0, u, attempts, w);
    var r' := Step(r, attempts, End(t));
    if t in r.begun && t !in r.outcome {
      if r.begun[t].Ok? {
        assert r.begun[t].value.unitRead == db0.units[u];
        assert r'.outcome[t] == Err(BookingConflict);
      } else {
        assert r'.outcome[t] == Err(IllegalState);
      }
      assert r'.db == r.db;
      assert Winners(r') == {w};
    }
    assert WonBy(db0, attempts, r', w);
  }

  lemma StartBeforeWin(db0: Db, u: Id, attempts: seq<Attempt>, r: Race, t: nat)
    requires Wf(db0) && Contenders(db0, u, attempts) && RaceInv(db0, u, attempts, r)
    requires Winners(r) == {}
    ensures RaceInv(db0, u, attempts, Step(r, attempts, Start(t)))
  {
    var r' := Step(r, attempts, Start(t));
    if t < |attempts| && t !in r.begun {
      assert r'.begun[t].Ok?;
    }
    assert Winners(r') == {};
  }

  lemma EndBeforeWin(db0: Db, u: Id, attempts: seq<Attempt>, r: Race, t: nat)
    requires Wf(db0) && Contenders(db0, u, attempts) && RaceInv(db0, u, attempts, r)
    requires Winners(r) == {}
    ensures RaceInv(db0, u, attempts, Step(r, attempts, End(t)))
  {
    var r' := Step(r, attempts, End(t));
    if t in r.begun && t !in r.outcome {
      assert r.begun[t] == Begin(db0, attempts[t].tenantId, attempts[t].request);
      WinnerUnit(db0, u, attempts, t);
      assert r'.outcome[t].Ok?;
      assert Winners(r') == {t};
      assert WonBy(db0, attempts, r', t);
    } else {
      assert r' == r;
    }
  }

  lemma StepKeepsInv(db0: Db, u: Id, attempts: seq<Attempt>, r: Race, e: Event)
    requires Wf(db0) && Contenders(db0, u, attempts) && RaceInv(db0, u, attempts, r)
    ensures RaceInv(db0, u, attempts, Step(r, attempts, e))
  {
    if Winners(r) != {} {
      var w :| WonBy(db0, attempts, r, w);
      match e
      case Start(t) => StartAfterWin(db0, u, attempts, r, t, w);
      case End(t) => EndAfterWin(db0, u, attempts, r, t, w);
    } else {
      match e
      case Start(t) => StartBeforeWin(db0, u, attempts, r, t);
      case End(t) => EndBeforeWin(db0, u, attempts, r, t);
    }
  }

  lemma {:induction false} RunKeepsInv(db0: Db, u: Id, attempts: seq<Attempt>, r: Race, events: seq<Event>)
    requires Wf(db0) && Contenders(db0, u, attempts) && RaceInv(db0, u, attempts, r)
    ensures RaceInv(db0, u, attempts, Run(r, attempts, events))
    decreases |events|
  {
    if events != [] {
      StepKeepsInv(db0, u, attempts, r, events[0]);
      RunKeepsInv(db0, u, attempts, Step(r, attempts, events[0]), events[1..]);
    }
  }

  /** The winner's store: the unit is OCCUPIED and holds exactly one more booking. */
  lemma WinnerFacts(db0: Db, u: Id, attempts: seq<Attempt>, r: Race, w: nat)
    requires Wf(db0) && Contenders(db0, u, attempts) && WonBy(db0, attempts, r, w)
    ensures r.db.units[u].status == Occupied
    ensures |BookingsOfUnit(r.db, u)| == |BookingsOfUnit(db0, u)| + 1
  {
    AllocateSucceeds(db0, attempts[w].tenantId, attempts[w].request);
    var b := r.outcome[w].value;
    assert BookingsOfUnit(r.db, u) == BookingsOfUnit(db0, u) + {b.id};
    assert b.id !in BookingsOfUnit(db0, u);
  }

  /** What the invariant says about the race once it holds. */
  lemma InvConsequences(db0: Db, u: Id, attempts: seq<Attempt>, r: Race)
    requires Wf(db0) && Contenders(db0, u, attempts) && RaceInv(db0, u, attempts, r)
    ensures |Winners(r)| <= 1
    ensures Winners(r) == {} ==> r.db == db0
    ensures forall w | w in Winners(r) ::
            w < |attempts| && (r.db, r.outcome[w]) == Allocate(db0, attempts[w].tenantId, attempts[w].request)
            && r.db.units[u].status == Occupied
            && |BookingsOfUnit(r.db, u)| == |BookingsOfUnit(db0, u)| + 1
    ensures forall t | t in r.outcome && t !in Winners(r) ::
            r.outcome[t] == Err(BookingConflict) || r.outcome[t] == Err(IllegalState)
    ensures r.outcome.Keys != {} ==> |Winners(r)| == 1
  {
    if Winners(r) != {} {
      var w :| WonBy(db0, attempts, r, w);
      WinnerFacts(db0, u, attempts, r, w);
    }
  }

  /**
   * Any number of callers book the same AVAILABLE unit under any interleaving, each of them one
   * that would pass the four checks of createBooking on the starting store. At most one
   * succeeds, and the store then equals what that caller alone would have produced; each other
   * caller that finished got a booking conflict (it read the unit before the winner committed)
   * or an illegal state (it read the unit after). Once any caller has finished, there is a
   * winner, so when all have finished exactly one succeeded and the rest failed.
   */
  lemma AtMostOneBookingPerUnit(db0: Db, u: Id, attempts: seq<Attempt>, events: seq<Event>)
    requires Wf(db0) && Contenders(db0, u, attempts)
    ensures var r := Run(Race(db0, map[], map[]), attempts, events);
      && |Winners(r)| <= 1
      && (Winners(r) == {} ==> r.db == db0)
      && (forall w | w in Winners(r) ::
            w < |attempts| && (r.db, r.outcome[w]) == Allocate(db0, attempts[w].tenantId, attempts[w].request)
            && r.db.units[u].status == Occupied
            && |BookingsOfUnit(r.db, u)| == |BookingsOfUnit(db0, u)| + 1)
      && (forall t | t in r.outcome && t !in Winners(r) ::
            r.outcome[t] == Err(BookingConflict) || r.outcome[t] == Err(IllegalState))
      && (r.outcome.Keys != {} ==> |Winners(r)| == 1)
  {
    var r0 := Race(db0, map[], map[]);
    assert Winners(r0) == {};
    RunKeepsInv(db0, u, attempts, r0, events);
    InvConsequences(db0, u, attempts, Run(r0, attempts, events));
  }

  lemma RunOfFour(r: Race, attempts: seq<Attempt>, e0: Event, e1: Event, e2: Event, e3: Event)
    requires AllComplete(attempts)
    ensures Run(r, attempts, [e0, e1, e2, e3])
         == Step(Step(Step(Step(r, attempts, e0), attempts, e1), attempts, e2), attempts, e3)
  {
    var events := [e0, e1, e2, e3];
    assert events[1..] == [e1, e2, e3];
    assert events[1..][1..] == [e2, e3];
    assert events[1..][1..][1..] == [e3];
    assert events[1..][1..][1..][1..] == [];
    var r1 := Step(r, attempts, e0);
    var r2 := Step(r1, attempts, e1);
    var r3 := Step(r2, attempts, e2);
    assert Run(r3, attempts, [e3]) == Step(r3, attempts, e3);
    assert Run(r2, attempts, [e2, e3]) == Run(r3, attempts, [e3]);
    assert Run(r1, attempts, [e1, e2, e3]) == Run(r2, attempts, [e2, e3]);
  }

  /**
   * Two callers released together, each reading before either commits (read, read, commit,
   * commit): the first to commit books the unit, the second gets a booking conflict, and the
   * unit ends OCCUPIED with one more booking.
   */
  lemma TwoSimultaneousCallers(db0: Db, u: Id, a1: Attempt, a2: Attempt)
    requires Wf(db0) && Contenders(db0, u, [a1, a2]) && a1.request.Complete()
    ensures var (db1, b1) := Allocate(db0, a1.tenantId, a1.request);
      && Run(Race(db0, map[], map[]), [a1, a2], [Start(0), Start(1), End(0), End(1)])
         == Race(db1, map[0 := Begin(db0, a1.tenantId, a1.request), 1 := Begin(db0, a2.tenantId, a2.request)],
                 map[0 := b1, 1 := Err(BookingConflict)])
      && b1.Ok? && u in db1.units && db1.units[u].status == Occupied
      && |BookingsOfUnit(db1, u)| == |BookingsOfUnit(db0, u)| + 1
  {
    var attempts := [a1, a2];
    assert attempts[0] == a1 && attempts[1] == a2;
    var r0 := Race(db0, map[], map[]);
    RunOfFour(r0, attempts, Start(0), Start(1), End(0), End(1));
    var p1 := Begin(db0, a1.tenantId, a1.request);
    var p2 := Begin(db0, a2.tenantId, a2.request);
    var begun := map[0 := p1, 1 := p2];
    var r2 := Race(db0, begun, map[]);
    assert Step(Step(r0, attempts, Start(0)), attempts, Start(1)) == r2;
    var (db1, b1) := Allocate(db0, a1.tenantId, a1.request);
    AllocateSucceeds(db0, a1.tenantId, a1.request);
    var r3 := Race(db1, begun, map[0 := b1]);
    assert Step(r2, attempts, End(0)) == r3;
    assert db1.units[u].version != p2.value.unitRead.version;
    assert Step(r3, attempts, End(1)) == Race(db1, begun, map[0 := b1, 1 := Err(BookingConflict)]);
  }
}
