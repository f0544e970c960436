/** Whole operations as runs of their processes, and how they extend a run in which other processes take part. */
module Scenarios {
  import opened Common
  import opened Transactions
  import opened Saga
  import opened SagaInvariant
  import opened SagaSafety
  import opened SagaRuns
  import opened Outcomes
  import opened Bookings
  import I = InventorySpec
  import B = BookingSpec

  // ---- worlds that runs reach ----

  ghost predicate Reached(w: World) {
    exists ws: seq<World>, actions: seq<Action> :: IsRun(ws, actions) && ws[|actions|] == w
  }

  /** By a run in which callers need not wait for Book to return. */
  ghost predicate FreelyReached(w: World) {
    exists ws: seq<World>, actions: seq<Action> :: IsFreeRun(ws, actions) && ws[|actions|] == w
  }

  lemma ReachedNext(w: World, a: Action, w': World)
    requires Reached(w) && Transits(w, a, w')
    ensures Reached(w')
  {
    hide Transits;
    var ws: seq<World>, actions: seq<Action> :| IsRun(ws, actions) && ws[|actions|] == w;
    assert IsRun(ws + [w'], actions + [a]) by {
      forall i | 0 <= i < |actions + [a]| ensures Transits((ws + [w'])[i], (actions + [a])[i], (ws + [w'])[i + 1]) {
        assert i < |actions| ==> Transits(ws[i], actions[i], ws[i + 1]);
      }
    }
    assert (ws + [w'])[|actions + [a]|] == w';
  }

  lemma FreelyReachedNext(w: World, a: Action, w': World)
    requires FreelyReached(w) && TransitsFreely(w, a, w')
    ensures FreelyReached(w')
  {
    hide TransitsFreely;
    var ws: seq<World>, actions: seq<Action> :| IsFreeRun(ws, actions) && ws[|actions|] == w;
    assert IsFreeRun(ws + [w'], actions + [a]) by {
      forall i | 0 <= i < |actions + [a]|
        ensures TransitsFreely((ws + [w'])[i], (actions + [a])[i], (ws + [w'])[i + 1])
      {
        assert i < |actions| ==> TransitsFreely(ws[i], actions[i], ws[i + 1]);
      }
    }
    assert (ws + [w'])[|actions + [a]|] == w';
  }

  lemma StepIsFree(w: World, a: Action, w': World)
    requires Transits(w, a, w')
    ensures TransitsFreely(w, a, w')
  {
  }

  lemma ReachedIsFreelyReached(w: World)
    requires Reached(w)
    ensures FreelyReached(w)
  {
    hide Transits, TransitsFreely;
    var ws: seq<World>, actions: seq<Action> :| IsRun(ws, actions) && ws[|actions|] == w;
    forall i | 0 <= i < |actions| ensures TransitsFreely(ws[i], actions[i], ws[i + 1]) {
      StepIsFree(ws[i], actions[i], ws[i + 1]);
    }
    assert IsFreeRun(ws, actions);
  }

  lemma EmptyIsReached()
    ensures Reached(World(Db(map[], map[], 0), map[], map[]))
  {
    assert IsRun([World(Db(map[], map[], 0), map[], map[])], []);
  }

  /** The world after process pid has gone on with the given outcomes while all others waited. */
  function Later(w: World, pid: nat, es: seq<Env>): World
    requires pid in w.procs
  {
    var n := Execute(w.db, w.procs[pid], es);
    w.(db := n.db, procs := w.procs[pid := n.proc])
  }

  lemma {:induction false} GoesOnFreely(w: World, pid: nat, es: seq<Env>)
    requires FreelyReached(w) && pid in w.procs && ListingsOk(w.db, w.procs[pid], es)
    ensures FreelyReached(Later(w, pid, es))
  {
    hide Advance, ListingsOk, FreelyReached;
    if es == [] {
      assert w.procs[pid := w.procs[pid]] == w.procs;
    } else {
      var init, e := es[..|es| - 1], es[|es| - 1];
      ListingsOkInit(w.db, w.procs[pid], es);
      LastListingOk(w.db, w.procs[pid], es);
      GoesOnFreely(w, pid, init);
      var before := Later(w, pid, init);
      assert Stepped(before, pid, e).procs == Later(w, pid, es).procs;
      FreelyReachedNext(before, Step(pid, e), Later(w, pid, es));
    }
  }

  /**
   * The process never has to wait from here on: a Book never does, a Confirm only at its start and for a Book of its
   * own booking, and no process does when no Book is running at all.
   */
  ghost predicate NobodyWaits(w: World, pid: nat) {
    && pid in w.procs
    && var p := w.procs[pid];
       || IsBook(p) || IsPass(p) || p == Finished
       || (p.ConfirmStart? && NoBookRunning(w, p.id))
       || (forall q :: q in w.procs ==> !IsBook(w.procs[q]))
  }

  lemma StepKeepsNobodyWaiting(w: World, pid: nat, e: Env)
    requires NobodyWaits(w, pid)
    ensures NobodyWaits(Stepped(w, pid, e), pid) && CallersWait(w, w.procs[pid])
  {
  }

  lemma {:induction false} GoesOn(w: World, pid: nat, es: seq<Env>)
    requires Reached(w) && pid in w.procs && NobodyWaits(w, pid) && ListingsOk(w.db, w.procs[pid], es)
    ensures Reached(Later(w, pid, es)) && NobodyWaits(Later(w, pid, es), pid)
  {
    hide Advance, ListingsOk, Reached, NobodyWaits, CallersWait;
    if es == [] {
      assert w.procs[pid := w.procs[pid]] == w.procs;
    } else {
      var init, e := es[..|es| - 1], es[|es| - 1];
      ListingsOkInit(w.db, w.procs[pid], es);
      LastListingOk(w.db, w.procs[pid], es);
      GoesOn(w, pid, init);
      var before := Later(w, pid, init);
      StepKeepsNobodyWaiting(before, pid, e);
      assert Stepped(before, pid, e).procs == Later(w, pid, es).procs;
      ReachedNext(before, Step(pid, e), Later(w, pid, es));
    }
  }

  // ---- operations that meet no obstacle ----

  /** A pass of Confirm over nights that all have their hold in the right status. */
  lemma {:induction false} PassesAll(db0: Db, p0: Proc, es: seq<Env>, db: Db, starting: bool, b: B.Booking, i: int)
    returns (es': seq<Env>)
    requires 0 <= i <= b.period.Nights()
    requires var status := if starting then I.ProcessingPayment else I.Confirmed;
             Execute(db0, p0, es) == Next(Moved(db, b, b.period.checkin + i, status), Passing(starting, b, i))
    requires var from := if starting then I.TemporaryHold else I.ProcessingPayment;
             forall j :: i <= j < b.period.Nights() ==>
                 db.HasHold(b.Night(j), b.id) && db.HoldOf(b.Night(j), b.id).status == from
    ensures var status := if starting then I.ProcessingPayment else I.Confirmed;
            Execute(db0, p0, es') ==
                Next(Moved(db, b, b.period.checkout, status), Passing(starting, b, b.period.Nights()))
    ensures es <= es'
    decreases b.period.Nights() - i
  {
    hide Execute, Moved, Mutate;
    es' := es;
    if i < b.period.Nights() {
      MoveNext(db, b, i, starting);
      var status := if starting then I.ProcessingPayment else I.Confirmed;
      ConfirmMoves(db0, p0, es, Moved(db, b, b.period.checkin + i, status), starting, b, i, false);
      es' := PassesAll(db0, p0, es + [Ends(false)], db, starting, b, i + 1);
    }
  }

  lemma {:induction false} ReleasesAll(db0: Db, p0: Proc, es: seq<Env>, db: Db, b: B.Booking, i: int, now: Instant,
      rest: seq<Uuid>)
    returns (es': seq<Env>)
    requires 0 <= i <= b.period.Nights()
    requires Execute(db0, p0, es) == Next(WithoutHolds(db, b, b.period.checkin + i), CancelRelease(b, i, now, rest))
    ensures Execute(db0, p0, es') == Next(WithoutHolds(db, b, b.period.checkout), CancelNext(rest, now))
    decreases b.period.Nights() - i
  {
    hide Execute, WithoutHolds, Mutate;
    CancelReleases(db0, p0, es, WithoutHolds(db, b, b.period.checkin + i), b, i, now, rest, Ends(false));
    es' := es + [Ends(false)];
    if i < b.period.Nights() {
      ReleaseOneMore(db, b, i);
      es' := ReleasesAll(db0, p0, es', db, b, i + 1, now, rest);
    }
  }

  /** A Cancel run in full. */
  lemma CancelRuns(db: Db, id: Uuid, reason: B.Reason, now: Instant, rest: seq<Uuid>) returns (es: seq<Env>)
    requires DbOk(db) && id in db.bookings
    ensures Execute(db, CancelStart(id, reason, now, rest), es) ==
            Next(Cancelling(db, {id}, reason, now), CancelNext(rest, now))
  {
    hide WithoutHolds, Cancelling, Execute;
    var p0 := CancelStart(id, reason, now, rest);
    CancellingOneRow(db, id, reason, now);
    CancelAll(db, id, reason, now);
    CancelStarts(db, id, reason, now, rest);
    var saved := UpdateBooking(db, id, B.CancelCall(reason, now)).value;
    var b := saved.bookings[id].booking;
    CancelledIsValid(db, id, reason, now);
    ReleaseNone(saved, b);
    es := ReleasesAll(db, p0, [RowEnds(Commit)], saved, b, 0, now, rest);
  }

  lemma CancelStarts(db: Db, id: Uuid, reason: B.Reason, now: Instant, rest: seq<Uuid>)
    requires UpdateBooking(db, id, B.CancelCall(reason, now)).Ok?
    ensures var saved := UpdateBooking(db, id, B.CancelCall(reason, now)).value;
            Execute(db, CancelStart(id, reason, now, rest), [RowEnds(Commit)]) ==
            Next(saved, CancelRelease(saved.bookings[id].booking, 0, now, rest))
  {
    OneMore(db, CancelStart(id, reason, now, rest), [], RowEnds(Commit));
    assert [] + [RowEnds(Commit)] == [RowEnds(Commit)];
  }

  lemma CancelledIsValid(db: Db, id: Uuid, reason: B.Reason, now: Instant)
    requires DbOk(db) && id in db.bookings
    ensures UpdateBooking(db, id, B.CancelCall(reason, now)).value.bookings[id].booking.period.Valid()
  {
  }

  /** The booking can be confirmed: it is temporary, and so is its hold on every night. */
  ghost predicate Payable(db: Db, id: Uuid) {
    && db.HasStatus(id, B.TemporaryHold) && db.bookings[id].booking.id == id && db.bookings[id].booking.period.Valid()
    && (forall k :: db.bookings[id].booking.Covers(k) ==>
          db.HasHold(k, id) && db.HoldOf(k, id).status == I.TemporaryHold)
  }

  lemma FullyHeldIsPayable(db: Db, id: Uuid)
    requires DbOk(db) && db.HasStatus(id, B.TemporaryHold) && db.HoldsEveryNight(id)
    ensures Payable(db, id)
  {
  }

  /** The database after Confirm has run up to its last step. */
  function Paid(db: Db, id: Uuid, status: B.Status): Db
    requires id in db.bookings
  {
    var row := db.bookings[id];
    Moved(db, row.booking, row.booking.period.checkout, I.Confirmed).(
      bookings := db.bookings[id := row.(booking := row.booking.(status := status))])
  }

  /** The database after StartPayment on the row of id. */
  function Paying(db: Db, id: Uuid): Db
    requires id in db.bookings
  {
    var row := db.bookings[id];
    db.(bookings := db.bookings[id := row.(booking := row.booking.(status := B.ProcessingPayment))])
  }

  lemma PaymentStarts(db: Db, id: Uuid)
    requires Payable(db, id)
    ensures var b := Paying(db, id).bookings[id].booking;
            && Execute(db, ConfirmStart(id), [RowEnds(Commit)]) == Next(Paying(db, id), ConfirmPay(b, 0))
            && b.id == id && b.period.Valid() && b.SamePlan(db.bookings[id].booking)
            && (forall i :: 0 <= i < b.period.Nights() ==>
                  Paying(db, id).HasHold(b.Night(i), id)
                  && Paying(db, id).HoldOf(b.Night(i), id).status == I.TemporaryHold)
  {
    var row := db.bookings[id];
    var b := row.booking.(status := B.ProcessingPayment);
    assert UpdateBooking(db, id, B.StartPaymentCall) == Ok(Paying(db, id));
    NightsAreCovered(row.booking);
    assert forall i :: b.Night(i) == row.booking.Night(i);
    hide Execute, UpdateBooking;
    ConfirmStarts(db, id, Commit);
    SameHolds(db, Paying(db, id));
  }

  /** A Confirm run up to its last step. */
  lemma ConfirmReachesItsEnd(db: Db, id: Uuid) returns (es: seq<Env>)
    requires Payable(db, id)
    ensures var b := db.bookings[id].booking.(status := B.ProcessingPayment);
            Execute(db, ConfirmStart(id), es) ==
                Next(Paid(db, id, B.ProcessingPayment), ConfirmSlots(b, b.period.Nights()))
    ensures es != []
  {
    var row := db.bookings[id];
    var saved := Paying(db, id);
    var b := saved.bookings[id].booking;
    PaymentStarts(db, id);
    hide Execute, Moved, Payable;
    MovedNone(saved, b, I.ProcessingPayment);
    es := PassesAll(db, ConfirmStart(id), [RowEnds(Commit)], saved, true, b, 0);
    var paying := Moved(saved, b, b.period.checkout, I.ProcessingPayment);
    MovedTwice(saved, b);
    ConfirmTurns(db, ConfirmStart(id), es, paying, b);
    MovedNone(paying, b, I.Confirmed);
    NightsAreCovered(b);
    es := PassesAll(db, ConfirmStart(id), es + [Ends(false)], paying, false, b, 0);
    MovedIgnoresRows(db, saved, row.booking, b);
    MovedKeepsTheRest(db, row.booking, b.period.checkout, I.Confirmed);
    MovedKeepsTheRest(saved, b, b.period.checkout, I.Confirmed);
  }

  lemma MovedKeepsTheRest(db: Db, b: B.Booking, until: Day, status: I.HoldStatus)
    ensures var d := Moved(db, b, until, status); d == db.(inventories := d.inventories)
  {
  }

  /** A Confirm run in full. */
  lemma ConfirmRuns(db: Db, id: Uuid) returns (es: seq<Env>)
    requires Payable(db, id)
    ensures Execute(db, ConfirmStart(id), es) == Next(Paid(db, id, B.Confirmed), Finished)
    ensures es != []
  {
    es := ConfirmReachesItsEnd(db, id);
    var b := db.bookings[id].booking.(status := B.ProcessingPayment);
    assert b.id == id;
    hide Payable, Moved, Execute;
    ConfirmEnds(db, ConfirmStart(id), es, Paid(db, id, B.ProcessingPayment), b, Commit);
    es := es + [RowEnds(Commit)];
  }

  /** Book's loop over nights that are all bookable. */
  lemma {:induction false} HoldsAll(start: Db, b: B.Booking, now: Instant, i: nat, db0: Db, es: seq<Env>)
    returns (es': seq<Env>)
    requires InventoriesOk(start) && (forall k :: !start.HasHold(k, b.id)) && AllBookable(start, b, {}) &&
             i <= b.period.Nights()
    requires Execute(db0, BookSave(b, now), es) ==
             Next(Holding(start, b, now, i), BookHold(b, now, i, FeeSum(start, b, i)))
    ensures var n := b.period.Nights();
            Execute(db0, BookSave(b, now), es') ==
                Next(Holding(start, b, now, n), BookHold(b, now, n, FeeSum(start, b, n)))
    decreases b.period.Nights() - i
  {
    hide Execute, Holding, FeeSum, InventoriesOk;
    es' := es;
    if i < b.period.Nights() {
      HoldStepRuns(start, b, now, i, FeeSum(start, b, i), false, db0, es);
      es' := HoldsAll(start, b, now, i + 1, db0, es + [Ends(false)]);
    }
  }

  /** A Book run up to its last step. */
  lemma BookReachesItsEnd(db: Db, b: B.Booking, now: Instant, at: Instant) returns (es: seq<Env>)
    requires InventoriesOk(db) && (forall k :: !db.HasHold(k, b.id)) && AllBookable(db, b, {}) && b.period.Valid()
    ensures var n := b.period.Nights(); var start := SaveBooking(db, b, at);
            Execute(db, BookSave(b, now), es) == Next(Holding(start, b, now, n), BookHold(b, now, n, FeeSum(db, b, n)))
  {
    var start := SaveBooking(db, b, at);
    SameInventories(db, start, b, now, {});
    hide Execute, Holding, Bookable, Taken;
    BookSaves(db, b, now, at, Commit);
    HoldingBegins(start, b, now);
    NoFeeYet(start, b);
    es := HoldsAll(start, b, now, 0, db, [Env(Commit, at, [], [])]);
  }

  lemma NoFeeYet(db: Db, b: B.Booking)
    ensures FeeSum(db, b, 0) == 0
  {
  }

  // ---- lifting them to worlds ----

  lemma SpawnFreely(w: World, pid: nat, p: Proc)
    requires FreelyReached(w) && pid !in w.procs && IsEntry(p)
    ensures FreelyReached(w.(procs := w.procs[pid := p]))
  {
    FreelyReachedNext(w, Spawn(pid, p), w.(procs := w.procs[pid := p]));
  }

  lemma StepsFreely(w: World, pid: nat, e: Env)
    requires FreelyReached(w) && pid in w.procs && !w.procs[pid].ExpireList? && !w.procs[pid].CollectList?
    ensures FreelyReached(Stepped(w, pid, e))
  {
    FreelyReachedNext(w, Step(pid, e), Stepped(w, pid, e));
  }

  lemma Spawns(w: World, pid: nat, p: Proc)
    requires Reached(w) && pid !in w.procs && IsEntry(p)
    ensures Reached(w.(procs := w.procs[pid := p]))
  {
    ReachedNext(w, Spawn(pid, p), w.(procs := w.procs[pid := p]));
  }

  /** An operation that is not a listing, spawned in w and run with the given outcomes while all others wait. */
  lemma RunsFreely(w: World, pid: nat, p: Proc, es: seq<Env>)
    requires FreelyReached(w) && pid !in w.procs && IsEntry(p) && !p.ExpireList? && !p.CollectList?
    ensures var n := Execute(w.db, p, es); FreelyReached(w.(db := n.db, procs := w.procs[pid := n.proc]))
  {
    hide FreelyReached, Execute, ListingsOk;
    var w' := w.(procs := w.procs[pid := p]);
    SpawnFreely(w, pid, p);
    FirstListingSuffices(w.db, p, es);
    GoesOnFreely(w', pid, es);
    assert Later(w', pid, es).procs == w.procs[pid := Execute(w.db, p, es).proc];
  }

  lemma RunsUndisturbed(w: World, pid: nat, p: Proc, es: seq<Env>)
    requires Reached(w) && pid !in w.procs && IsEntry(p) && !p.ExpireList? && !p.CollectList?
    requires NobodyWaits(w.(procs := w.procs[pid := p]), pid)
    ensures var n := Execute(w.db, p, es); Reached(w.(db := n.db, procs := w.procs[pid := n.proc]))
  {
    hide Reached, Execute, ListingsOk, NobodyWaits;
    var w' := w.(procs := w.procs[pid := p]);
    Spawns(w, pid, p);
    FirstListingSuffices(w.db, p, es);
    GoesOn(w', pid, es);
    assert Later(w', pid, es).procs == w.procs[pid := Execute(w.db, p, es).proc];
  }

  /**
   * What the model can do, not only what it cannot: in every reachable world, a TemporaryHold booking that holds every
   * night and whose Book has returned can be confirmed, whatever else is running.
   */
  lemma HeldBookingCanBeConfirmed(w: World, pid: nat, x: Uuid) returns (w': World)
    requires Reached(w) && pid !in w.procs && NoBookRunning(w, x)
    requires w.db.HasStatus(x, B.TemporaryHold) && w.db.HoldsEveryNight(x)
    ensures Reached(w') && w'.db == Paid(w.db, x, B.Confirmed) && w'.db.HasStatus(x, B.Confirmed)
  {
    hide Reached, Execute, Payable, Inv, NoBookRunning;
    ReachedStateIsOk(w);
    InvFacts(w);
    FullyHeldIsPayable(w.db, x);
    var es := ConfirmRuns(w.db, x);
    NoBookNoWaiting(w, pid, x);
    RunsUndisturbed(w, pid, ConfirmStart(x), es);
    w' := w.(db := Paid(w.db, x, B.Confirmed), procs := w.procs[pid := Finished]);
  }

  lemma NoBookNoWaiting(w: World, pid: nat, x: Uuid)
    requires NoBookRunning(w, x) && pid !in w.procs
    ensures NobodyWaits(w.(procs := w.procs[pid := ConfirmStart(x)]), pid)
  {
  }

  lemma InvFacts(w: World)
    requires Inv(w)
    ensures DbOk(w.db)
  {
  }

  lemma ReachedStateIsOk(w: World)
    requires Reached(w)
    ensures Inv(w)
  {
    hide Inv, Transits;
    var ws: seq<World>, actions: seq<Action> :| IsRun(ws, actions) && ws[|actions|] == w;
    EveryReachableStateIsOk(ws, actions, |actions|);
  }
}
