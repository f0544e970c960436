/** `server/cmd/worker/main.go`: one pass of the worker, and what it guarantees. */
module Worker {
  import opened Common
  import opened Transactions
  import opened Saga
  import opened SagaInvariant
  import opened SagaSafety
  import opened SagaRuns
  import opened Outcomes
  import opened Bookings
  import opened Services
  import I = InventorySpec
  import B = BookingSpec

  /** The database after a whole pass: stale bookings cancelled and released, then every expired hold collected. */
  function AfterPass(db: Db, now: Instant): Db {
    var d := Cancelling(db, StaleSet(db, now - HOLD_TTL), B.Expired, now);
    Collecting(d, d.inventories.Keys, now)
  }

  ghost predicate NothingFails(rows: map<Uuid, Outcome>, ends: map<InventoryId, CollectEnd>, busy: set<InventoryId>) {
    busy == {} && (forall x :: x in rows ==> rows[x] == Commit) && (forall k :: k in ends ==> ends[k] == Collects)
  }

  /**
   * collect: ExpireStale, then CollectExpired, whether or not the first one failed. When nothing fails, the database is
   * that after a whole pass, and the two numbers are how many bookings and how many holds it took.
   */
  method Collect(service: Service, now: Instant, staleListed: bool, rows: map<Uuid, Outcome>, busy: set<InventoryId>,
                 expiredListed: bool, ends: map<InventoryId, CollectEnd>)
    returns (bookings: nat, holds: nat, ghost between: Db)
    requires service.Valid()
    modifies service`db
    ensures service.Valid()
    ensures !staleListed ==> between == old(service.db) && bookings == 0
    ensures staleListed ==>
              exists done, stop :: ExpiredUpTo(old(service.db), between, now, rows, done, stop) && bookings == |done|
    ensures !expiredListed ==> service.db == between && holds == 0
    ensures expiredListed ==> exists done, stop :: CollectedUpTo(between, service.db, now, ends, done, stop, holds)
    ensures staleListed && expiredListed && NothingFails(rows, ends, busy) ==>
              && service.db == AfterPass(old(service.db), now)
              && bookings == |StaleSet(old(service.db), now - HOLD_TTL)|
              && between == Cancelling(old(service.db), StaleSet(old(service.db), now - HOLD_TTL), B.Expired, now)
              && holds == |ExpiredHolds(between, between.inventories.Keys, now)|
  {
    hide Cancelling, Collecting, StaleSet, ExpiredHolds, Quiet;
    var err;
    ghost var done, stop, run, collectedFrom, stoppedAt;
    err, bookings, done, stop, run := service.ExpireStale(now, staleListed, rows, busy);
    between := service.db;
    CancellingIsWhole(old(service.db), between, done, now);
    err, holds, collectedFrom, stoppedAt, run := service.CollectExpired(now, expiredListed, ends);
  }

  lemma CancellingIsWhole(db: Db, db': Db, s: set<Uuid>, now: Instant)
    requires db'.nextUuid == db.nextUuid
    ensures var d := Cancelling(db, s, B.Expired, now);
            db'.bookings == d.bookings && db'.inventories == d.inventories ==> db' == d
  {
  }

  /**
   * No payment has been started for x: its booking, if stored, is TemporaryHold or Cancelled, and its holds are
   * temporary.
   */
  ghost predicate Abandoned(db: Db, x: Uuid) {
    && (x in db.bookings ==> db.bookings[x].booking.status in {B.TemporaryHold, B.Cancelled})
    && (forall k :: db.HasHold(k, x) ==> db.HoldOf(k, x).status == I.TemporaryHold)
  }

  /**
   * From every reachable state: if Book was called for x more than HOLD_TTL ago (by its own `now` and by the row's
   * creation time) and no payment was started, then one pass leaves no hold of x, and x Cancelled if it is stored.
   */
  lemma AbandonedBookIsReclaimed(w: World, now: Instant, x: Uuid)
    requires Inv(w) && Abandoned(w.db, x)
    requires x in w.started && w.started[x] < now - HOLD_TTL
    requires x in w.db.bookings ==> w.db.bookings[x].createdAt < now - HOLD_TTL
    ensures var d := AfterPass(w.db, now);
            && (forall k :: !d.HasHold(k, x))
            && (x in d.bookings <==> x in w.db.bookings)
            && (x in d.bookings ==> d.HasStatus(x, B.Cancelled))
  {
    var d1 := Cancelling(w.db, StaleSet(w.db, now - HOLD_TTL), B.Expired, now);
    forall k ensures !AfterPass(w.db, now).HasHold(k, x) {
      if d1.HasHold(k, x) {
        assert w.db.HasHold(k, x);
        assert I.Expired(w.db.HoldOf(k, x), now);
        assert I.Expired(d1.HoldOf(k, x), now);
      }
    }
  }

  // ---- a Book that nobody pays for is always of this kind ----

  /** No Confirm call for x is running. */
  ghost predicate NobodyPays(procs: map<nat, Proc>, x: Uuid) {
    forall pid :: pid in procs ==> !Pays(procs[pid], x)
  }

  predicate Pays(p: Proc, x: Uuid) {
    || (p.ConfirmStart? && p.id == x)
    || (IsPass(p) && p.b.id == x)
  }

  /** A transaction that pays for nothing of x leaves x's holds temporary. */
  lemma CallKeepsAbandoned(db: Db, k: InventoryId, op: I.Op, o: Outcome, next: Uuid, x: Uuid)
    requires Abandoned(db, x) && (op.StartPaymentOp? || op.ConfirmOp? ==> op.bookingId != x)
    ensures Abandoned(Call(db, k, op, o).0, x) && Abandoned(Call(db, k, op, o).0.(nextUuid := next), x)
  {
    var d := Call(db, k, op, o).0;
    forall k' | d.HasHold(k', x) ensures d.HoldOf(k', x).status == I.TemporaryHold {
      assert db.HasHold(k', x) ==> db.HoldOf(k', x).status == I.TemporaryHold;
    }
    assert forall k' :: d.(nextUuid := next).HasHold(k', x) ==> d.HasHold(k', x);
  }

  lemma SameHoldsStayAbandoned(db: Db, db': Db, x: Uuid)
    requires Abandoned(db, x) && db'.inventories == db.inventories
    requires x in db'.bookings ==> db'.bookings[x].booking.status in {B.TemporaryHold, B.Cancelled}
    ensures Abandoned(db', x)
  {
    SameHolds(db, db');
  }

  lemma UpdateKeepsAbandoned(db: Db, id: Uuid, call: B.Call, x: Uuid)
    requires Abandoned(db, x) && (call.StartPaymentCall? ==> id != x)
    ensures UpdateBooking(db, id, call).Ok? ==> Abandoned(UpdateBooking(db, id, call).value, x)
  {
    if UpdateBooking(db, id, call).Ok? {
      SameHoldsStayAbandoned(db, UpdateBooking(db, id, call).value, x);
    }
  }

  lemma SaveKeepsAbandoned(db: Db, b: B.Booking, at: Instant, x: Uuid)
    requires Abandoned(db, x) && b.status in {B.TemporaryHold, B.Cancelled}
    ensures Abandoned(SaveBooking(db, b, at), x)
  {
    SameHoldsStayAbandoned(db, SaveBooking(db, b, at), x);
  }

  lemma StepKeepsAbandoned(db: Db, started: map<Uuid, Instant>, p: Proc, e: Env, x: Uuid)
    requires BookingsOk(db) && ProcOk(db, started, p) && Abandoned(db, x) && !Pays(p, x)
    ensures Abandoned(Advance(db, p, e).db, x) && !Pays(Advance(db, p, e).proc, x)
  {
    hide Abandoned, Call, Mutate, SaveBooking;
    match p
    case BookSave(b, _) => SaveKeepsAbandoned(db, b, e.at, x);
    case BookHold(b, now, i, total) =>
      CallKeepsAbandoned(db, b.Night(i), HoldNight(b, now, db.nextUuid), e.outcome, db.nextUuid + 1, x);
      SaveKeepsAbandoned(db, b.(totalFee := total), e.at, x);
    case BookRelease(b, now, _, j) =>
      CallKeepsAbandoned(db, b.Night(j), I.ReleaseOp(b.id), e.outcome, 0, x);
      SaveKeepsAbandoned(db, B.Cancel(b, B.Expired, now), e.at, x);
    case ConfirmStart(id) => UpdateKeepsAbandoned(db, id, B.StartPaymentCall, x);
    case ConfirmPay(b, i) => CallKeepsAbandoned(db, b.Night(i), I.StartPaymentOp(b.id), e.outcome, 0, x);
    case ConfirmSlots(b, i) =>
      CallKeepsAbandoned(db, b.Night(i), I.ConfirmOp(b.id), e.outcome, 0, x);
      UpdateKeepsAbandoned(db, b.id, B.ConfirmCall, x);
    case CancelStart(id, reason, now, _) => UpdateKeepsAbandoned(db, id, B.CancelCall(reason, now), x);
    case CancelRelease(b, i, _, _) => CallKeepsAbandoned(db, b.Night(i), I.ReleaseOp(b.id), e.outcome, 0, x);
    case EditGuests(id, guests, capacity) => UpdateKeepsAbandoned(db, id, B.ChangeGuestsCall(guests, capacity), x);
    case CollectLoop(keys, now) =>
      if keys != [] { CallKeepsAbandoned(db, keys[0], I.CollectOp(now), e.outcome, 0, x); }
    case _ =>
  }

  lemma ActionKeepsAbandoned(w: World, a: Action, w': World, x: Uuid)
    requires Inv(w) && Transits(w, a, w') && Abandoned(w.db, x) && NobodyPays(w.procs, x)
    requires !(a.Spawn? && Pays(a.proc, x))
    ensures Abandoned(w'.db, x) && NobodyPays(w'.procs, x)
  {
    match a
    case Register(k, quantity, fee) =>
      assert forall k' :: w'.db.HasHold(k', x) ==> w.db.HasHold(k', x) && w'.db.HoldOf(k', x) == w.db.HoldOf(k', x);
    case Edit(k, op) => CallKeepsAbandoned(w.db, k, op, Commit, 0, x);
    case SpawnBook(_, _, _, _, _, _, _) => SameHoldsStayAbandoned(w.db, w'.db, x);
    case Step(pid, e) => StepKeepsAbandoned(w.db, w.started, w.procs[pid], e, x);
    case _ =>
  }

  lemma {:induction false} UnpaidIsAbandoned(ws: seq<World>, actions: seq<Action>, n: nat, x: Uuid)
    requires IsRun(ws, actions) && n < |ws|
    requires forall i :: 0 <= i < |actions| ==> !(actions[i].Spawn? && Pays(actions[i].proc, x))
    ensures Abandoned(ws[n].db, x) && NobodyPays(ws[n].procs, x)
  {
    hide Transits, Inv, Abandoned, NobodyPays;
    if n == 0 {
      NothingIsAbandoned(ws[0], x);
    } else {
      UnpaidIsAbandoned(ws, actions, n - 1, x);
      EveryReachableStateIsOk(ws, actions, n - 1);
      ActionKeepsAbandoned(ws[n - 1], actions[n - 1], ws[n], x);
    }
  }

  lemma NothingIsAbandoned(w: World, x: Uuid)
    requires Initial(w)
    ensures Abandoned(w.db, x) && NobodyPays(w.procs, x)
  {
  }

  /**
   * After any run whatsoever in which Confirm was never called for x: however far its Book got, whatever its
   * compensation or a Cancel failed to release, one pass later than HOLD_TTL reclaims everything.
   */
  lemma UnpaidBookIsReclaimed(ws: seq<World>, actions: seq<Action>, n: nat, now: Instant, x: Uuid)
    requires IsRun(ws, actions) && n < |ws|
    requires forall i :: 0 <= i < |actions| ==> !(actions[i].Spawn? && Pays(actions[i].proc, x))
    requires x in ws[n].started && ws[n].started[x] < now - HOLD_TTL
    requires x in ws[n].db.bookings ==> ws[n].db.bookings[x].createdAt < now - HOLD_TTL
    ensures var db, d := ws[n].db, AfterPass(ws[n].db, now);
            && (forall k :: !d.HasHold(k, x))
            && (x in d.bookings <==> x in db.bookings)
            && (x in d.bookings ==> d.HasStatus(x, B.Cancelled))
  {
    EveryReachableStateIsOk(ws, actions, n);
    UnpaidIsAbandoned(ws, actions, n, x);
    AbandonedBookIsReclaimed(ws[n], now, x);
  }

  // ---- each pass alone is not enough ----

  /**
   * Under the same conditions, after ExpireStale alone a hold of x is left if and only if x is Cancelled already and
   * some of its holds were not released.
   */
  lemma ExpireStaleAloneIsNotEnough(w: World, now: Instant, x: Uuid)
    requires Inv(w) && Abandoned(w.db, x)
    requires x in w.started && w.started[x] < now - HOLD_TTL
    requires x in w.db.bookings ==> w.db.bookings[x].createdAt < now - HOLD_TTL
    ensures var d := Cancelling(w.db, StaleSet(w.db, now - HOLD_TTL), B.Expired, now);
            (exists k :: d.HasHold(k, x)) <==> w.db.HasStatus(x, B.Cancelled) && exists k :: w.db.HasHold(k, x)
  {
    var d := Cancelling(w.db, StaleSet(w.db, now - HOLD_TTL), B.Expired, now);
    if w.db.HasStatus(x, B.Cancelled) {
      assert forall k :: w.db.HasHold(k, x) ==> d.HasHold(k, x);
    }
    assert forall k :: d.HasHold(k, x) ==> w.db.HasHold(k, x);
  }

  /** After CollectExpired alone x is stored and not Cancelled if and only if it was TemporaryHold. */
  lemma CollectExpiredAloneIsNotEnough(w: World, now: Instant, x: Uuid)
    requires Inv(w) && Abandoned(w.db, x)
    requires x in w.started && w.started[x] < now - HOLD_TTL
    requires x in w.db.bookings ==> w.db.bookings[x].createdAt < now - HOLD_TTL
    ensures var d := Collecting(w.db, w.db.inventories.Keys, now);
            x in d.bookings && !d.HasStatus(x, B.Cancelled) <==> w.db.HasStatus(x, B.TemporaryHold)
  {
  }

  /**
   * Book reaches the first case: when the first night is bookable, the second is not, and the Release of the first is
   * lost, then ExpireStale leaves that hold where it is at whatever time it runs.
   */
  method LostReleaseOutlivesExpireStale(service: Service, b: B.Booking, now: Instant, at: Instant, later: Instant)
    requires service.Valid() && b.id == service.db.nextUuid && b.Valid() && b.status == B.TemporaryHold &&
             b.totalFee == 0
    requires b.period.Nights() >= 2 && Bookable(service.db, b.Night(0), {}) && !Bookable(service.db, b.Night(1), {})
    modifies service
    ensures service.Valid() && service.db.HasStatus(b.id, B.Cancelled) && service.db.HasHold(b.Night(0), b.id)
    ensures Cancelling(service.db, StaleSet(service.db, later - HOLD_TTL), B.Expired, later).HasHold(b.Night(0), b.id)
  {
    hide Taken, Quiet, Bookable, AllBookable, FirstFailure, FirstNights, Cancelling, B.Cancel, TookOnly, Execute;
    ghost var start := service.db;
    UnknownBooking(start, b.id, service.started);
    SameInventories(start, start.(nextUuid := b.id + 1), b, now, {});
    var r;
    ghost var held, run;
    r, held, run := service.BookAccepted(b, now, at, Commit, Commit, {}, {b.Night(0)});
    SecondNightFails(start, b);
    LostNightStaysTaken(start.(nextUuid := b.id + 1), b, now);
    B.CancelCancels(b, B.Expired, now);
    NotStaleKeepsHolds(service.db, b.id, b.Night(0), later);
  }

  lemma SecondNightFails(db: Db, b: B.Booking)
    requires b.period.Nights() >= 2 && Bookable(db, b.Night(0), {}) && !Bookable(db, b.Night(1), {})
    ensures !AllBookable(db, b, {}) && forall i: nat, e :: FirstFailure(db, b, {}, i, e) ==> i == 1
    ensures Bookable(db.(nextUuid := b.id + 1), b.Night(0), {})
  {
  }

  lemma NotStaleKeepsHolds(db: Db, x: Uuid, k: InventoryId, now: Instant)
    requires db.HasStatus(x, B.Cancelled) && db.HasHold(k, x)
    ensures Cancelling(db, StaleSet(db, now - HOLD_TTL), B.Expired, now).HasHold(k, x)
  {
  }

  lemma LostNightStaysTaken(db: Db, b: B.Booking, now: Instant)
    requires InventoriesOk(db) && (forall k :: !db.HasHold(k, b.id)) && b.period.Nights() >= 1 &&
             Bookable(db, b.Night(0), {})
    ensures var taken := Taken(db, b, now, FirstNights(b, 1) * {b.Night(0)});
            b.Night(0) in taken && b.id in taken[b.Night(0)].holds
  {
    assert b.Night(0) in FirstNights(b, 1);
    TakenMeaning(db, b, now, FirstNights(b, 1) * {b.Night(0)}, b.Night(0));
  }

  /** And a successful Book the second: nothing but ExpireStale, or a Cancel, ends its booking. */
  method CompletedBookOutlivesCollectExpired(service: Service, b: B.Booking, now: Instant, at: Instant, later: Instant)
    requires service.Valid() && b.id == service.db.nextUuid && b.Valid() && b.status == B.TemporaryHold &&
             b.totalFee == 0
    requires AllBookable(service.db, b, {})
    modifies service
    ensures service.Valid()
    ensures Collecting(service.db, service.db.inventories.Keys, later).HasStatus(b.id, B.TemporaryHold)
  {
    var r;
    ghost var held, run;
    r, held, run := service.BookAccepted(b, now, at, Commit, Commit, {}, {});
  }

  /**
   * One whole pass and every booking it may not cancel: one that is not TemporaryHold, or that was created no more than
   * HOLD_TTL ago, keeps its row; and it keeps every hold that is not temporary or has not expired. With no failure, a
   * stored booking ends cancelled by the pass if and only if it is TemporaryHold and older than that.
   */
  lemma PassSparesTheRest(db: Db, now: Instant, x: Uuid)
    requires x in db.bookings
    ensures var d := AfterPass(db, now);
            && x in d.bookings
            && (d.bookings[x] != db.bookings[x] <==>
                  db.HasStatus(x, B.TemporaryHold) && db.bookings[x].createdAt < now - HOLD_TTL)
            && (d.bookings[x] != db.bookings[x] ==> d.HasStatus(x, B.Cancelled))
            && (d.bookings[x] == db.bookings[x] ==> forall k ::
                  d.HasHold(k, x) <==>
                  db.HasHold(k, x) && !(db.HoldOf(k, x).status == I.TemporaryHold && db.HoldOf(k, x).expiredAt.Some?
                                        && db.HoldOf(k, x).expiredAt.value < now))
            && (forall k :: d.HasHold(k, x) ==> db.HasHold(k, x) && d.HoldOf(k, x) == db.HoldOf(k, x))
  {
    var d1 := Cancelling(db, StaleSet(db, now - HOLD_TTL), B.Expired, now);
    StaleMeaning(db, now);
    CollectingMeaning(d1, d1.inventories.Keys, now);
    hide Collecting, StaleSet;
    assert forall k :: d1.HasHold(k, x) <==> db.HasHold(k, x) && x !in StaleSet(db, now - HOLD_TTL);
  }
}
