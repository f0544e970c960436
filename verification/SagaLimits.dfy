/**
 * What a Book undoes, step by step, of what others do to its booking meanwhile, because it writes back without reading
 * again; and what holds whether or not callers wait for it.
 */
module SagaLimits {
  import opened Common
  import opened Transactions
  import opened Saga
  import opened SagaInvariant
  import opened SagaSafety
  import opened SagaSteps
  import opened SagaRuns
  import opened Outcomes
  import opened Scenarios
  import W = Worker
  import I = InventorySpec
  import B = BookingSpec

  // ---- exactly what Book undoes ----

  /** The copy a Book works with: of the stored booking's room and dates, temporary, and within the stay. */
  ghost predicate WorksOn(db: Db, p: Proc) {
    && IsBook(p) && p.b.Valid() && p.b.status == B.TemporaryHold
    && (p.b.id in db.bookings ==> db.bookings[p.b.id].booking.SamePlan(p.b))
    && (p.BookHold? ==> 0 <= p.i <= p.b.period.Nights() && p.total >= 0)
    && (p.BookRelease? ==> 0 <= p.j <= p.held <= p.b.period.Nights())
  }

  /** The step writes the booking row. */
  predicate WritesRow(p: Proc) {
    || p.BookSave?
    || (p.BookHold? && p.i == p.b.period.Nights())
    || (p.BookRelease? && p.j == p.held)
  }

  /**
   * The step of a Book of x that undoes what somebody else did to x meanwhile: a Hold that succeeds although x has been
   * cancelled; a save as TemporaryHold although x is no longer that; compensation's save although x has been cancelled
   * with another outcome.
   */
  predicate Overwrites(db: Db, p: Proc, e: Env, x: Uuid) {
    && IsBook(p) && p.b.id == x && e.outcome != Abort && x in db.bookings
    && if !WritesRow(p) then
         p.BookHold? && db.HasStatus(x, B.Cancelled) &&
             Mutate(db, p.b.Night(p.i), HoldNight(p.b, p.now, db.nextUuid)).Ok?
       else if p.BookRelease? then
         db.HasStatus(x, B.Cancelled) && db.bookings[x].booking != B.Cancel(p.b, B.Expired, p.now)
       else !db.HasStatus(x, B.TemporaryHold)
  }

  /**
   * Exact, for one step of any process and every booking x: x moves forward (its status never back, a Cancelled row
   * frozen and without new holds) if and only if the step is not one of a Book that overwrites it.
   */
  lemma BookOverwritesExactly(db: Db, p: Proc, e: Env, x: Uuid)
    requires BookingsOk(db) && (IsBook(p) ==> WorksOn(db, p))
    ensures MovesForward(db, Advance(db, p, e).db, x) <==> !Overwrites(db, p, e, x)
  {
    hide I.Apply;
    var db' := Advance(db, p, e).db;
    if !IsBook(p) {
      OthersMoveForward(db, p, e, x);
    } else if WritesRow(p) {
      RowWritten(db, p, e);
      SameHolds(db, db');
    } else if p.BookHold? {
      HoldNightEffect(db, p, e, x);
    } else {
      CallCreatesNoOtherHold(db, p.b.Night(p.j), I.ReleaseOp(p.b.id), e.outcome);
    }
  }

  lemma RowWritten(db: Db, p: Proc, e: Env)
    requires WorksOn(db, p) && WritesRow(p)
    ensures var b := if p.BookSave? then p.b else LastSaved(p);
            Advance(db, p, e).db == if e.outcome == Abort then db else SaveBooking(db, b, e.at)
  {
  }

  lemma HoldNightEffect(db: Db, p: Proc, e: Env, x: Uuid)
    requires p.BookHold? && p.i < p.b.period.Nights()
    ensures var db', k := Advance(db, p, e).db, p.b.Night(p.i);
            && db'.bookings == db.bookings
            && (forall k' :: db'.HasHold(k', x) && !db.HasHold(k', x) ==> p.b.id == x && k' == k)
            && (db'.HasHold(k, p.b.id) && !db.HasHold(k, p.b.id) <==>
                  e.outcome != Abort && Mutate(db, k, HoldNight(p.b, p.now, db.nextUuid)).Ok?)
  {
  }

  /**
   * The guests are overwritten as well, which no status shows: every row that Book writes has the guests Book began
   * with. So a ChangeGuests between two saves is undone if and only if its guests are others.
   */
  lemma GuestsAreRestored(db: Db, p: Proc, e: Env, x: Uuid)
    requires WorksOn(db, p) && x in db.bookings
    ensures var db' := Advance(db, p, e).db;
            && x in db'.bookings
            && (db'.bookings[x].booking.guests != db.bookings[x].booking.guests <==>
                  p.b.id == x && WritesRow(p) && e.outcome != Abort && db.bookings[x].booking.guests != p.b.guests)
            && (p.b.id == x && WritesRow(p) && e.outcome != Abort ==> db'.bookings[x].booking.guests == p.b.guests)
  {
    if WritesRow(p) {
      RowWritten(db, p, e);
    }
  }

  /**
   * Exact, for one step of a Book on a database of the invariant: some Confirmed booking is left without a Confirmed
   * hold on a night of its stay if and only if compensation gives back a night of a booking that is Confirmed.
   */
  lemma BookTakesFromConfirmedExactly(db: Db, p: Proc, e: Env)
    requires DbOk(db) && WorksOn(db, p)
    ensures var gives := p.BookRelease? && !WritesRow(p) && e.outcome != Abort && db.HasStatus(p.b.id, B.Confirmed);
            && (ConfirmedHeld(Advance(db, p, e).db) <==> !gives)
            && (gives ==> var d := Advance(db, p, e).db;
                          d.HasStatus(p.b.id, B.Confirmed) && !d.HasHold(p.b.Night(p.j), p.b.id))
  {
    var db' := Advance(db, p, e).db;
    if WritesRow(p) {
      RowWritten(db, p, e);
      SameHolds(db, db');
    } else if p.BookHold? {
      var k := p.b.Night(p.i);
      CallIsLocal(db, k, HoldNight(p.b, p.now, db.nextUuid), e.outcome);
      HoldOnlyAdds(db, p, e);
    } else {
      var k := p.b.Night(p.j);
      assert p.b.Covers(k);
      CallIsLocal(db, k, I.ReleaseOp(p.b.id), e.outcome);
      if db.HasStatus(p.b.id, B.Confirmed) {
        assert db.bookings[p.b.id].booking.Covers(k);
        assert db.HasHold(k, p.b.id);
        assert e.outcome != Abort ==> !db'.HasHold(k, p.b.id);
      }
    }
  }

  lemma HoldOnlyAdds(db: Db, p: Proc, e: Env)
    requires p.BookHold? && p.i < p.b.period.Nights()
    ensures var db' := Advance(db, p, e).db;
            && db'.bookings == db.bookings
            && forall k, x :: db.HasHold(k, x) ==> db'.HasHold(k, x) && db'.HoldOf(k, x) == db.HoldOf(k, x)
  {
  }

  /**
   * Book's last step on a stored booking moves that booking forward if and only if nobody else has moved its status
   * meanwhile, and always puts the guests back.
   */
  lemma BookOverwritesWhoeverCameBetween(db: Db, b: B.Booking, now: Instant, total: nat, e: Env)
    requires b.id in db.bookings && db.bookings[b.id].booking.SamePlan(b)
    requires b.status == B.TemporaryHold && e.outcome != Abort
    ensures var db' := Advance(db, BookHold(b, now, b.period.Nights(), total), e).db;
            && db'.HasStatus(b.id, B.TemporaryHold) && db'.bookings[b.id].booking.guests == b.guests
            && (MovesForward(db, db', b.id) <==> db.HasStatus(b.id, B.TemporaryHold))
  {
    var db' := Advance(db, BookHold(b, now, b.period.Nights(), total), e).db;
    assert db' == SaveBooking(db, b.(totalFee := total), e.at);
  }

  /** A booking that is Cancelled although it still has a hold that no worker collects. */
  ghost predicate Stranded(db: Db, x: Uuid) {
    db.HasStatus(x, B.Cancelled) && exists k :: db.HasHold(k, x) && db.HoldOf(k, x).status != I.TemporaryHold
  }

  /**
   * Compensation's last save is written back unread, too. It always leaves the row Cancelled, free of charge, with the
   * first guests, and touches no hold. It undoes a cancellation, fee included, if and only if somebody had cancelled
   * the booking with a different outcome; and it strands the booking if and only if somebody had paid for a night of
   * it, which is always so when the booking was Confirmed meanwhile.
   */
  lemma CompensationOverwritesToo(db: Db, b: B.Booking, now: Instant, held: nat, e: Env)
    requires b.id in db.bookings && db.bookings[b.id].booking.SamePlan(b)
    requires b.status == B.TemporaryHold && e.outcome != Abort
    ensures var db' := Advance(db, BookRelease(b, now, held, held), e).db;
            && db'.inventories == db.inventories
            && db'.HasStatus(b.id, B.Cancelled) && db'.bookings[b.id].booking.cancellationFee == 0
            && db'.bookings[b.id].booking.guests == b.guests
            && (MovesForward(db, db', b.id) <==>
                  (db.HasStatus(b.id, B.Cancelled) ==> db.bookings[b.id].booking == B.Cancel(b, B.Expired, now)))
            && (Stranded(db', b.id) <==>
                 exists k :: db.HasHold(k, b.id) && db.HoldOf(k, b.id).status != I.TemporaryHold)
            && (DbOk(db) && db.HasStatus(b.id, B.Confirmed) ==> Stranded(db', b.id))
  {
    var db' := Advance(db, BookRelease(b, now, held, held), e).db;
    assert db' == SaveBooking(db, B.Cancel(b, B.Expired, now), e.at);
    SameHolds(db, db');
    if DbOk(db) && db.HasStatus(b.id, B.Confirmed) {
      var stored := db.bookings[b.id].booking;
      assert stored.Covers(stored.Night(0));
      assert db.HasHold(stored.Night(0), b.id);
    }
  }

  /** A worker's pass leaves a stranded booking stranded, whenever it runs. */
  lemma NoPassFreesStranded(db: Db, x: Uuid, now: Instant)
    requires Stranded(db, x)
    ensures Stranded(W.AfterPass(db, now), x)
  {
    var k :| db.HasHold(k, x) && db.HoldOf(k, x).status != I.TemporaryHold;
    W.PassSparesTheRest(db, now, x);
    var d := W.AfterPass(db, now);
    assert d.HasHold(k, x) && d.HoldOf(k, x) == db.HoldOf(k, x);
  }

  /**
   * From every reachable world with a Book at its last step: a Cancel of its booking run in full, up to the release of
   * the last night, is lost when that step follows. The booking ends TemporaryHold, without a hold on any night.
   */
  lemma CancelInsideBookIsLost(ws: seq<World>, actions: seq<Action>, n: nat, pid: nat, reason: B.Reason, later: Instant,
      e: Env)
    returns (es: seq<Env>)
    requires IsRun(ws, actions) && n < |ws| && pid in ws[n].procs && e.outcome == Commit
    requires ws[n].procs[pid].BookHold? && ws[n].procs[pid].i == ws[n].procs[pid].b.period.Nights()
    ensures var db, p := ws[n].db, ws[n].procs[pid];
            var cancelled := Cancelling(db, {p.b.id}, reason, later);
            && Execute(db, CancelStart(p.b.id, reason, later, []), es) == Next(cancelled, Finished)
            && cancelled.HasStatus(p.b.id, B.Cancelled)
            && var d := Advance(cancelled, p, e).db;
               d.HasStatus(p.b.id, B.TemporaryHold) && forall k :: !d.HasHold(k, p.b.id)
  {
    var db, p := ws[n].db, ws[n].procs[pid];
    EveryReachableStateIsOk(ws, actions, n);
    assert ProcOk(db, ws[n].started, p) && DbOk(db);
    es := CancelRuns(db, p.b.id, reason, later, []);
    var cancelled := Cancelling(db, {p.b.id}, reason, later);
    CancelledBareAndFree(db, p.b.id, reason, later);
    BookOverwritesWhoeverCameBetween(cancelled, p.b, p.now, p.total, e);
    SameHolds(cancelled, Advance(cancelled, p, e).db);
  }

  lemma CancelledBareAndFree(db: Db, x: Uuid, reason: B.Reason, now: Instant)
    requires x in db.bookings
    ensures var d := Cancelling(db, {x}, reason, now);
            && d.HasStatus(x, B.Cancelled) && d.bookings[x].booking.SamePlan(db.bookings[x].booking)
            && forall k :: !d.HasHold(k, x)
  {
  }

  /**
   * Why ExpireStale spares paid bookings only when nothing comes between its listing and its cancellations: after a
   * listing that is correct for `listed`, it moves a booking that is no longer TemporaryHold exactly when that booking
   * was stale at the listing and has been paid for since, and then it cancels it free of charge.
   */
  lemma ExpireStaleDoesNotLookAgain(listed: Db, db: Db, now: Instant, ids: seq<Uuid>, i: nat, e: Env)
    requires IsStaleListing(listed, now - HOLD_TTL, ids) && i < |ids| && e.outcome == Commit
    requires BookingsOk(db) && (forall x :: MovesForward(listed, db, x))
    ensures var id := ids[i]; var db' := Advance(db, CancelNext(ids[i..], now), e).db;
            && id in db.bookings && db'.HasStatus(id, B.Cancelled)
            && (!db.HasStatus(id, B.TemporaryHold) && db'.bookings[id] != db.bookings[id] <==>
                  db.HasStatus(id, B.ProcessingPayment) || db.HasStatus(id, B.Confirmed))
            && (db'.bookings[id] != db.bookings[id] ==> db'.bookings[id].booking.cancellationFee == 0)
  {
    var id := ids[i];
    assert id in ids && MovesForward(listed, db, id);
    assert ids[i..][0] == id;
    var db' := Advance(db, CancelNext(ids[i..], now), e).db;
    assert db'.bookings[id].booking == B.Cancel(db.bookings[id].booking, B.Expired, now);
  }

  // ---- what does not depend on the assumption about callers ----

  lemma StepKeepsInventories(db: Db, p: Proc, e: Env)
    requires InventoriesOk(db)
    ensures InventoriesOk(Advance(db, p, e).db)
  {
    hide I.Apply, I.InventoryState.Valid, Call;
    match p
    case BookHold(b, now, i, _) => CallKeepsInventories(db, b.Night(i), HoldNight(b, now, db.nextUuid), e.outcome);
    case BookRelease(b, _, _, j) => CallKeepsInventories(db, b.Night(j), I.ReleaseOp(b.id), e.outcome);
    case ConfirmPay(b, i) => CallKeepsInventories(db, b.Night(i), I.StartPaymentOp(b.id), e.outcome);
    case ConfirmSlots(b, i) => CallKeepsInventories(db, b.Night(i), I.ConfirmOp(b.id), e.outcome);
    case CancelRelease(b, i, _, _) => CallKeepsInventories(db, b.Night(i), I.ReleaseOp(b.id), e.outcome);
    case CollectLoop(keys, now) => if keys != [] { CallKeepsInventories(db, keys[0], I.CollectOp(now), e.outcome); }
    case _ =>
  }

  lemma CallKeepsInventories(db: Db, k: InventoryId, op: I.Op, o: Outcome)
    requires InventoriesOk(db)
    ensures InventoriesOk(Call(db, k, op, o).0)
  {
    hide I.Apply, I.InventoryState.Valid;
    if k in db.inventories {
      I.ApplyKeepsValid(db.inventories[k], op);
    }
  }

  lemma ActionKeepsInventories(w: World, a: Action, w': World)
    requires InventoriesOk(w.db) && TransitsFreely(w, a, w')
    ensures InventoriesOk(w'.db)
  {
    match a
    case Step(pid, e) => StepKeepsInventories(w.db, w.procs[pid], e);
    case Edit(k, op) => CallKeepsInventories(w.db, k, op, Commit);
    case _ =>
  }

  /**
   * Callers that do not wait cannot break an inventory: in every run, theirs included, holds have distinct slots in
   * 1..quantity, so no night is ever sold twice over as far as the holds go.
   */
  lemma {:induction false} NeverOversoldWhoeverCalls(ws: seq<World>, actions: seq<Action>, n: nat, k: InventoryId)
    requires IsFreeRun(ws, actions) && n < |ws|
    ensures InventoriesOk(ws[n].db)
    ensures k in ws[n].db.inventories ==>
              var s := ws[n].db.inventories[k]; s.Valid() && |s.holds| <= s.quantity
  {
    hide TransitsFreely, I.InventoryState.Valid;
    if n > 0 {
      NeverOversoldWhoeverCalls(ws, actions, n - 1, k);
      ActionKeepsInventories(ws[n - 1], actions[n - 1], ws[n]);
    }
    if k in ws[n].db.inventories {
      I.NeverOversold(ws[n].db.inventories[k]);
    }
  }
}
