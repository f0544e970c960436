/** Every kind of step keeps the invariant: one lemma per program counter. */
module SagaSteps {
  import opened Common
  import opened Transactions
  import opened Saga
  import opened SagaInvariant
  import I = InventorySpec
  import B = BookingSpec

  // ---- transactions on one inventory ----

  /** All holds are the same in both, except possibly x's hold on k; the bookings are the same. */
  ghost predicate SameButAt(db: Db, db': Db, k: InventoryId, x: Uuid) {
    && db'.bookings == db.bookings && db.nextUuid <= db'.nextUuid && InventoriesOk(db')
    && (forall k', y :: k' != k || y != x ==>
          (db.HasHold(k', y) <==> db'.HasHold(k', y))
          && (db.HasHold(k', y) ==> db.HoldOf(k', y) == db'.HoldOf(k', y)))
  }

  lemma PutIsLocal(db: Db, k: InventoryId, s: I.InventoryState, x: Uuid)
    requires InventoriesOk(db) && k in db.inventories && s.Valid() && I.LocalChange(db.inventories[k], s, x)
    ensures SameButAt(db, db.(inventories := db.inventories[k := s]), k, x)
  {
  }

  /** A transaction of a booking process on one inventory concerns only that booking's hold there. */
  lemma CallIsLocal(db: Db, k: InventoryId, op: I.Op, o: Outcome)
    requires InventoriesOk(db)
    requires op.HoldOp? || op.StartPaymentOp? || op.ConfirmOp? || op.ReleaseOp?
    ensures SameButAt(db, Call(db, k, op, o).0, k, op.bookingId)
    ensures Call(db, k, op, o).0.nextUuid == db.nextUuid
  {
    var db' := Call(db, k, op, o).0;
    if db' != db {
      var s := db.inventories[k];
      var s' := I.Apply(s, op).value.state;
      I.ApplyKeepsValid(s, op);
      I.ApplyIsLocal(s, op);
      PutIsLocal(db, k, s', op.bookingId);
    }
  }

  lemma SameButAtIsCalm(db: Db, db': Db, k: InventoryId, x: Uuid)
    requires SameButAt(db, db', k, x)
    ensures OnlyAbout(db, db', x)
  {
  }

  /** Changing one hold of a booking that is not Confirmed keeps the database part of the invariant. */
  lemma HoldChangeKeepsDb(db: Db, db': Db, k: InventoryId, x: Uuid)
    requires DbOk(db) && SameButAt(db, db', k, x)
    requires x in db.bookings && db.bookings[x].booking.Covers(k) && !db.HasStatus(x, B.Confirmed)
    requires db.HasStatus(x, B.TemporaryHold) && db'.HasHold(k, x) ==> db'.HoldOf(k, x).status == I.TemporaryHold
    ensures DbOk(db')
  {
  }

  lemma HoldChangeKeepsExpiries(db: Db, db': Db, k: InventoryId, x: Uuid, started: map<Uuid, Instant>)
    requires ExpiriesOk(db, started) && SameButAt(db, db', k, x)
    requires db'.HasHold(k, x) && db'.HoldOf(k, x).status == I.TemporaryHold ==>
               (db.HasHold(k, x) && db'.HoldOf(k, x) == db.HoldOf(k, x))
               || (x in started && db'.HoldOf(k, x).expiredAt == Some(started[x] + HOLD_TTL))
    ensures ExpiriesOk(db', started)
  {
  }

  lemma SameInventories(db: Db, db': Db, started: map<Uuid, Instant>)
    requires db'.inventories == db.inventories && db.nextUuid <= db'.nextUuid
    ensures forall k, x :: db'.HasHold(k, x) <==> db.HasHold(k, x)
    ensures forall k, x :: db'.HasHold(k, x) ==> db'.HoldOf(k, x) == db.HoldOf(k, x)
    ensures ExpiriesOk(db, started) ==> ExpiriesOk(db', started)
  {
    assert forall k, x :: db'.HasHold(k, x) <==> db.HasHold(k, x);
    assert forall k, x :: db'.HasHold(k, x) ==> db'.HoldOf(k, x) == db.HoldOf(k, x);
  }

  // ---- Book ----

  lemma FirstSave(db: Db, b: B.Booking, at: Instant)
    requires DbOk(db) && b.id !in db.bookings && b.id < db.nextUuid && b.Valid() && b.status == B.TemporaryHold
    ensures var db' := SaveBooking(db, b, at);
            DbOk(db') && OnlyAbout(db, db', b.id) && Saved(db', b) && db'.inventories == db.inventories
  {
    var db' := SaveBooking(db, b, at);
    assert forall k, x :: db'.HasHold(k, x) <==> db.HasHold(k, x);
    assert forall k :: !db.HasHold(k, b.id);
  }

  lemma BookSaveStep(w: World, pid: nat, e: Env)
    requires Inv(w) && pid in w.procs && w.procs[pid].BookSave?
    ensures var n := Advance(w.db, w.procs[pid], e); Inv(w.(db := n.db, procs := w.procs[pid := n.proc]))
  {
    var b := w.procs[pid].b;
    var n := Advance(w.db, w.procs[pid], e);
    assert ProcOk(w.db, w.started, w.procs[pid]);
    hide DbOk, ExpiriesOk, OnlyAbout, Exclusive, SaveBooking, B.Booking.Valid;
    FirstSave(w.db, b, e.at);
    SameInventories(w.db, n.db, w.started);
    UnchangedIsOnlyAbout(w.db, b.id);
    StepKeepsInv(w, pid, n.db, n.proc, b.id);
  }

  lemma BookSavesAgain(db: Db, b: B.Booking, b': B.Booking, at: Instant)
    requires DbOk(db) && Saved(db, b) && b'.SamePlan(b) && b'.Valid() && b'.status in {B.TemporaryHold, B.Cancelled}
    ensures var db' := SaveBooking(db, b', at);
            DbOk(db') && OnlyAbout(db, db', b.id) && db'.inventories == db.inventories
  {
    var db' := SaveBooking(db, b', at);
    assert forall k, x :: db'.HasHold(k, x) <==> db.HasHold(k, x);
  }

  lemma BookLastStep(w: World, pid: nat, e: Env)
    requires Inv(w) && pid in w.procs
    requires var p := w.procs[pid];
             (p.BookHold? && p.i == p.b.period.Nights()) || (p.BookRelease? && p.j == p.held)
    ensures var n := Advance(w.db, w.procs[pid], e); Inv(w.(db := n.db, procs := w.procs[pid := n.proc]))
  {
    var p := w.procs[pid];
    var n := Advance(w.db, p, e);
    var b' := if p.BookHold? then p.b.(totalFee := p.total) else B.Cancel(p.b, B.Expired, p.now);
    if n.db != w.db {
      BookSavesAgain(w.db, p.b, b', e.at);
      assert n.db == SaveBooking(w.db, b', e.at);
    }
    assert forall k, x :: n.db.HasHold(k, x) <==> w.db.HasHold(k, x);
    StepKeepsInv(w, pid, n.db, n.proc, p.b.id);
  }

  /** Book's Hold call: x's hold at k stays, or becomes a temporary hold with the right expiry. */
  lemma HoldCallEffect(db: Db, k: InventoryId, b: B.Booking, now: Instant, o: Outcome)
    requires InventoriesOk(db)
    ensures var (db', reply) := Call(db, k, HoldNight(b, now, db.nextUuid), o);
            && (db'.HasHold(k, b.id) ==>
                  || (db.HasHold(k, b.id) && db'.HoldOf(k, b.id) == db.HoldOf(k, b.id))
                  || (db'.HoldOf(k, b.id).status == I.TemporaryHold
                      && db'.HoldOf(k, b.id).expiredAt == Some(now + HOLD_TTL)))
            && (reply.Some? ==> reply.value.Held? && reply.value.feeAmount >= 0)
  {
  }

  lemma TakingAnIdIsInvisible(db: Db, called: Db, k: InventoryId, x: Uuid)
    requires SameButAt(db, called, k, x) && called.nextUuid == db.nextUuid
    ensures SameButAt(db, called.(nextUuid := db.nextUuid + 1), k, x)
  {
    var db' := called.(nextUuid := db.nextUuid + 1);
    assert forall k', y :: db'.HasHold(k', y) <==> called.HasHold(k', y);
  }

  lemma BookHoldStep(w: World, pid: nat, e: Env)
    requires Inv(w) && pid in w.procs && w.procs[pid].BookHold? && w.procs[pid].i < w.procs[pid].b.period.Nights()
    ensures var n := Advance(w.db, w.procs[pid], e); Inv(w.(db := n.db, procs := w.procs[pid := n.proc]))
  {
    var BookHold(b, now, i, total) := w.procs[pid];
    var k, op := b.Night(i), HoldNight(b, now, w.db.nextUuid);
    var called := Call(w.db, k, op, e.outcome).0;
    CallIsLocal(w.db, k, op, e.outcome);
    HoldCallEffect(w.db, k, b, now, e.outcome);
    TakingAnIdIsInvisible(w.db, called, k, b.id);
    var n := Advance(w.db, w.procs[pid], e);
    assert n.db == called.(nextUuid := w.db.nextUuid + 1);
    assert forall k', y :: n.db.HasHold(k', y) <==> called.HasHold(k', y);
    BookKeepsInv(w, pid, k, n.db, n.proc);
  }

  lemma BookReleaseStep(w: World, pid: nat, e: Env)
    requires Inv(w) && pid in w.procs && w.procs[pid].BookRelease? && w.procs[pid].j < w.procs[pid].held
    ensures var n := Advance(w.db, w.procs[pid], e); Inv(w.(db := n.db, procs := w.procs[pid := n.proc]))
  {
    var BookRelease(b, now, held, j) := w.procs[pid];
    CallIsLocal(w.db, b.Night(j), I.ReleaseOp(b.id), e.outcome);
    var n := Advance(w.db, w.procs[pid], e);
    assert n.db.HasHold(b.Night(j), b.id) ==> n.db == w.db;
    BookKeepsInv(w, pid, b.Night(j), n.db, n.proc);
  }

  lemma BookKeepsInv(w: World, pid: nat, k: InventoryId, db': Db, p': Proc)
    requires Inv(w) && pid in w.procs && (w.procs[pid].BookHold? || w.procs[pid].BookRelease?)
    requires var b := w.procs[pid].b;
             && b.Covers(k) && SameButAt(w.db, db', k, b.id)
             && (db'.HasHold(k, b.id) ==>
                   || (w.db.HasHold(k, b.id) && db'.HoldOf(k, b.id) == w.db.HoldOf(k, b.id))
                   || (w.procs[pid].BookHold? && db'.HoldOf(k, b.id).status == I.TemporaryHold
                       && db'.HoldOf(k, b.id).expiredAt == Some(w.procs[pid].now + HOLD_TTL)))
    requires (p'.BookHold? || p'.BookRelease?) && p'.b == w.procs[pid].b
    requires p'.BookHold? ==>
             w.procs[pid].BookHold? && p'.now == w.procs[pid].now && 0 <= p'.i <= p'.b.period.Nights() && p'.total >= 0
    requires p'.BookRelease? ==> 0 <= p'.j <= p'.held <= p'.b.period.Nights()
    ensures Inv(w.(db := db', procs := w.procs[pid := p']))
  {
    var b := w.procs[pid].b;
    HoldChangeKeepsDb(w.db, db', k, b.id);
    HoldChangeKeepsExpiries(w.db, db', k, b.id, w.started);
    SameButAtIsCalm(w.db, db', k, b.id);
    StepKeepsInv(w, pid, db', p', b.id);
  }

  lemma UnchangedIsOnlyAbout(db: Db, x: Uuid)
    ensures OnlyAbout(db, db, x)
  {
  }

  // ---- one booking row ----

  /** A transaction on one booking row touches no hold and no other booking. */
  lemma RowUpdate(db: Db, id: Uuid, call: B.Call)
    requires DbOk(db) && UpdateBooking(db, id, call).Ok?
    requires call.ConfirmCall? && db.bookings[id].booking.status == B.ProcessingPayment ==>
               forall k :: db.bookings[id].booking.Covers(k) ==>
                   db.HasHold(k, id) && db.HoldOf(k, id).status == I.Confirmed
    ensures var db' := UpdateBooking(db, id, call).value;
            && DbOk(db') && OnlyAbout(db, db', id) && db'.inventories == db.inventories && db'.nextUuid == db.nextUuid
            && db'.bookings[id].booking.SamePlan(db.bookings[id].booking)
  {
    var db' := UpdateBooking(db, id, call).value;
    var b, b' := db.bookings[id].booking, B.After(db.bookings[id].booking, call);
    B.OneCall(b, call);
    assert b'.status == B.Confirmed ==>
        b.status == B.Confirmed || (call.ConfirmCall? && b.status == B.ProcessingPayment);
    assert b'.status == B.TemporaryHold ==> b.status == B.TemporaryHold;
    hide B.Answer, B.Booking.Valid;
    RowReplaced(db, db', id, b');
  }

  lemma RowReplaced(db: Db, db': Db, id: Uuid, b': B.Booking)
    requires DbOk(db) && id in db.bookings && db' == db.(bookings := db.bookings[id := db.bookings[id].(booking := b')])
    requires b'.Valid() && b'.SamePlan(db.bookings[id].booking)
    requires b'.status == B.TemporaryHold ==> db.HasStatus(id, B.TemporaryHold)
    requires b'.status == B.Confirmed && !db.HasStatus(id, B.Confirmed) ==>
               forall k :: b'.Covers(k) ==> db.HasHold(k, id) && db.HoldOf(k, id).status == I.Confirmed
    ensures DbOk(db') && OnlyAbout(db, db', id)
  {
    hide B.Booking.Valid;
    assert forall k, x :: db'.HasHold(k, x) <==> db.HasHold(k, x);
    assert forall k, x :: db.HasHold(k, x) ==> db'.HoldOf(k, x) == db.HoldOf(k, x);
  }

  lemma ConfirmStartStep(w: World, pid: nat, e: Env)
    requires Inv(w) && w.procs.Keys >= {pid} && w.procs[pid].ConfirmStart? && MayStep(w, pid, e)
    ensures var n := Advance(w.db, w.procs[pid], e); Inv(w.(db := n.db, procs := w.procs[pid := n.proc]))
  {
    var id := w.procs[pid].id;
    var n := Advance(w.db, w.procs[pid], e);
    if n.db != w.db {
      RowUpdate(w.db, id, B.StartPaymentCall);
    }
    hide B.Booking.Valid;
    SameInventories(w.db, n.db, w.started);
    StepKeepsInv(w, pid, n.db, n.proc, id);
  }

  /** A running Confirm or Cancel is not disturbed by the cancellation of its booking. */
  lemma CancellationKeepsProc(db: Db, db': Db, started: map<Uuid, Instant>, p: Proc)
    requires ProcOk(db, started, p) && HasBooking(p) && !IsBook(p)
    requires db'.inventories == db.inventories && db'.HasStatus(p.b.id, B.Cancelled)
    requires db'.bookings[p.b.id].booking.SamePlan(db.bookings[p.b.id].booking)
    ensures ProcOk(db', started, p)
  {
    assert forall k :: db'.HasHold(k, p.b.id) <==> db.HasHold(k, p.b.id);
  }

  lemma CancelStartStep(w: World, pid: nat, e: Env)
    requires Inv(w) && w.procs.Keys >= {pid} && w.procs[pid].CancelStart? && MayStep(w, pid, e)
    ensures var n := Advance(w.db, w.procs[pid], e); Inv(w.(db := n.db, procs := w.procs[pid := n.proc]))
  {
    var CancelStart(id, reason, now, rest) := w.procs[pid];
    var r := UpdateBooking(w.db, id, B.CancelCall(reason, now));
    if r.Ok? {
      RowUpdate(w.db, id, B.CancelCall(reason, now));
      RowCancelled(w, pid, id, r.value, Finished);
      RowCancelled(w, pid, id, r.value, CancelRelease(r.value.bookings[id].booking, 0, now, rest));
    }
    assert OnlyAbout(w.db, w.db, id);
    StepKeepsInv(w, pid, w.db, Finished, id);
  }

  lemma RowCancelled(w: World, pid: nat, id: Uuid, db': Db, p': Proc)
    requires Inv(w) && pid in w.procs && NoBookRunning(w, id) && id in w.db.bookings
    requires DbOk(db') && OnlyAbout(w.db, db', id) && db'.inventories == w.db.inventories &&
             db'.nextUuid == w.db.nextUuid
    requires db'.HasStatus(id, B.Cancelled) && db'.bookings[id].booking.SamePlan(w.db.bookings[id].booking)
    requires !IsBook(p') && !IsPass(p') && ProcOk(db', w.started, p')
    ensures Inv(w.(db := db', procs := w.procs[pid := p']))
  {
    assert forall k, x :: db'.HasHold(k, x) <==> w.db.HasHold(k, x);
    forall q | q in w.procs && q != pid && HasBooking(w.procs[q]) && w.procs[q].b.id == id
      ensures ProcOk(db', w.started, w.procs[q])
    {
      CancellationKeepsProc(w.db, db', w.started, w.procs[q]);
    }
    StepKeepsInv(w, pid, db', p', id);
  }

  lemma EditGuestsStep(w: World, pid: nat, e: Env)
    requires Inv(w) && w.procs.Keys >= {pid} && w.procs[pid].EditGuests? && MayStep(w, pid, e)
    ensures var n := Advance(w.db, w.procs[pid], e); Inv(w.(db := n.db, procs := w.procs[pid := n.proc]))
  {
    var EditGuests(id, guests, capacity) := w.procs[pid];
    var n := Advance(w.db, w.procs[pid], e);
    if n.db != w.db {
      RowUpdate(w.db, id, B.ChangeGuestsCall(guests, capacity));
    }
    hide DbOk, ExpiriesOk, B.Booking.Valid;
    UnchangedIsOnlyAbout(w.db, id);
    SameInventories(w.db, n.db, w.started);
    StepKeepsInv(w, pid, n.db, n.proc, id);
  }

  // ---- Confirm ----

  /** What one night of Confirm does to the hold of its booking there. */
  lemma PassCallEffect(db: Db, k: InventoryId, x: Uuid, starting: bool, o: Outcome)
    ensures var (db', reply) := Call(db, k, if starting then I.StartPaymentOp(x) else I.ConfirmOp(x), o);
            var moved := if starting then I.ProcessingPayment else I.Confirmed;
            && (reply.Some? ==> db'.HasHold(k, x) && db'.HoldOf(k, x).status == moved)
            && (db.HasHold(k, x) <==> db'.HasHold(k, x))
            && (db'.HasHold(k, x) ==> db'.HoldOf(k, x) == db.HoldOf(k, x) || db'.HoldOf(k, x).status == moved)
  {
  }

  /** The pass invariant after night i, when the holds of other nights are untouched. */
  lemma PassAdvances(db: Db, db': Db, b: B.Booking, i: int, waiting: I.HoldStatus, moved: I.HoldStatus, upto: int,
      upto': int)
    requires PassOk(db, b, i, waiting, moved, upto) && i < b.period.Nights()
    requires SameButAt(db, db', b.Night(i), b.id)
    requires db'.HasHold(b.Night(i), b.id) && db'.HoldOf(b.Night(i), b.id).status == moved
    requires upto' == upto || (upto == i && upto' == i + 1)
    ensures PassOk(db', b, i + 1, waiting, moved, upto')
  {
    forall k | b.Covers(k) && k.date < b.period.checkin + upto' && db'.HasStatus(b.id, B.ProcessingPayment)
      ensures db'.HasHold(k, b.id)
    {
      if k.date == b.period.checkin + i {
        assert k == b.Night(i);
      }
    }
    forall k | b.Covers(k) && db'.HasHold(k, b.id)
      ensures db'.HoldOf(k, b.id).status == if k.date < b.period.checkin + i + 1 then moved else waiting
    {
      if k.date == b.period.checkin + i {
        assert k == b.Night(i);
      } else {
        assert db.HasHold(k, b.id);
      }
    }
  }

  /** One night of a pass, seen from the process itself. */
  lemma PassNight(db: Db, started: map<Uuid, Instant>, p: Proc, e: Env)
    requires InventoriesOk(db) && IsPass(p) && p.i < p.b.period.Nights() && ProcOk(db, started, p)
    ensures var n, k := Advance(db, p, e), p.b.Night(p.i);
            && p.b.Covers(k) && SameButAt(db, n.db, k, p.b.id)
            && (n.db.HasHold(k, p.b.id) && n.db.HoldOf(k, p.b.id).status == I.TemporaryHold ==>
                  db.HasHold(k, p.b.id) && n.db.HoldOf(k, p.b.id) == db.HoldOf(k, p.b.id))
            && (n.proc == Finished || (IsPass(n.proc) && n.proc.b == p.b && ProcOk(n.db, started, n.proc)))
  {
    var b, i, starting := p.b, p.i, p.ConfirmPay?;
    var k, op := b.Night(i), if starting then I.StartPaymentOp(b.id) else I.ConfirmOp(b.id);
    var n := Advance(db, p, e);
    assert n.db == Call(db, k, op, e.outcome).0;
    hide Call, SameButAt, PassOk, I.Apply;
    CallIsLocal(db, k, op, e.outcome);
    PassCallEffect(db, k, b.id, starting, e.outcome);
    if n.proc != Finished {
      if starting {
        PassAdvances(db, n.db, b, i, I.TemporaryHold, I.ProcessingPayment, i, i + 1);
      } else {
        PassAdvances(db, n.db, b, i, I.ProcessingPayment, I.Confirmed, b.period.Nights(), b.period.Nights());
      }
    }
    PassBounds(db, started, p);
  }

  lemma PassBounds(db: Db, started: map<Uuid, Instant>, p: Proc)
    requires IsPass(p) && ProcOk(db, started, p)
    ensures 0 <= p.i <= p.b.period.Nights()
  {
  }

  lemma ConfirmNightStep(w: World, pid: nat, e: Env)
    requires Inv(w) && pid in w.procs && IsPass(w.procs[pid]) && w.procs[pid].i < w.procs[pid].b.period.Nights()
    ensures var n := Advance(w.db, w.procs[pid], e); Inv(w.(db := n.db, procs := w.procs[pid := n.proc]))
  {
    var p := w.procs[pid];
    assert InventoriesOk(w.db) && ProcOk(w.db, w.started, p);
    hide Inv, Advance, ProcOk, SameButAt;
    PassNight(w.db, w.started, p, e);
    PassKeepsInv(w, pid, p.b.Night(p.i), Advance(w.db, p, e).db, Advance(w.db, p, e).proc);
  }

  lemma PassKeepsInv(w: World, pid: nat, k: InventoryId, db': Db, p': Proc)
    requires Inv(w) && pid in w.procs && IsPass(w.procs[pid])
    requires var b := w.procs[pid].b;
             && b.Covers(k) && SameButAt(w.db, db', k, b.id)
             && (db'.HasHold(k, b.id) && db'.HoldOf(k, b.id).status == I.TemporaryHold ==>
                   w.db.HasHold(k, b.id) && db'.HoldOf(k, b.id) == w.db.HoldOf(k, b.id))
    requires p' == Finished || (IsPass(p') && p'.b == w.procs[pid].b && ProcOk(db', w.started, p'))
    ensures Inv(w.(db := db', procs := w.procs[pid := p']))
  {
    var b := w.procs[pid].b;
    HoldChangeKeepsDb(w.db, db', k, b.id);
    HoldChangeKeepsExpiries(w.db, db', k, b.id, w.started);
    SameButAtIsCalm(w.db, db', k, b.id);
    StepKeepsInv(w, pid, db', p', b.id);
  }

  lemma ConfirmTurnStep(w: World, pid: nat, e: Env)
    requires Inv(w) && pid in w.procs && w.procs[pid].ConfirmPay? && w.procs[pid].i == w.procs[pid].b.period.Nights()
    ensures var n := Advance(w.db, w.procs[pid], e); Inv(w.(db := n.db, procs := w.procs[pid := n.proc]))
  {
    StepKeepsInv(w, pid, w.db, ConfirmSlots(w.procs[pid].b, 0), w.procs[pid].b.id);
  }

  lemma ConfirmFinishStep(w: World, pid: nat, e: Env)
    requires Inv(w) && pid in w.procs && w.procs[pid].ConfirmSlots? && w.procs[pid].i == w.procs[pid].b.period.Nights()
    ensures var n := Advance(w.db, w.procs[pid], e); Inv(w.(db := n.db, procs := w.procs[pid := n.proc]))
  {
    var b := w.procs[pid].b;
    var n := Advance(w.db, w.procs[pid], e);
    if n.db != w.db {
      RowUpdate(w.db, b.id, B.ConfirmCall);
    }
    assert forall k, x :: n.db.HasHold(k, x) <==> w.db.HasHold(k, x);
    StepKeepsInv(w, pid, n.db, n.proc, b.id);
  }

  // ---- Cancel ----

  lemma CancelReleaseStep(w: World, pid: nat, e: Env)
    requires Inv(w) && pid in w.procs && w.procs[pid].CancelRelease?
    ensures var n := Advance(w.db, w.procs[pid], e); Inv(w.(db := n.db, procs := w.procs[pid := n.proc]))
  {
    var CancelRelease(b, i, now, rest) := w.procs[pid];
    var n := Advance(w.db, w.procs[pid], e);
    if i < b.period.Nights() {
      CallIsLocal(w.db, b.Night(i), I.ReleaseOp(b.id), e.outcome);
      assert n.db.HasHold(b.Night(i), b.id) ==> n.db == w.db;
    }
    CancelKeepsInv(w, pid, b.Night(i), n.db, n.proc);
  }

  lemma CancelKeepsInv(w: World, pid: nat, k: InventoryId, db': Db, p': Proc)
    requires Inv(w) && pid in w.procs && w.procs[pid].CancelRelease?
    requires db' == w.db ||
             (w.procs[pid].b.Covers(k) && SameButAt(w.db, db', k, w.procs[pid].b.id) &&
             !db'.HasHold(k, w.procs[pid].b.id))
    requires p'.Finished? || p'.CancelStart? ||
             (p'.CancelRelease? && p'.b == w.procs[pid].b && 0 <= p'.i <= p'.b.period.Nights())
    ensures Inv(w.(db := db', procs := w.procs[pid := p']))
  {
    var b := w.procs[pid].b;
    if db' != w.db {
      HoldChangeKeepsDb(w.db, db', k, b.id);
      HoldChangeKeepsExpiries(w.db, db', k, b.id, w.started);
      SameButAtIsCalm(w.db, db', k, b.id);
    }
    StepKeepsInv(w, pid, db', p', b.id);
  }
}
