/** The invariant that every step of every process keeps, whatever runs beside it. */
module SagaInvariant {
  import opened Common
  import opened Transactions
  import opened Saga
  import I = InventorySpec
  import B = BookingSpec

  // ---- the database part ----

  ghost predicate InventoriesOk(db: Db) {
    forall k :: k in db.inventories ==> db.inventories[k].Valid()
  }

  ghost predicate BookingsOk(db: Db) {
    forall x :: x in db.bookings ==>
      db.bookings[x].booking.id == x && x < db.nextUuid && db.bookings[x].booking.Valid()
  }

  /** A hold belongs to a stored booking that covers that night of that room type. */
  ghost predicate HoldsOwned(db: Db) {
    forall k, x :: db.HasHold(k, x) ==> x in db.bookings && db.bookings[x].booking.Covers(k)
  }

  /** A Processing or Confirmed hold never belongs to a TemporaryHold booking. */
  ghost predicate Coupled(db: Db) {
    forall k, x :: db.HasHold(k, x) && db.HasStatus(x, B.TemporaryHold) ==> db.HoldOf(k, x).status == I.TemporaryHold
  }

  /** A Confirmed booking holds every night of its stay, each hold itself Confirmed. */
  ghost predicate ConfirmedHeld(db: Db) {
    forall k, x :: db.HasStatus(x, B.Confirmed) && db.bookings[x].booking.Covers(k) ==>
      db.HasHold(k, x) && db.HoldOf(k, x).status == I.Confirmed
  }

  ghost predicate DbOk(db: Db) {
    InventoriesOk(db) && BookingsOk(db) && HoldsOwned(db) && Coupled(db) && ConfirmedHeld(db)
  }

  /** A temporary hold expires a fixed time after the `now` of its Book call. */
  ghost predicate ExpiriesOk(db: Db, started: map<Uuid, Instant>) {
    && (forall x :: x in started ==> x < db.nextUuid)
    && (forall k, x :: db.HasHold(k, x) && db.HoldOf(k, x).status == I.TemporaryHold ==>
          x in started && db.HoldOf(k, x).expiredAt == Some(started[x] + HOLD_TTL))
  }

  // ---- the process part ----

  /** While Book runs nobody else moves the status of its booking; its guests may have been changed. */
  ghost predicate Saved(db: Db, b: B.Booking) {
    && db.HasStatus(b.id, B.TemporaryHold) && db.bookings[b.id].booking.SamePlan(b)
    && b.status == B.TemporaryHold && b.Valid()
  }

  /**
   * Confirm at night i of a pass that moves holds from `waiting` to `moved`: on the nights before i a hold is moved, on
   * the others it waits; and unless a concurrent Cancel has run, the nights before `upto` still have their hold.
   */
  ghost predicate PassOk(db: Db, b: B.Booking, i: int, waiting: I.HoldStatus, moved: I.HoldStatus, upto: int) {
    && b.id in db.bookings && db.bookings[b.id].booking.SamePlan(b) && b.Valid()
    && db.bookings[b.id].booking.status in {B.ProcessingPayment, B.Cancelled}
    && 0 <= i <= b.period.Nights()
    && (forall k :: b.Covers(k) && db.HasHold(k, b.id) ==>
          db.HoldOf(k, b.id).status == if k.date < b.period.checkin + i then moved else waiting)
    && (db.HasStatus(b.id, B.ProcessingPayment) ==>
          forall k :: b.Covers(k) && k.date < b.period.checkin + upto ==> db.HasHold(k, b.id))
  }

  ghost predicate ProcOk(db: Db, started: map<Uuid, Instant>, p: Proc) {
    match p
    case BookSave(b, now) =>
      && b.id < db.nextUuid && b.id !in db.bookings && b.status == B.TemporaryHold && b.Valid()
      && b.id in started && started[b.id] == now
    case BookHold(b, now, i, total) =>
      Saved(db, b) && b.id in started && started[b.id] == now && 0 <= i <= b.period.Nights() && total >= 0
    case BookRelease(b, now, held, j) =>
      Saved(db, b) && 0 <= j <= held <= b.period.Nights()
    case ConfirmPay(b, i) => PassOk(db, b, i, I.TemporaryHold, I.ProcessingPayment, i)
    case ConfirmSlots(b, i) => PassOk(db, b, i, I.ProcessingPayment, I.Confirmed, b.period.Nights())
    case CancelRelease(b, i, _, _) =>
      && db.HasStatus(b.id, B.Cancelled) && db.bookings[b.id].booking.SamePlan(b)
      && 0 <= i <= b.period.Nights()
    case _ => true
  }

  predicate IsPass(p: Proc) {
    p.ConfirmPay? || p.ConfirmSlots?
  }

  /** At most one Book and at most one Confirm past its start per booking. */
  ghost predicate Exclusive(procs: map<nat, Proc>) {
    && (forall p, q :: p in procs && q in procs && p != q && IsBook(procs[p]) && IsBook(procs[q]) ==>
          procs[p].b.id != procs[q].b.id)
    && (forall p, q :: p in procs && q in procs && p != q && IsPass(procs[p]) && IsPass(procs[q]) ==>
          procs[p].b.id != procs[q].b.id)
  }

  ghost predicate Inv(w: World) {
    && DbOk(w.db) && ExpiriesOk(w.db, w.started)
    && (forall pid :: pid in w.procs ==> ProcOk(w.db, w.started, w.procs[pid]))
    && Exclusive(w.procs)
  }

  // ---- what a step may do to a booking it is not about ----

  /** As far as booking y can tell, nothing happened, except that temporary holds of y may have been collected. */
  ghost predicate Calm(db: Db, db': Db, y: Uuid) {
    && (y in db.bookings <==> y in db'.bookings)
    && (y in db.bookings ==> db.bookings[y] == db'.bookings[y])
    && (forall k :: db'.HasHold(k, y) ==> db.HasHold(k, y) && db'.HoldOf(k, y) == db.HoldOf(k, y))
    && (forall k :: db.HasHold(k, y) && db.HoldOf(k, y).status != I.TemporaryHold ==> db'.HasHold(k, y))
  }

  lemma CalmKeepsProc(db: Db, db': Db, started: map<Uuid, Instant>, p: Proc)
    requires ProcOk(db, started, p) && db.nextUuid <= db'.nextUuid
    requires p.BookSave? || p.BookHold? || p.BookRelease? || p.ConfirmPay? || p.ConfirmSlots? || p.CancelRelease? ==>
               Calm(db, db', p.b.id)
    ensures ProcOk(db', started, p)
  {
  }

  /** The step changed nothing but booking x and its holds. */
  ghost predicate OnlyAbout(db: Db, db': Db, x: Uuid) {
    forall y :: y != x ==> Calm(db, db', y)
  }

  /** The process has local state about a stored booking. */
  predicate HasBooking(p: Proc) {
    p.BookSave? || p.BookHold? || p.BookRelease? || p.ConfirmPay? || p.ConfirmSlots? || p.CancelRelease?
  }

  /** Assembles the invariant after process `pid` went from its old state to p' with database db'. */
  lemma StepKeepsInv(w: World, pid: nat, db': Db, p': Proc, x: Uuid)
    requires Inv(w) && pid in w.procs
    requires DbOk(db') && ExpiriesOk(db', w.started) && ProcOk(db', w.started, p')
    requires w.db.nextUuid <= db'.nextUuid
    requires OnlyAbout(w.db, db', x)
    requires forall q :: q in w.procs && q != pid && HasBooking(w.procs[q]) && w.procs[q].b.id == x ==>
                           ProcOk(db', w.started, w.procs[q])
    requires IsBook(p') ==> IsBook(w.procs[pid]) && w.procs[pid].b.id == p'.b.id
    requires IsPass(p') ==> forall q :: q in w.procs && q != pid && IsPass(w.procs[q]) ==> w.procs[q].b.id != p'.b.id
    ensures Inv(w.(db := db', procs := w.procs[pid := p']))
  {
    forall q | q in w.procs && q != pid ensures ProcOk(db', w.started, w.procs[q]) {
      if !HasBooking(w.procs[q]) || w.procs[q].b.id != x {
        CalmKeepsProc(w.db, db', w.started, w.procs[q]);
      }
    }
  }
}
