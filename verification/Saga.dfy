/**
 * The process manager of `server/internal/booking/app/booking.go` and the worker, as small-step processes that run
 * interleaved. One step is one transaction; between two steps anything else may happen, and a process may stop for
 * good.
 */
module Saga {
  import opened Common
  import opened StayPeriods
  import opened Transactions
  import I = InventorySpec
  import B = BookingSpec

  /**
   * How a transaction ends for its caller: committed; rolled back with an error (lock timeout, lost connection);
   * or committed although the caller sees an error.
   */
  datatype Outcome = Commit | Abort | CommitUnseen

  /** What the environment decides about a step: its outcome, the database clock, and what a listing returned. */
  datatype Env = Env(outcome: Outcome, at: Instant, ids: seq<Uuid>, keys: seq<InventoryId>)

  /** Program counters, with the local variables that are live there. */
  datatype Proc =
    | BookSave(b: B.Booking, now: Instant)
    | BookHold(b: B.Booking, now: Instant, i: int, total: int)
    | BookRelease(b: B.Booking, now: Instant, held: int, j: int)
    | ConfirmStart(id: Uuid)
    | ConfirmPay(b: B.Booking, i: int)
    | ConfirmSlots(b: B.Booking, i: int)
    | CancelStart(id: Uuid, reason: B.Reason, now: Instant, rest: seq<Uuid>)
    | CancelRelease(b: B.Booking, i: int, now: Instant, rest: seq<Uuid>)
    | EditGuests(id: Uuid, guests: seq<B.Guest>, capacity: int)
    | ExpireList(now: Instant)
    | CollectList(now: Instant)
    | CollectLoop(keys: seq<InventoryId>, now: Instant)
    | Finished

  datatype Next = Next(db: Db, proc: Proc)

  /** The loop of ExpireStale: cancel the next listed booking, or return. */
  function CancelNext(ids: seq<Uuid>, now: Instant): Proc {
    if ids == [] then Finished else CancelStart(ids[0], B.Expired, now, ids[1..])
  }

  /** One inventory transaction: the database after it, and the reply if the caller sees one. */
  function Call(db: Db, k: InventoryId, op: I.Op, o: Outcome): (Db, Option<I.Reply>) {
    match Mutate(db, k, op)
    case Err(_) => (db, None)
    case Ok(m) =>
      match o
      case Commit => (m.db, Some(m.reply))
      case Abort => (db, None)
      case CommitUnseen => (m.db, None)
  }

  function HoldNight(b: B.Booking, now: Instant, holdId: Uuid): I.Op {
    I.HoldOp(holdId, b.id, now + HOLD_TTL, now)
  }

  /** Release of one night may go wrong in three ways; only "already released" lets releaseAll go on. */
  function ReleaseAnswered(db: Db, k: InventoryId, b: Uuid, o: Outcome): bool {
    match Mutate(db, k, I.ReleaseOp(b))
    case Ok(_) => o == Commit
    case Err(InventoryNotFound) => o == Commit
    case Err(Refused(e)) => o == Commit && e == I.ErrHoldNotFound
    case Err(_) => false
  }

  function Advance(db: Db, p: Proc, e: Env): Next {
    match p
    case BookSave(b, now) =>
      var saved := SaveBooking(db, b, e.at);
      (match e.outcome
       case Commit => Next(saved, BookHold(b, now, 0, 0))
       case Abort => Next(db, Finished)
       case CommitUnseen => Next(saved, Finished))
    case BookHold(b, now, i, total) =>
      if i < b.period.Nights() then
        var (db', reply) := Call(db, b.Night(i), HoldNight(b, now, db.nextUuid), e.outcome);
        Next(db'.(nextUuid := db.nextUuid + 1),
             if reply.Some? && reply.value.Held? then BookHold(b, now, i + 1, total + reply.value.feeAmount)
             else BookRelease(b, now, i, 0))
      else (
        match B.FixTotalFee(b, total)
        case Ok(b') => Next(if e.outcome == Abort then db else SaveBooking(db, b', e.at), Finished)
        case Err(_) => Next(db, Finished))
    case BookRelease(b, now, held, j) =>
      if j < held then
        Next(Call(db, b.Night(j), I.ReleaseOp(b.id), e.outcome).0, BookRelease(b, now, held, j + 1))
      else
        Next(if e.outcome == Abort then db else SaveBooking(db, B.Cancel(b, B.Expired, now), e.at), Finished)
    case ConfirmStart(id) =>
      (match UpdateBooking(db, id, B.StartPaymentCall)
       case Err(_) => Next(db, Finished)
       case Ok(db') =>
         match e.outcome
         case Commit => Next(db', ConfirmPay(db'.bookings[id].booking, 0))
         case Abort => Next(db, Finished)
         case CommitUnseen => Next(db', Finished))
    case ConfirmPay(b, i) =>
      if i < b.period.Nights() then
        var (db', reply) := Call(db, b.Night(i), I.StartPaymentOp(b.id), e.outcome);
        Next(db', if reply.Some? then ConfirmPay(b, i + 1) else Finished)
      else Next(db, ConfirmSlots(b, 0))
    case ConfirmSlots(b, i) =>
      if i < b.period.Nights() then
        var (db', reply) := Call(db, b.Night(i), I.ConfirmOp(b.id), e.outcome);
        Next(db', if reply.Some? then ConfirmSlots(b, i + 1) else Finished)
      else (
        match UpdateBooking(db, b.id, B.ConfirmCall)
        case Err(_) => Next(db, Finished)
        case Ok(db') => Next(if e.outcome == Abort then db else db', Finished))
    case CancelStart(id, reason, now, rest) =>
      (match UpdateBooking(db, id, B.CancelCall(reason, now))
       case Err(_) => Next(db, Finished)
       case Ok(db') =>
         match e.outcome
         case Commit => Next(db', CancelRelease(db'.bookings[id].booking, 0, now, rest))
         case Abort => Next(db, Finished)
         case CommitUnseen => Next(db', Finished))
    case CancelRelease(b, i, now, rest) =>
      if i < b.period.Nights() then
        var go := ReleaseAnswered(db, b.Night(i), b.id, e.outcome);
        Next(Call(db, b.Night(i), I.ReleaseOp(b.id), e.outcome).0,
             if go then CancelRelease(b, i + 1, now, rest) else CancelNext(rest, now))
      else Next(db, CancelNext(rest, now))
    case EditGuests(id, guests, capacity) =>
      (match UpdateBooking(db, id, B.ChangeGuestsCall(guests, capacity))
       case Err(_) => Next(db, Finished)
       case Ok(db') => Next(if e.outcome == Abort then db else db', Finished))
    case ExpireList(now) =>
      Next(db, if e.outcome == Commit then CancelNext(e.ids, now) else Finished)
    case CollectList(now) =>
      Next(db, if e.outcome == Commit then CollectLoop(e.keys, now) else Finished)
    case CollectLoop(keys, now) =>
      if keys == [] then Next(db, Finished)
      else
        var (db', reply) := Call(db, keys[0], I.CollectOp(now), e.outcome);
        Next(db', if reply.Some? then CollectLoop(keys[1..], now) else Finished)
    case Finished => Next(db, Finished)
  }

  // ---- any number of processes, the operator, and the clock ----

  /** `started` remembers the `now` a booking's Book call was made with. */
  datatype World = World(db: Db, procs: map<nat, Proc>, started: map<Uuid, Instant>)

  datatype Action =
    | Register(k: InventoryId, quantity: int, fee: int)
    | Edit(k: InventoryId, op: I.Op)
    | SpawnBook(pid: nat, bookerId: Uuid, roomTypeId: Uuid, period: StayPeriod, guests: seq<B.Guest>, capacity: int,
         now: Instant)
    | Spawn(pid: nat, proc: Proc)
    | Step(pid: nat, env: Env)
    | Stop(pid: nat)

  predicate IsBook(p: Proc) {
    p.BookSave? || p.BookHold? || p.BookRelease?
  }

  /** Every entry point except Book, which gets its booking from SpawnBook. */
  predicate IsEntry(p: Proc) {
    match p
    case ConfirmStart(_) => true
    case CancelStart(_, _, _, rest) => rest == []
    case EditGuests(_, _, _) => true
    case ExpireList(_) => true
    case CollectList(_) => true
    case _ => false
  }

  predicate IsOperatorEdit(op: I.Op) {
    op.ChangeQuantityOp? || op.ChangeFeeOp? || op.CloseOp? || op.ReopenOp?
  }

  /** No Book call for this booking is still running. */
  ghost predicate NoBookRunning(w: World, id: Uuid) {
    forall pid :: pid in w.procs && IsBook(w.procs[pid]) ==> w.procs[pid].b.id != id
  }

  /** If the step is a listing, it returns what its query selects. */
  ghost predicate ListingOk(db: Db, p: Proc, e: Env) {
    match p
    case ExpireList(now) => IsStaleListing(db, now - HOLD_TTL, e.ids)
    case CollectList(now) => IsExpiredListing(db, now, e.keys)
    case _ => true
  }

  /**
   * The assumption about callers: no Confirm and no Cancel of a booking starts before its Book call has returned.
   * ChangeGuests need not wait.
   */
  ghost predicate CallersWait(w: World, p: Proc) {
    match p
    case ConfirmStart(id) => NoBookRunning(w, id)
    case CancelStart(id, _, _, _) => NoBookRunning(w, id)
    case _ => true
  }

  ghost predicate MayStep(w: World, pid: nat, e: Env) {
    pid in w.procs && CallersWait(w, w.procs[pid]) && ListingOk(w.db, w.procs[pid], e)
  }

  function Stepped(w: World, pid: nat, e: Env): World
    requires pid in w.procs
  {
    var n := Advance(w.db, w.procs[pid], e);
    w.(db := n.db, procs := w.procs[pid := n.proc])
  }

  ghost predicate Transits(w: World, a: Action, w': World) {
    match a
    case Register(k, quantity, fee) =>
      && k !in w.db.inventories && I.Register(quantity, fee).Ok?
      && w' == w.(db := w.db.(inventories := w.db.inventories[k := I.Register(quantity, fee).value]))
    case Edit(k, op) =>
      && IsOperatorEdit(op) && Mutate(w.db, k, op).Ok?
      && w' == w.(db := Mutate(w.db, k, op).value.db)
    case SpawnBook(pid, bookerId, roomTypeId, period, guests, capacity, now) =>
      var id := w.db.nextUuid;
      var r := B.NewBooking(id, bookerId, roomTypeId, period, guests, 0, capacity, now);
      && pid !in w.procs && period.Valid() && r.Ok?
      && w' == World(w.db.(nextUuid := id + 1), w.procs[pid := BookSave(r.value, now)], w.started[id := now])
    case Spawn(pid, p) =>
      && pid !in w.procs && IsEntry(p) && w' == w.(procs := w.procs[pid := p])
    case Step(pid, e) =>
      MayStep(w, pid, e) && w' == Stepped(w, pid, e)
    case Stop(pid) =>
      pid in w.procs && w' == w.(procs := w.procs - {pid})
  }

  ghost predicate Initial(w: World) {
    w == World(Db(map[], map[], 0), map[], map[])
  }

  ghost predicate IsRun(ws: seq<World>, actions: seq<Action>) {
    && |ws| == |actions| + 1 && Initial(ws[0])
    && forall i :: 0 <= i < |actions| ==> Transits(ws[i], actions[i], ws[i + 1])
  }

  // ---- the same without the assumption about callers ----

  ghost predicate TransitsFreely(w: World, a: Action, w': World) {
    match a
    case Step(pid, e) => pid in w.procs && ListingOk(w.db, w.procs[pid], e) && w' == Stepped(w, pid, e)
    case _ => Transits(w, a, w')
  }

  ghost predicate IsFreeRun(ws: seq<World>, actions: seq<Action>) {
    && |ws| == |actions| + 1 && Initial(ws[0])
    && forall i :: 0 <= i < |actions| ==> TransitsFreely(ws[i], actions[i], ws[i + 1])
  }
}
