/** What holds in every reachable state of any interleaving. */
module SagaSafety {
  import opened Common
  import opened StayPeriods
  import opened Transactions
  import opened Saga
  import opened SagaInvariant
  import opened SagaSteps
  import I = InventorySpec
  import B = BookingSpec

  // ---- the remaining kinds of step ----

  /** An inventory changes, but its holds only shrink, and only by temporary ones. */
  ghost predicate OnlyLosesTemporary(s: I.InventoryState, s': I.InventoryState) {
    && (forall x :: x in s'.holds ==> x in s.holds && s'.holds[x] == s.holds[x])
    && (forall x :: x in s.holds && s.holds[x].status != I.TemporaryHold ==> x in s'.holds)
  }

  ghost predicate Shrinks(db: Db, db': Db) {
    && db'.bookings == db.bookings && db'.nextUuid == db.nextUuid && InventoriesOk(db')
    && (forall k, x :: db'.HasHold(k, x) ==> db.HasHold(k, x) && db'.HoldOf(k, x) == db.HoldOf(k, x))
    && (forall k, x :: db.HasHold(k, x) && db.HoldOf(k, x).status != I.TemporaryHold ==> db'.HasHold(k, x))
  }

  lemma ShrinkKeepsInv(w: World, db': Db, procs: map<nat, Proc>)
    requires Inv(w) && Shrinks(w.db, db')
    requires forall pid :: pid in procs ==>
               (pid in w.procs && procs[pid] == w.procs[pid]) || !HasBooking(procs[pid])
    ensures Inv(w.(db := db', procs := procs))
  {
    ShrinkKeepsDb(w.db, db', w.started);
    hide DbOk, ExpiriesOk, Shrinks, ProcOk;
    forall pid | pid in procs ensures ProcOk(db', w.started, procs[pid]) {
      ShrinkKeepsProc(w.db, db', w.started, procs[pid]);
    }
  }

  lemma ShrinkKeepsDb(db: Db, db': Db, started: map<Uuid, Instant>)
    requires DbOk(db) && ExpiriesOk(db, started) && Shrinks(db, db')
    ensures DbOk(db') && ExpiriesOk(db', started)
  {
  }

  lemma ShrinkKeepsProc(db: Db, db': Db, started: map<Uuid, Instant>, p: Proc)
    requires Shrinks(db, db') && (ProcOk(db, started, p) || !HasBooking(p))
    ensures ProcOk(db', started, p)
  {
    if HasBooking(p) {
      CalmKeepsProc(db, db', started, p);
    }
  }

  lemma PutShrinks(db: Db, k: InventoryId, s: I.InventoryState)
    requires InventoriesOk(db) && s.Valid()
    requires k in db.inventories ==> OnlyLosesTemporary(db.inventories[k], s)
    requires k !in db.inventories ==> s.holds == map[]
    ensures Shrinks(db, db.(inventories := db.inventories[k := s]))
  {
  }

  /** Collecting one inventory at any moment takes nothing but expired temporary holds. */
  lemma CollectLosesTemporary(s: I.InventoryState, now: Instant)
    requires s.Valid()
    ensures var s' := I.Apply(s, I.CollectOp(now)).value.state;
            && s'.Valid() && OnlyLosesTemporary(s, s')
            && (forall x :: x in s.holds && x !in s'.holds ==>
                  s.holds[x].expiredAt.Some? && s.holds[x].expiredAt.value < now)
  {
    I.ApplyKeepsValid(s, I.CollectOp(now));
  }

  lemma IdleStep(w: World, pid: nat, e: Env)
    requires Inv(w) && pid in w.procs
    requires var p := w.procs[pid]; p.ExpireList? || p.CollectList? || p.CollectLoop? || p.Finished?
    ensures var n := Advance(w.db, w.procs[pid], e); Inv(w.(db := n.db, procs := w.procs[pid := n.proc]))
  {
    hide Inv, Advance, Shrinks;
    InvHasInventories(w);
    IdleShrinks(w.db, w.procs[pid], e);
    var n := Advance(w.db, w.procs[pid], e);
    ShrinkKeepsInv(w, n.db, w.procs[pid := n.proc]);
  }

  lemma IdleShrinks(db: Db, p: Proc, e: Env)
    requires InventoriesOk(db) && (p.ExpireList? || p.CollectList? || p.CollectLoop? || p.Finished?)
    ensures Shrinks(db, Advance(db, p, e).db) && !HasBooking(Advance(db, p, e).proc)
  {
    var n := Advance(db, p, e);
    if n.db != db {
      var k := p.keys[0];
      CollectLosesTemporary(db.inventories[k], p.now);
      PutShrinks(db, k, n.db.inventories[k]);
    }
  }

  lemma OperatorStep(w: World, k: InventoryId, op: I.Op)
    requires Inv(w) && IsOperatorEdit(op) && Mutate(w.db, k, op).Ok?
    ensures Inv(w.(db := Mutate(w.db, k, op).value.db))
  {
    var s, s' := w.db.inventories[k], Mutate(w.db, k, op).value.db.inventories[k];
    EditKeepsHolds(s, op);
    hide I.Apply, I.InventoryState.Valid, Inv;
    InvHasInventories(w);
    PutShrinks(w.db, k, s');
    ShrinkKeepsInv(w, Mutate(w.db, k, op).value.db, w.procs);
  }

  lemma EditKeepsHolds(s: I.InventoryState, op: I.Op)
    requires IsOperatorEdit(op) && I.Apply(s, op).Ok?
    ensures I.Apply(s, op).value.state.holds == s.holds
    ensures s.Valid() ==> I.Apply(s, op).value.state.Valid()
  {
    if s.Valid() {
      I.ApplyKeepsValid(s, op);
    }
  }

  lemma InvHasInventories(w: World)
    requires Inv(w)
    ensures InventoriesOk(w.db)
  {
  }

  lemma ProcessStep(w: World, pid: nat, e: Env)
    requires Inv(w) && MayStep(w, pid, e)
    ensures var n := Advance(w.db, w.procs[pid], e); Inv(w.(db := n.db, procs := w.procs[pid := n.proc]))
  {
    match w.procs[pid]
    case BookSave(_, _) => BookSaveStep(w, pid, e);
    case BookHold(b, _, i, _) =>
      if i < b.period.Nights() { BookHoldStep(w, pid, e); } else { BookLastStep(w, pid, e); }
    case BookRelease(_, _, held, j) =>
      if j < held { BookReleaseStep(w, pid, e); } else { BookLastStep(w, pid, e); }
    case ConfirmStart(_) => ConfirmStartStep(w, pid, e);
    case ConfirmPay(b, i) =>
      if i < b.period.Nights() { ConfirmNightStep(w, pid, e); } else { ConfirmTurnStep(w, pid, e); }
    case ConfirmSlots(b, i) =>
      if i < b.period.Nights() { ConfirmNightStep(w, pid, e); } else { ConfirmFinishStep(w, pid, e); }
    case CancelStart(_, _, _, _) => CancelStartStep(w, pid, e);
    case CancelRelease(_, _, _, _) => CancelReleaseStep(w, pid, e);
    case EditGuests(_, _, _) => EditGuestsStep(w, pid, e);
    case _ => IdleStep(w, pid, e);
  }

  lemma FreshIdKeepsDb(w: World, id: Uuid, now: Instant)
    requires Inv(w) && id == w.db.nextUuid
    ensures var db' := w.db.(nextUuid := id + 1);
            DbOk(db') && ExpiriesOk(db', w.started[id := now])
            && (forall pid :: pid in w.procs ==> ProcOk(db', w.started[id := now], w.procs[pid]))
  {
    var db' := w.db.(nextUuid := id + 1);
    assert forall k, x :: db'.HasHold(k, x) <==> w.db.HasHold(k, x);
    forall pid | pid in w.procs ensures ProcOk(db', w.started[id := now], w.procs[pid]) {
      CalmKeepsProc(w.db, db', w.started, w.procs[pid]);
    }
  }

  /** Nothing stored or running is about an identifier that has not been handed out. */
  lemma NextIdIsUnknown(w: World)
    requires Inv(w)
    ensures w.db.nextUuid !in w.db.bookings
    ensures forall pid :: pid in w.procs && IsBook(w.procs[pid]) ==> w.procs[pid].b.id != w.db.nextUuid
  {
  }

  lemma NewBookingIsValid(b: B.Booking, capacity: int, now: Instant)
    requires b.period.Valid()
    requires B.NewBooking(b.id, b.bookerId, b.roomTypeId, b.period, b.guests, 0, capacity, now) == Ok(b)
    ensures b.Valid() && b.status == B.TemporaryHold
  {
  }

  lemma SpawnBookStep(w: World, a: Action, w': World)
    requires Inv(w) && a.SpawnBook? && Transits(w, a, w')
    ensures Inv(w')
  {
    hide DbOk, ExpiriesOk, B.Booking.Valid;
    FreshIdKeepsDb(w, w.db.nextUuid, a.now);
    NextIdIsUnknown(w);
    assert w'.procs == w.procs[a.pid := w'.procs[a.pid]];
    NewBookingIsValid(w'.procs[a.pid].b, a.capacity, a.now);
    assert ProcOk(w'.db, w'.started, w'.procs[a.pid]);
  }

  lemma ActionKeepsInv(w: World, a: Action, w': World)
    requires Inv(w) && Transits(w, a, w')
    ensures Inv(w')
  {
    match a
    case Register(k, quantity, fee) =>
      PutShrinks(w.db, k, I.Register(quantity, fee).value);
      ShrinkKeepsInv(w, w'.db, w.procs);
    case Edit(k, op) => OperatorStep(w, k, op);
    case SpawnBook(_, _, _, _, _, _, _) => SpawnBookStep(w, a, w');
    case Spawn(pid, p) =>
    case Step(pid, e) => ProcessStep(w, pid, e);
    case Stop(pid) =>
  }

  /** Every reachable state satisfies the invariant. */
  lemma {:induction false} EveryReachableStateIsOk(ws: seq<World>, actions: seq<Action>, i: nat)
    requires IsRun(ws, actions) && i < |ws|
    ensures Inv(ws[i])
  {
    if i > 0 {
      EveryReachableStateIsOk(ws, actions, i - 1);
      ActionKeepsInv(ws[i - 1], actions[i - 1], ws[i]);
    }
  }

  /**
   * However stale the listing it works from, and whatever has run since: a hold that disappears in a step of
   * CollectExpired was temporary and had expired at that process's `now`, and all other holds are the same after it.
   */
  lemma CollectTakesOnlyExpired(ws: seq<World>, actions: seq<Action>, n: nat, k: InventoryId, x: Uuid)
    requires IsRun(ws, actions) && n < |actions|
    requires actions[n].Step? && actions[n].pid in ws[n].procs && ws[n].procs[actions[n].pid].CollectLoop?
    requires ws[n].db.HasHold(k, x)
    ensures var h, now := ws[n].db.HoldOf(k, x), ws[n].procs[actions[n].pid].now;
            if ws[n + 1].db.HasHold(k, x) then ws[n + 1].db.HoldOf(k, x) == h
            else h.status == I.TemporaryHold && h.expiredAt.Some? && h.expiredAt.value < now
  {
    var db, p, e := ws[n].db, ws[n].procs[actions[n].pid], actions[n].env;
    assert Transits(ws[n], actions[n], ws[n + 1]);
    assert ws[n + 1].db == Advance(db, p, e).db;
    EveryReachableStateIsOk(ws, actions, n);
    if p.keys != [] && p.keys[0] == k {
      CollectLosesTemporary(db.inventories[k], p.now);
    }
  }

  /**
   * So within HOLD_TTL of its Book call, to the very last instant, no CollectExpired takes a hold of a booking, in
   * whatever run and however many of them are under way.
   */
  lemma LiveHoldsAreSpared(ws: seq<World>, actions: seq<Action>, n: nat, k: InventoryId, x: Uuid)
    requires IsRun(ws, actions) && n < |actions|
    requires actions[n].Step? && actions[n].pid in ws[n].procs && ws[n].procs[actions[n].pid].CollectLoop?
    requires ws[n].db.HasHold(k, x)
    requires x in ws[n].started && ws[n].procs[actions[n].pid].now <= ws[n].started[x] + HOLD_TTL
    ensures ws[n + 1].db.HasHold(k, x) && ws[n + 1].db.HoldOf(k, x) == ws[n].db.HoldOf(k, x)
  {
    EveryReachableStateIsOk(ws, actions, n);
    CollectTakesOnlyExpired(ws, actions, n, k, x);
  }

  // ---- no double booking ----

  /** The Confirmed bookings whose stay covers this night of this room type. */
  function ConfirmedOn(db: Db, k: InventoryId): set<Uuid> {
    set x | x in db.bookings && db.bookings[x].booking.status == B.Confirmed && db.bookings[x].booking.Covers(k)
  }

  /** Bookings inject into holds, holds into slots 1..quantity. */
  lemma ConfirmedFitInQuantity(db: Db, k: InventoryId)
    requires DbOk(db)
    ensures k !in db.inventories ==> ConfirmedOn(db, k) == {}
    ensures k in db.inventories ==> |ConfirmedOn(db, k)| <= |db.inventories[k].holds| <= db.inventories[k].quantity
  {
    forall x | x in ConfirmedOn(db, k) ensures db.HasHold(k, x) {
      assert db.HasStatus(x, B.Confirmed);
    }
    if k in db.inventories {
      var s := db.inventories[k];
      I.NeverOversold(s);
      SubsetSize(ConfirmedOn(db, k), s.holds.Keys);
    }
  }

  /**
   * In every reachable state of every interleaving, for every room type and night, the Confirmed bookings covering
   * that night are at most the quantity on sale, and any two of them occupy different slots.
   */
  lemma NoDoubleBooking(ws: seq<World>, actions: seq<Action>, i: nat, k: InventoryId)
    requires IsRun(ws, actions) && i < |ws|
    ensures var db := ws[i].db;
            && |ConfirmedOn(db, k)| <= (if k in db.inventories then db.inventories[k].quantity else 0)
            && (forall x, y :: x in ConfirmedOn(db, k) && y in ConfirmedOn(db, k) && x != y ==>
                  db.HasHold(k, x) && db.HasHold(k, y) && db.HoldOf(k, x).slotNo != db.HoldOf(k, y).slotNo)
  {
    var db := ws[i].db;
    EveryReachableStateIsOk(ws, actions, i);
    ConfirmedFitInQuantity(db, k);
    forall x | x in ConfirmedOn(db, k) ensures db.HasHold(k, x) {
      assert db.HasStatus(x, B.Confirmed);
    }
  }

  /**
   * A Confirmed booking has a Confirmed hold on every night of its stay and on no other inventory; and a stay shared
   * by two Confirmed bookings of a room type means different slots on the shared nights.
   */
  lemma ConfirmedMeansHeld(ws: seq<World>, actions: seq<Action>, i: nat, x: Uuid)
    requires IsRun(ws, actions) && i < |ws| && ws[i].db.HasStatus(x, B.Confirmed)
    ensures var db := ws[i].db;
            forall k :: db.HasHold(k, x) <==> db.bookings[x].booking.Covers(k)
    ensures var db := ws[i].db;
            forall k :: db.HasHold(k, x) ==> db.HoldOf(k, x).status == I.Confirmed && db.HoldOf(k, x).expiredAt == None
  {
    EveryReachableStateIsOk(ws, actions, i);
  }

  /**
   * Two bookings of one room type that hold every night of their stays, in whatever status, overlap if and only if on
   * some common night they hold different slots; and a common night with the same slot does not exist.
   */
  lemma OverlappingStaysAreApart(ws: seq<World>, actions: seq<Action>, i: nat, x: Uuid, y: Uuid)
    requires IsRun(ws, actions) && i < |ws| && x != y
    requires ws[i].db.HoldsEveryNight(x) && ws[i].db.HoldsEveryNight(y)
    requires ws[i].db.bookings[x].booking.roomTypeId == ws[i].db.bookings[y].booking.roomTypeId
    ensures var db := ws[i].db;
            db.bookings[x].booking.period.Overlaps(db.bookings[y].booking.period) <==>
            exists k :: db.HasHold(k, x) && db.HasHold(k, y) && db.HoldOf(k, x).slotNo != db.HoldOf(k, y).slotNo
    ensures var db := ws[i].db;
            forall k :: db.HasHold(k, x) && db.HasHold(k, y) ==> db.HoldOf(k, x).slotNo != db.HoldOf(k, y).slotNo
  {
    var db := ws[i].db;
    EveryReachableStateIsOk(ws, actions, i);
    SlotsDiffer(db, x, y);
    var b, c := db.bookings[x].booking, db.bookings[y].booking;
    OverlapMeansSharedNight(b.period, c.period);
    forall d | b.period.Contains(d) && c.period.Contains(d)
      ensures db.HasHold(InventoryId(b.roomTypeId, d), x) && db.HasHold(InventoryId(b.roomTypeId, d), y)
    {
      assert b.Covers(InventoryId(b.roomTypeId, d)) && c.Covers(InventoryId(b.roomTypeId, d));
    }
  }

  lemma SlotsDiffer(db: Db, x: Uuid, y: Uuid)
    requires InventoriesOk(db) && x != y
    ensures forall k :: db.HasHold(k, x) && db.HasHold(k, y) ==> db.HoldOf(k, x).slotNo != db.HoldOf(k, y).slotNo
  {
  }

  /** The coupling of hold and booking states, in every reachable state. */
  lemma HoldsFollowTheirBooking(ws: seq<World>, actions: seq<Action>, i: nat, k: InventoryId, x: Uuid)
    requires IsRun(ws, actions) && i < |ws| && ws[i].db.HasHold(k, x)
    ensures var db := ws[i].db; var h := db.HoldOf(k, x);
            && x in db.bookings && db.bookings[x].booking.Covers(k)
            && (h.expiredAt == None <==> h.status != I.TemporaryHold)
            && (h.status != I.TemporaryHold ==> db.bookings[x].booking.status != B.TemporaryHold)
            && (db.bookings[x].booking.status == B.Confirmed ==> h.status == I.Confirmed)
  {
    EveryReachableStateIsOk(ws, actions, i);
  }

  /**
   * While a Confirm runs, its position says which prefix of the nights has been moved on, except for nights that a
   * concurrent Cancel has released.
   */
  lemma ConfirmPositionIsExact(ws: seq<World>, actions: seq<Action>, n: nat, pid: nat, j: int)
    requires IsRun(ws, actions) && n < |ws| && pid in ws[n].procs && IsPass(ws[n].procs[pid])
    requires 0 <= j < ws[n].procs[pid].b.period.Nights()
    ensures var db, p := ws[n].db, ws[n].procs[pid]; var x := p.b.id; var k := p.b.Night(j);
            && x in db.bookings && db.bookings[x].booking.SamePlan(p.b)
            && db.bookings[x].booking.status in {B.ProcessingPayment, B.Cancelled}
            && (db.HasHold(k, x) ==>
                  db.HoldOf(k, x).status ==
                      (if p.ConfirmPay? then (if j < p.i then I.ProcessingPayment else I.TemporaryHold)
                                             else (if j < p.i then I.Confirmed else I.ProcessingPayment)))
            && (!db.HasHold(k, x) && (p.ConfirmSlots? || j < p.i) ==> db.bookings[x].booking.status == B.Cancelled)
  {
    EveryReachableStateIsOk(ws, actions, n);
    var p := ws[n].procs[pid];
    assert ProcOk(ws[n].db, ws[n].started, p);
    assert p.b.Covers(p.b.Night(j));
  }

  // ---- after a cancellation ----

  /** A stored booking keeps its room and dates for ever, its status only moves forward, and Cancelled is final. */
  ghost predicate MovesForward(db: Db, db': Db, x: Uuid) {
    x in db.bookings ==>
      && x in db'.bookings && db'.bookings[x].booking.SamePlan(db.bookings[x].booking)
      && B.Rank(db.bookings[x].booking.status) <= B.Rank(db'.bookings[x].booking.status)
      && (db.HasStatus(x, B.Cancelled) ==>
            db'.bookings[x] == db.bookings[x] && forall k :: db'.HasHold(k, x) ==> db.HasHold(k, x))
  }

  lemma MovesForwardTwice(a: Db, b: Db, c: Db, x: Uuid)
    requires MovesForward(a, b, x) && MovesForward(b, c, x)
    ensures MovesForward(a, c, x)
  {
  }

  /** One call of an inventory transaction creates a hold only for the booking of a Hold call. */
  lemma CallCreatesNoOtherHold(db: Db, k: InventoryId, op: I.Op, o: Outcome)
    ensures var db' := Call(db, k, op, o).0;
            db'.bookings == db.bookings
            && forall k', x :: db'.HasHold(k', x) && (!op.HoldOp? || x != op.bookingId) ==> db.HasHold(k', x)
  {
  }

  lemma RowUpdateMovesForward(db: Db, id: Uuid, call: B.Call, x: Uuid)
    requires BookingsOk(db) && UpdateBooking(db, id, call).Ok?
    ensures MovesForward(db, UpdateBooking(db, id, call).value, x)
  {
    B.OneCall(db.bookings[id].booking, call);
    assert UpdateBooking(db, id, call).value.bookings[id].booking == B.After(db.bookings[id].booking, call);
  }

  lemma CallMovesForward(db: Db, k: InventoryId, op: I.Op, o: Outcome, next: Uuid, x: Uuid)
    requires op.HoldOp? ==> !db.HasStatus(op.bookingId, B.Cancelled)
    ensures MovesForward(db, Call(db, k, op, o).0, x) && MovesForward(db, Call(db, k, op, o).0.(nextUuid := next), x)
  {
    CallCreatesNoOtherHold(db, k, op, o);
    hide Call;
    var db' := Call(db, k, op, o).0;
    assert forall k' :: db'.(nextUuid := next).HasHold(k', x) ==> db'.HasHold(k', x);
  }

  lemma SaveMovesForward(db: Db, b: B.Booking, at: Instant, x: Uuid)
    requires b.id in db.bookings ==>
               db.bookings[b.id].booking.SamePlan(b) && db.HasStatus(b.id, B.TemporaryHold)
    ensures MovesForward(db, SaveBooking(db, b, at), x)
  {
    assert forall k :: SaveBooking(db, b, at).HasHold(k, x) ==> db.HasHold(k, x);
  }

  lemma UpdateMovesForward(db: Db, id: Uuid, call: B.Call, x: Uuid)
    requires BookingsOk(db)
    ensures MovesForward(db, db, x)
    ensures UpdateBooking(db, id, call).Ok? ==> MovesForward(db, UpdateBooking(db, id, call).value, x)
  {
    if UpdateBooking(db, id, call).Ok? {
      RowUpdateMovesForward(db, id, call, x);
    }
  }

  /** No process but a Book can move a booking back. */
  lemma OthersMoveForward(db: Db, p: Proc, e: Env, x: Uuid)
    requires BookingsOk(db) && !IsBook(p)
    ensures MovesForward(db, Advance(db, p, e).db, x)
  {
    hide BookingsOk, Call, UpdateBooking, MovesForward, B.Booking.Valid;
    UpdateMovesForward(db, 0, B.ConfirmCall, x);
    match p
    case ConfirmStart(id) => UpdateMovesForward(db, id, B.StartPaymentCall, x);
    case ConfirmPay(b, i) => CallMovesForward(db, b.Night(i), I.StartPaymentOp(b.id), e.outcome, 0, x);
    case ConfirmSlots(b, i) =>
      CallMovesForward(db, b.Night(i), I.ConfirmOp(b.id), e.outcome, 0, x);
      UpdateMovesForward(db, b.id, B.ConfirmCall, x);
    case CancelStart(id, reason, now, _) => UpdateMovesForward(db, id, B.CancelCall(reason, now), x);
    case CancelRelease(b, i, _, _) => CallMovesForward(db, b.Night(i), I.ReleaseOp(b.id), e.outcome, 0, x);
    case EditGuests(id, guests, capacity) => UpdateMovesForward(db, id, B.ChangeGuestsCall(guests, capacity), x);
    case CollectLoop(keys, now) =>
      if keys != [] { CallMovesForward(db, keys[0], I.CollectOp(now), e.outcome, 0, x); }
    case _ =>
  }

  lemma StepMovesForward(w: World, pid: nat, e: Env, x: Uuid)
    requires Inv(w) && MayStep(w, pid, e)
    ensures MovesForward(w.db, Advance(w.db, w.procs[pid], e).db, x)
  {
    var db, p := w.db, w.procs[pid];
    assert ProcOk(db, w.started, p) && BookingsOk(db);
    hide Inv, BookingsOk, Call, SaveBooking, MovesForward, B.Booking.Valid;
    match p
    case BookSave(b, _) =>
      SaveMovesForward(db, b, e.at, x);
      NothingMovesBack(db, x);
    case BookHold(b, now, i, total) =>
      CallMovesForward(db, b.Night(i), HoldNight(b, now, db.nextUuid), e.outcome, db.nextUuid + 1, x);
      SaveMovesForward(db, b.(totalFee := total), e.at, x);
      NothingMovesBack(db, x);
    case BookRelease(b, now, _, j) =>
      CallMovesForward(db, b.Night(j), I.ReleaseOp(b.id), e.outcome, 0, x);
      SaveMovesForward(db, B.Cancel(b, B.Expired, now), e.at, x);
      NothingMovesBack(db, x);
    case _ => OthersMoveForward(db, p, e, x);
  }

  lemma NothingMovesBack(db: Db, x: Uuid)
    ensures MovesForward(db, db, x)
  {
  }

  lemma ActionMovesForward(w: World, a: Action, w': World, x: Uuid)
    requires Inv(w) && Transits(w, a, w')
    ensures MovesForward(w.db, w'.db, x)
  {
    match a
    case Step(pid, e) => StepMovesForward(w, pid, e, x);
    case Edit(k, op) => CallCreatesNoOtherHold(w.db, k, op, Commit);
    case _ =>
  }

  lemma RunMovesForward(ws: seq<World>, actions: seq<Action>, j: nat, x: Uuid)
    requires IsRun(ws, actions) && j + 1 < |ws|
    ensures MovesForward(ws[j].db, ws[j + 1].db, x)
  {
    EveryReachableStateIsOk(ws, actions, j);
    ActionMovesForward(ws[j], actions[j], ws[j + 1], x);
  }

  lemma {:induction false} ChainMovesForward(ws: seq<World>, i: nat, j: nat, x: Uuid)
    requires i <= j < |ws|
    requires forall n :: 0 <= n < |ws| - 1 ==> MovesForward(ws[n].db, ws[n + 1].db, x)
    ensures MovesForward(ws[i].db, ws[j].db, x)
    decreases j - i
  {
    if i < j {
      ChainMovesForward(ws, i, j - 1, x);
      MovesForwardTwice(ws[i].db, ws[j - 1].db, ws[j].db, x);
    }
  }

  /**
   * Over any stretch of any run: room and dates are frozen, the status never goes back, and once a booking is
   * Cancelled its row (fee included) never changes again and no later step ever creates a hold for it.
   */
  lemma CancelledIsFinal(ws: seq<World>, actions: seq<Action>, i: nat, j: nat, x: Uuid)
    requires IsRun(ws, actions) && i <= j < |ws|
    ensures MovesForward(ws[i].db, ws[j].db, x)
  {
    forall n | 0 <= n < |ws| - 1 ensures MovesForward(ws[n].db, ws[n + 1].db, x) {
      RunMovesForward(ws, actions, n, x);
    }
    ChainMovesForward(ws, i, j, x);
  }
}
