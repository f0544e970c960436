/**
 * Runs that show the limits: what callers can do when they do not wait for Book to return, and what a stale listing can
 * do although they wait. One room type, one night, one slot.
 */
module Counterexamples {
  import opened Common
  import opened StayPeriods
  import opened Transactions
  import opened Saga
  import opened SagaInvariant
  import opened SagaSafety
  import opened SagaRuns
  import opened Outcomes
  import opened Bookings
  import opened Scenarios
  import opened SagaLimits
  import I = InventorySpec
  import B = BookingSpec

  const NIGHT := InventoryId(0, 0)
  const FEE := 100

  function OneNight(id: Uuid): B.Booking {
    B.Booking(id, 0, 0, [B.Guest(0, B.Name("A", "B"))], 0, StayPeriod(0, 1), B.TemporaryHold, 0)
  }

  /** One slot is on sale on that night for this fee, and the bookings in s hold it. */
  ghost predicate OnlyNight(db: Db, s: set<Uuid>) {
    && db.inventories.Keys == {NIGHT} && db.inventories[NIGHT].quantity == 1 && !db.inventories[NIGHT].isClosed
    && db.inventories[NIGHT].holds.Keys == s && db.inventories[NIGHT].fee == FEE
  }

  lemma NightsOfTheStay(id: Uuid)
    ensures var b := OneNight(id);
            b.Valid() && b.period.Nights() == 1 && b.Night(0) == NIGHT && (forall k :: b.Covers(k) <==> k == NIGHT)
  {
  }

  lemma OneNightIsAccepted(id: Uuid)
    ensures var b := OneNight(id); B.NewBooking(id, 0, 0, StayPeriod(0, 1), b.guests, 0, 1, 0) == Ok(b)
  {
  }

  // ---- Book, up to its last step ----

  lemma Opened() returns (w: World)
    ensures Reached(w) && w.procs == map[0 := BookSave(OneNight(0), 0)] && w.started == map[0 := 0]
    ensures OnlyNight(w.db, {}) && w.db.bookings == map[] && w.db.nextUuid == 1 && InventoriesOk(w.db)
  {
    var w0 := World(Db(map[], map[], 0), map[], map[]);
    EmptyIsReached();
    var s := I.InventoryState(map[], FEE, 1, false);
    var w1 := w0.(db := Db(map[NIGHT := s], map[], 0));
    assert w1.db.inventories == w0.db.inventories[NIGHT := s];
    ReachedNext(w0, Register(NIGHT, 1, FEE), w1);
    w := World(w1.db.(nextUuid := 1), map[0 := BookSave(OneNight(0), 0)], map[0 := 0]);
    OneNightIsAccepted(0);
    assert w.procs == w1.procs[0 := BookSave(OneNight(0), 0)] && w.started == w1.started[0 := 0];
    ReachedNext(w1, SpawnBook(0, 0, 0, StayPeriod(0, 1), OneNight(0).guests, 1, 0), w);
  }

  /** Book takes the free slot, and waits before its last step. */
  lemma Holds(db: Db, x: Uuid) returns (d: Db, total: int, es: seq<Env>)
    requires InventoriesOk(db) && OnlyNight(db, {}) && x !in db.bookings && x < db.nextUuid
    ensures Execute(db, BookSave(OneNight(x), 0), es) == Next(d, BookHold(OneNight(x), 0, 1, total)) && total >= 0
    ensures OnlyNight(d, {x}) && d.HoldOf(NIGHT, x).status == I.TemporaryHold
    ensures d.bookings == db.bookings[x := BookingRow(OneNight(x), 0)] && d.nextUuid > db.nextUuid
  {
    var b := OneNight(x);
    NightsOfTheStay(x);
    var start := SaveBooking(db, b, 0);
    assert forall k :: !db.HasHold(k, x);
    assert AllBookable(db, b, {});
    es := BookReachesItsEnd(db, b, 0, 0);
    d, total := Holding(start, b, 0, 1), FeeSum(db, b, 1);
    FeesAddUp(db, b, 1);
    SlotTaken(db, start, x);
  }

  lemma SlotTaken(db: Db, start: Db, x: Uuid)
    requires InventoriesOk(start) && OnlyNight(start, {})
    ensures var d := Holding(start, OneNight(x), 0, 1);
            OnlyNight(d, {x}) && d.HoldOf(NIGHT, x).status == I.TemporaryHold
  {
    var b := OneNight(x);
    NightsOfTheStay(x);
    assert b.Night(0) in FirstNights(b, 1);
    TakenMeaning(start, b, 0, FirstNights(b, 1), NIGHT);
    var holds := Taken(start, b, 0, FirstNights(b, 1))[NIGHT].holds;
    assert holds.Keys == (holds - {x}).Keys + {x};
  }

  lemma BookAtItsEnd() returns (w: World, total: int)
    ensures Reached(w) && w.procs == map[0 := BookHold(OneNight(0), 0, 1, total)] && w.started == map[0 := 0] &&
            total >= 0
    ensures OnlyNight(w.db, {0}) && w.db.HoldOf(NIGHT, 0).status == I.TemporaryHold
    ensures w.db.bookings == map[0 := BookingRow(OneNight(0), 0)] && w.db.nextUuid > 0
  {
    hide Reached, OnlyNight, Execute, ListingsOk;
    var w0 := Opened();
    var d, es;
    d, total, es := Holds(w0.db, 0);
    FirstListingSuffices(w0.db, w0.procs[0], es);
    GoesOn(w0, 0, es);
    w := Later(w0, 0, es);
    assert w.procs == map[0 := BookHold(OneNight(0), 0, 1, total)];
  }

  lemma HeldIsPayable(db: Db, x: Uuid, fee: nat, at: Instant)
    requires OnlyNight(db, {x}) && db.HoldOf(NIGHT, x).status == I.TemporaryHold
    requires x in db.bookings && db.bookings[x] == BookingRow(OneNight(x).(totalFee := fee), at)
    ensures Payable(db, x)
  {
    NightsOfTheStay(x);
  }

  /** What is left after Confirm has moved the one hold, up to its last step or beyond it. */
  lemma PaidNight(db: Db, x: Uuid, status: B.Status)
    requires OnlyNight(db, {x}) && x in db.bookings
    ensures var d := Paid(db, x, status);
            && OnlyNight(d, {x}) && d.HasStatus(x, status) && d.nextUuid == db.nextUuid
            && (forall y :: y != x ==>
                 (y in d.bookings <==> y in db.bookings) && (y in db.bookings ==> d.bookings[y] == db.bookings[y]))
            && (db.bookings[x].booking.id == x && db.bookings[x].booking.Covers(NIGHT) &&
                 NIGHT.date < db.bookings[x].booking.period.checkout ==>
                  d.HoldOf(NIGHT, x).status == I.Confirmed)
  {
  }

  // ---- a stale listing, with callers that wait ----

  /**
   * A run within the assumption about callers in which ExpireStale cancels a Confirmed booking: it lists the booking
   * while that is temporary and old, Confirm then runs in full, and ExpireStale goes on.
   */
  lemma ExpireStaleCancelsAPaidBooking() returns (w: World, now: Instant)
    ensures Reached(w) && w.db.HasStatus(0, B.Confirmed) && 1 in w.procs &&
            w.procs[1] == CancelStart(0, B.Expired, now, [])
    ensures MayStep(w, 1, RowEnds(Commit)) && Stepped(w, 1, RowEnds(Commit)).db.HasStatus(0, B.Cancelled)
  {
    hide Reached, Execute, ListingsOk, Moved, Payable;
    now := HOLD_TTL + 1;
    var w0, total := ListedWhileTemporary(now);
    HeldIsPayable(w0.db, 0, total, 0);
    var es := ConfirmRuns(w0.db, 0);
    RunsUndisturbed(w0, 2, ConfirmStart(0), es);
    w := w0.(db := Paid(w0.db, 0, B.Confirmed), procs := w0.procs[2 := Finished]);
    PaidNight(w0.db, 0, B.Confirmed);
  }

  /** Book returns, and ExpireStale lists the booking it left. */
  lemma ListedWhileTemporary(now: Instant) returns (w: World, total: nat)
    requires now == HOLD_TTL + 1
    ensures Reached(w) && w.procs == map[0 := Finished, 1 := CancelStart(0, B.Expired, now, [])]
    ensures OnlyNight(w.db, {0}) && w.db.HoldOf(NIGHT, 0).status == I.TemporaryHold
    ensures w.db.bookings == map[0 := BookingRow(OneNight(0).(totalFee := total), 0)]
  {
    hide Reached, Execute, ListingsOk, Moved;
    var w0, sum := BookAtItsEnd();
    total := sum;
    var done := SaveBooking(w0.db, OneNight(0).(totalFee := total), 0);
    var w1 := World(done, map[0 := Finished], w0.started);
    BookFinishes(w0.db, 0, total);
    assert w1 == Stepped(w0, 0, RowEnds(Commit)) by { assert w0.procs[0 := Finished] == map[0 := Finished]; }
    ReachedNext(w0, Step(0, RowEnds(Commit)), w1);
    var w2 := w1.(procs := w1.procs[1 := ExpireList(now)]);
    Spawns(w1, 1, ExpireList(now));
    var listing := Env(Commit, 0, [0], []);
    ListsTheOne(done, total);
    w := w1.(procs := w1.procs[1 := CancelStart(0, B.Expired, now, [])]);
    assert w == Stepped(w2, 1, listing) by {
      assert [0][1..] == [];
      assert w2.procs[1 := CancelStart(0, B.Expired, now, [])] == w.procs;
    }
    ReachedNext(w2, Step(1, listing), w);
  }

  lemma BookFinishes(db: Db, x: Uuid, total: nat)
    requires OnlyNight(db, {x}) && x in db.bookings && db.bookings[x].booking.SamePlan(OneNight(x)) &&
             db.HasHold(NIGHT, x)
    ensures var n := Advance(db, BookHold(OneNight(x), 0, 1, total), RowEnds(Commit));
            && n == Next(SaveBooking(db, OneNight(x).(totalFee := total), 0), Finished)
            && OnlyNight(n.db, {x}) && n.db.HoldOf(NIGHT, x) == db.HoldOf(NIGHT, x) && n.db.nextUuid == db.nextUuid
            && n.db.bookings == db.bookings[x := BookingRow(OneNight(x).(totalFee := total), db.bookings[x].createdAt)]
  {
  }

  lemma ListsTheOne(db: Db, total: int)
    requires db.bookings == map[0 := BookingRow(OneNight(0).(totalFee := total), 0)]
    ensures IsStaleListing(db, 1, [0])
  {
  }

  // ---- callers that do not wait ----

  /**
   * Confirm runs up to its last step, Cancel in full, Book writes its booking back, a second Confirm starts, and the
   * first one ends: the booking is Confirmed and holds nothing.
   */
  lemma ConfirmedWithoutAHold() returns (w: World)
    ensures FreelyReached(w) && w.db.HasStatus(0, B.Confirmed) && OnlyNight(w.db, {})
    ensures w.procs.Keys == {0, 1, 2, 3} && w.db.bookings.Keys == {0} && w.db.nextUuid > 0
    ensures w.db.bookings[0].booking.SamePlan(OneNight(0))
  {
    hide FreelyReached, Reached, Execute, OnlyNight, Payable, Moved, Cancelling, Inv;
    var w0, total := BookAtItsEnd();
    ReachedIsFreelyReached(w0);
    ReachedStateIsOk(w0);
    var w1 := FirstConfirm(w0, total);
    var w2 := ThenCancel(w1, total);
    w := BookWritesBack(w2, total);
  }

  function Processing(): B.Booking {
    OneNight(0).(status := B.ProcessingPayment)
  }

  lemma FirstConfirm(w: World, total: int) returns (w': World)
    requires FreelyReached(w) && Inv(w) && w.procs == map[0 := BookHold(OneNight(0), 0, 1, total)]
    requires OnlyNight(w.db, {0}) && w.db.HoldOf(NIGHT, 0).status == I.TemporaryHold
    requires w.db.bookings == map[0 := BookingRow(OneNight(0), 0)]
    ensures FreelyReached(w') && w'.procs == w.procs[1 := ConfirmSlots(Processing(), 1)]
    ensures DbOk(w'.db) && OnlyNight(w'.db, {0}) && w'.db.bookings.Keys == {0}
    ensures w'.db.bookings[0].booking.SamePlan(OneNight(0)) && w'.db.nextUuid == w.db.nextUuid
  {
    hide FreelyReached, Execute, Moved, Inv, DbOk;
    HeldIsPayable(w.db, 0, 0, 0);
    var es := ConfirmReachesItsEnd(w.db, 0);
    RunsFreely(w, 1, ConfirmStart(0), es);
    StoppedWorldIsQuiet(w);
    StaysQuiet(w.db, ConfirmStart(0), es, w.started);
    var n := Execute(w.db, ConfirmStart(0), es);
    QuietFacts(n.db, w.started);
    PaidNight(w.db, 0, B.ProcessingPayment);
    w' := w.(db := n.db, procs := w.procs[1 := n.proc]);
  }

  lemma ThenCancel(w: World, total: int) returns (w': World)
    requires FreelyReached(w) &&
             w.procs == map[0 := BookHold(OneNight(0), 0, 1, total), 1 := ConfirmSlots(Processing(), 1)]
    requires DbOk(w.db) && OnlyNight(w.db, {0}) && w.db.bookings.Keys == {0} &&
             w.db.bookings[0].booking.SamePlan(OneNight(0))
    ensures FreelyReached(w') && w'.procs == w.procs[2 := Finished]
    ensures OnlyNight(w'.db, {}) && w'.db.bookings.Keys == {0} && w'.db.bookings[0].booking.SamePlan(OneNight(0))
    ensures w'.db.nextUuid == w.db.nextUuid
  {
    hide FreelyReached, Execute, DbOk;
    var es := CancelRuns(w.db, 0, B.ByGuest, 0, []);
    RunsFreely(w, 2, CancelStart(0, B.ByGuest, 0, []), es);
    var d := Cancelling(w.db, {0}, B.ByGuest, 0);
    assert d.inventories[NIGHT].holds.Keys == w.db.inventories[NIGHT].holds.Keys - {0};
    w' := w.(db := d, procs := w.procs[2 := Finished]);
  }

  lemma BookWritesBack(w: World, total: nat) returns (w': World)
    requires FreelyReached(w)
    requires w.procs == map[0 := BookHold(OneNight(0), 0, 1, total), 1 := ConfirmSlots(Processing(), 1), 2 := Finished]
    requires OnlyNight(w.db, {}) && w.db.bookings.Keys == {0} && w.db.bookings[0].booking.SamePlan(OneNight(0))
    ensures FreelyReached(w') && w'.db.HasStatus(0, B.Confirmed) && OnlyNight(w'.db, {})
    ensures w'.procs.Keys == {0, 1, 2, 3} && w'.db.bookings.Keys == {0} && w'.db.nextUuid == w.db.nextUuid
    ensures w'.db.bookings[0].booking.SamePlan(OneNight(0))
  {
    hide FreelyReached, Bare, Advance, TransitsFreely;
    var commit := RowEnds(Commit);
    IsBare(w.db);
    BareSteps(w.db, w.db.bookings[0].booking.status, total);
    var w1 := Stepped(w, 0, commit);
    StepsFreely(w, 0, commit);
    BareSteps(w1.db, B.TemporaryHold, total);
    var w2 := w1.(procs := w1.procs[3 := ConfirmStart(0)]);
    SpawnFreely(w1, 3, ConfirmStart(0));
    var w3 := Stepped(w2, 3, commit);
    StepsFreely(w2, 3, commit);
    BareSteps(w3.db, B.ProcessingPayment, total);
    w' := Stepped(w3, 1, commit);
    StepsFreely(w3, 1, commit);
    WasBare(w'.db, B.Confirmed);
  }

  /** The one booking there is holds nothing. */
  ghost predicate Bare(db: Db, status: B.Status) {
    && OnlyNight(db, {}) && db.bookings.Keys == {0}
    && db.HasStatus(0, status) && db.bookings[0].booking.SamePlan(OneNight(0))
  }

  lemma IsBare(db: Db)
    requires OnlyNight(db, {}) && db.bookings.Keys == {0} && db.bookings[0].booking.SamePlan(OneNight(0))
    ensures Bare(db, db.bookings[0].booking.status)
  {
  }

  lemma WasBare(db: Db, status: B.Status)
    requires Bare(db, status)
    ensures OnlyNight(db, {}) && db.bookings.Keys == {0} && db.HasStatus(0, status)
    ensures db.bookings[0].booking.SamePlan(OneNight(0))
  {
  }

  /** Book's last save, the start of a Confirm, and the end of one, on such a database. */
  lemma BareSteps(db: Db, status: B.Status, total: nat)
    requires Bare(db, status)
    ensures var n := Advance(db, BookHold(OneNight(0), 0, 1, total), RowEnds(Commit));
            Bare(n.db, B.TemporaryHold) && n.db.nextUuid == db.nextUuid && n.proc == Finished
    ensures var n := Advance(db, ConfirmStart(0), RowEnds(Commit));
            status == B.TemporaryHold ==> Bare(n.db, B.ProcessingPayment) && n.db.nextUuid == db.nextUuid
    ensures var n := Advance(db, ConfirmSlots(Processing(), 1), RowEnds(Commit));
            status == B.ProcessingPayment ==> Bare(n.db, B.Confirmed) && n.db.nextUuid == db.nextUuid
  {
  }

  lemma FreeInventoriesOk(w: World)
    requires FreelyReached(w)
    ensures InventoriesOk(w.db)
  {
    hide TransitsFreely, InventoriesOk;
    var ws: seq<World>, actions: seq<Action> :| IsFreeRun(ws, actions) && ws[|actions|] == w;
    NeverOversoldWhoeverCalls(ws, actions, |actions|, NIGHT);
  }

  lemma SecondBook(w: World) returns (w': World, x: Uuid, total: nat)
    requires FreelyReached(w) && OnlyNight(w.db, {}) && w.procs.Keys == {0, 1, 2, 3}
    requires w.db.bookings.Keys == {0} && w.db.nextUuid > 0
    ensures FreelyReached(w') && w'.procs.Keys == {0, 1, 2, 3, 4} && x != 0
    ensures OnlyNight(w'.db, {x}) && w'.db.HoldOf(NIGHT, x).status == I.TemporaryHold
    ensures w'.db.bookings == w.db.bookings[x := BookingRow(OneNight(x).(totalFee := total), 0)]
  {
    hide FreelyReached, Execute, InventoriesOk, ListingsOk;
    x := w.db.nextUuid;
    var b := OneNight(x);
    var w1 := World(w.db.(nextUuid := x + 1), w.procs[4 := BookSave(b, 0)], w.started[x := 0]);
    OneNightIsAccepted(x);
    FreelyReachedNext(w, SpawnBook(4, 0, 0, StayPeriod(0, 1), b.guests, 1, 0), w1);
    FreeInventoriesOk(w1);
    var d, total', es := Holds(w1.db, x);
    total := total';
    FirstListingSuffices(w1.db, w1.procs[4], es);
    GoesOnFreely(w1, 4, es);
    var w2 := Later(w1, 4, es);
    BookFinishes(d, x, total);
    w' := Stepped(w2, 4, RowEnds(Commit));
    StepsFreely(w2, 4, RowEnds(Commit));
  }

  /** And then the night is sold again: two Confirmed bookings on a night with one slot. */
  lemma DoubleBookingWhenCallersDoNotWait() returns (w: World)
    ensures FreelyReached(w) && |ConfirmedOn(w.db, NIGHT)| == 2
    ensures NIGHT in w.db.inventories && w.db.inventories[NIGHT].quantity == 1
  {
    hide FreelyReached, Execute, Payable, Moved;
    var w0 := ConfirmedWithoutAHold();
    var x, total;
    w0, x, total := SecondBook(w0);
    HeldIsPayable(w0.db, x, total, 0);
    var es := ConfirmRuns(w0.db, x);
    RunsFreely(w0, 5, ConfirmStart(x), es);
    w := w0.(db := Paid(w0.db, x, B.Confirmed), procs := w0.procs[5 := Finished]);
    PaidNight(w0.db, x, B.Confirmed);
    TwoOnTheNight(w.db, x);
  }

  lemma TwoOnTheNight(db: Db, x: Uuid)
    requires x != 0 && db.bookings.Keys == {0, x} && db.HasStatus(0, B.Confirmed) && db.HasStatus(x, B.Confirmed)
    requires db.bookings[0].booking.Covers(NIGHT) && db.bookings[x].booking.Covers(NIGHT)
    ensures |ConfirmedOn(db, NIGHT)| == 2
  {
    assert ConfirmedOn(db, NIGHT) == {0, x};
  }

  /**
   * Book's only Hold is committed unseen, so it goes into compensation with nothing to give back; Confirm then runs in
   * full, and compensation's last save cancels the Confirmed booking and leaves its Confirmed hold behind.
   */
  lemma CompensationStrandsAConfirmedBooking() returns (w: World)
    ensures FreelyReached(w) && Stranded(w.db, 0) && w.db.HasHold(NIGHT, 0) &&
            w.db.HoldOf(NIGHT, 0).status == I.Confirmed
  {
    hide FreelyReached, Reached, Execute, Payable, Moved;
    var w0 := HeldUnseen();
    HeldIsPayable(w0.db, 0, 0, 0);
    var es := ConfirmRuns(w0.db, 0);
    RunsFreely(w0, 1, ConfirmStart(0), es);
    var w1 := w0.(db := Paid(w0.db, 0, B.Confirmed), procs := w0.procs[1 := Finished]);
    PaidNight(w0.db, 0, B.Confirmed);
    NightsOfTheStay(0);
    w := Stepped(w1, 0, RowEnds(Commit));
    StepsFreely(w1, 0, RowEnds(Commit));
    CompensationOverwritesToo(w1.db, OneNight(0), 0, 0, RowEnds(Commit));
    assert w1.db.HasHold(NIGHT, 0) && w1.db.HoldOf(NIGHT, 0).status == I.Confirmed;
  }

  lemma HeldUnseen() returns (w: World)
    ensures FreelyReached(w) && w.procs == map[0 := BookRelease(OneNight(0), 0, 0, 0)]
    ensures OnlyNight(w.db, {0}) && w.db.HoldOf(NIGHT, 0).status == I.TemporaryHold
    ensures w.db.bookings == map[0 := BookingRow(OneNight(0), 0)]
  {
    hide FreelyReached, Reached;
    var w0 := Opened();
    ReachedIsFreelyReached(w0);
    var b := OneNight(0);
    NightsOfTheStay(0);
    var start := SaveBooking(w0.db, b, 0);
    var w1 := w0.(db := start, procs := map[0 := BookHold(b, 0, 0, 0)]);
    assert w1 == Stepped(w0, 0, RowEnds(Commit)) by { assert w0.procs[0 := BookHold(b, 0, 0, 0)] == w1.procs; }
    StepsFreely(w0, 0, RowEnds(Commit));
    HoldsUnseen(start);
    SlotTaken(w0.db, start, 0);
    w := w0.(db := Holding(start, b, 0, 1), procs := map[0 := BookRelease(b, 0, 0, 0)]);
    assert w == Stepped(w1, 0, RowEnds(CommitUnseen)) by {
      hide Advance, Holding;
      assert w1.procs[0 := BookRelease(b, 0, 0, 0)] == w.procs;
    }
    StepsFreely(w1, 0, RowEnds(CommitUnseen));
  }

  lemma HoldsUnseen(db: Db)
    requires InventoriesOk(db) && OnlyNight(db, {})
    ensures Advance(db, BookHold(OneNight(0), 0, 0, 0), RowEnds(CommitUnseen)) ==
            Next(Holding(db, OneNight(0), 0, 1), BookRelease(OneNight(0), 0, 0, 0))
  {
    var b := OneNight(0);
    NightsOfTheStay(0);
    assert forall k :: !db.HasHold(k, 0);
    assert Bookable(db, b.Night(0), {});
    HoldingBegins(db, b, 0);
    hide Mutate, Taken, FirstNights, Bookable, InventoriesOk;
    HoldNext(db, b, 0, 0);
  }

  // ---- what waiting does not prevent ----

  /** ChangeGuests need not wait for Book, and then its guests are lost: Book's last save restores the first ones. */
  lemma GuestsChangedInsideBookAreLost(guests: seq<B.Guest>, capacity: int) returns (changed: World, w: World)
    requires 1 <= |guests| <= capacity
    ensures Reached(changed) && 0 in changed.db.bookings && changed.db.bookings[0].booking.guests == guests
    ensures Reached(w) && 0 in changed.procs && w == Stepped(changed, 0, RowEnds(Commit))
    ensures 0 in w.db.bookings && w.db.bookings[0].booking.guests == OneNight(0).guests
  {
    hide Reached;
    var w0, total := BookAtItsEnd();
    var w1 := w0.(procs := w0.procs[1 := EditGuests(0, guests, capacity)]);
    Spawns(w0, 1, EditGuests(0, guests, capacity));
    changed := Stepped(w1, 1, RowEnds(Commit));
    ReachedNext(w1, Step(1, RowEnds(Commit)), changed);
    w := Stepped(changed, 0, RowEnds(Commit));
    ReachedNext(changed, Step(0, RowEnds(Commit)), w);
  }

  /**
   * Book's last save is rolled back, so the booking stays TemporaryHold without a total, with its holds; Book returns
   * an error, and a Confirm that has waited for it runs in full: a Confirmed booking for which nothing is charged.
   */
  lemma ConfirmedForNothing() returns (w: World)
    ensures Reached(w) && w.db.HasStatus(0, B.Confirmed) && w.db.bookings[0].booking.totalFee == 0
    ensures OnlyNight(w.db, {0}) && w.db.HoldOf(NIGHT, 0).status == I.Confirmed && FEE > 0
  {
    hide Reached, Execute, ListingsOk, Moved, Payable, NobodyWaits;
    var w0, total := BookAtItsEnd();
    var w1 := w0.(procs := map[0 := Finished]);
    assert w1 == Stepped(w0, 0, RowEnds(Abort)) by { assert w0.procs[0 := Finished] == map[0 := Finished]; }
    ReachedNext(w0, Step(0, RowEnds(Abort)), w1);
    HeldIsPayable(w1.db, 0, 0, 0);
    var es := ConfirmRuns(w1.db, 0);
    NoBookNoWaiting(w1, 1, 0);
    RunsUndisturbed(w1, 1, ConfirmStart(0), es);
    w := w1.(db := Paid(w1.db, 0, B.Confirmed), procs := w1.procs[1 := Finished]);
    NightsOfTheStay(0);
    PaidNight(w1.db, 0, B.Confirmed);
  }
}
