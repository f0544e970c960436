/** What an uninterrupted Book does to the inventories, written without its loops. */
module Bookings {
  import opened Common
  import opened StayPeriods
  import opened Transactions
  import opened Saga
  import opened SagaInvariant
  import opened SagaRuns
  import opened Outcomes
  import I = InventorySpec
  import B = BookingSpec
  import N = Names

  // ---- what the caller of Book hands in ----

  datatype GuestInput = GuestInput(firstName: string, lastName: string)

  predicate AllNamesOk(guests: seq<GuestInput>) {
    forall i :: 0 <= i < |guests| ==> N.NewName(guests[i].firstName, guests[i].lastName).Ok?
  }

  datatype BookInput = BookInput(bookerId: Uuid, roomTypeId: Uuid, checkin: Instant, checkout: Instant,
      guests: seq<GuestInput>)
  {
    function Period(): StayPeriod {
      StayPeriod(DayOf(checkin), DayOf(checkout))
    }

    predicate NamesOk() {
      AllNamesOk(guests)
    }

    /**
     * Everything Book checks before it touches the database; `capacity` is None for an unknown or deleted room type.
     */
    predicate Acceptable(capacity: Option<int>, now: Instant) {
      && capacity.Some? && Period().Valid() && NamesOk()
      && 1 <= |guests| <= capacity.value && DayOf(now) <= Period().checkin
    }
  }

  /** The guests with their trimmed names, under consecutive fresh identifiers. */
  function GuestsOf(guests: seq<GuestInput>, base: Uuid): (r: seq<B.Guest>)
    requires AllNamesOk(guests)
    ensures |r| == |guests|
  {
    seq(|guests|, i requires 0 <= i < |guests| =>
          B.Guest(base + i, N.NewName(guests[i].firstName, guests[i].lastName).value))
  }

  /** The guests carry the input's names without the white space around them, first name as first, last as last. */
  ghost predicate NamedAs(guests: seq<B.Guest>, input: seq<GuestInput>) {
    && |guests| == |input|
    && forall i :: 0 <= i < |guests| ==>
         && N.IsCoreOf(guests[i].name.firstName, input[i].firstName)
         && N.IsCoreOf(guests[i].name.lastName, input[i].lastName)
  }

  lemma BuiltGuestsAreNamed(input: seq<GuestInput>, base: Uuid)
    requires AllNamesOk(input)
    ensures NamedAs(GuestsOf(input, base), input)
    ensures forall i :: 0 <= i < |input| ==> GuestsOf(input, base)[i].id == base + i
  {
    forall i | 0 <= i < |input|
      ensures var name := GuestsOf(input, base)[i].name;
              N.IsCoreOf(name.firstName, input[i].firstName) && N.IsCoreOf(name.lastName, input[i].lastName)
    {
      N.TrimSpaceIsTheCore(input[i].firstName);
      N.TrimSpaceIsTheCore(input[i].lastName);
    }
  }

  /** The booking is the one asked for: booker, room type, days, guests; and no cancellation fee is due. */
  ghost predicate BookedFor(b: B.Booking, input: BookInput) {
    && b.bookerId == input.bookerId && b.roomTypeId == input.roomTypeId
    && b.period.checkin == DayOf(input.checkin) && b.period.checkout == DayOf(input.checkout)
    && NamedAs(b.guests, input.guests) && b.cancellationFee == 0
  }

  /** The booking Book starts with. */
  function FreshBooking(db: Db, input: BookInput): B.Booking
    requires input.NamesOk()
  {
    B.Booking(db.nextUuid + |input.guests|, input.bookerId, input.roomTypeId, GuestsOf(input.guests, db.nextUuid),
              0, input.Period(), B.TemporaryHold, 0)
  }

  lemma FreshIsBookedFor(db: Db, input: BookInput)
    requires input.NamesOk()
    ensures BookedFor(FreshBooking(db, input), input) && FreshBooking(db, input).status == B.TemporaryHold
  {
    BuiltGuestsAreNamed(input.guests, db.nextUuid);
  }

  // ---- what it does ----

  /** A Hold with a new booking can succeed on this inventory. */
  predicate Bookable(db: Db, k: InventoryId, busy: set<InventoryId>) {
    && k in db.inventories && k !in busy && !db.inventories[k].isClosed
    && |db.inventories[k].holds| < db.inventories[k].quantity
  }

  /** What the caller of Hold learns about a night that is not bookable. */
  function NightFailure(db: Db, k: InventoryId, busy: set<InventoryId>): Failure {
    if k in busy then Unavailable
    else if k !in db.inventories then InventoryNotFound
    else Refused(if db.inventories[k].isClosed then I.ErrClosed else I.ErrSoldOut)
  }

  /** Night i is the first that cannot be booked, and e says why. */
  ghost predicate FirstFailure(db: Db, b: B.Booking, busy: set<InventoryId>, i: nat, e: Failure) {
    && i < b.period.Nights() && !Bookable(db, b.Night(i), busy) && e == NightFailure(db, b.Night(i), busy)
    && forall j :: 0 <= j < i ==> Bookable(db, b.Night(j), busy)
  }

  predicate AllBookable(db: Db, b: B.Booking, busy: set<InventoryId>) {
    forall i :: 0 <= i < b.period.Nights() ==> Bookable(db, b.Night(i), busy)
  }

  /** The first n nights of the stay. */
  function FirstNights(b: B.Booking, n: int): set<InventoryId> {
    set i | 0 <= i < n :: b.Night(i)
  }

  /** The sum of the fees of the first n nights. */
  function FeeSum(db: Db, b: B.Booking, n: int): int {
    if n <= 0 then 0
    else FeeSum(db, b, n - 1) + (if b.Night(n - 1) in db.inventories then db.inventories[b.Night(n - 1)].fee else 0)
  }

  /** The hold b asks for on night k; identifiers are handed out from db.nextUuid on, one per night. */
  function HoldOn(db: Db, b: B.Booking, now: Instant, k: InventoryId): I.Op
    requires b.Covers(k)
  {
    HoldNight(b, now, db.nextUuid + (k.date - b.period.checkin))
  }

  /** The inventories of db after b has taken its hold on the nights in `kept` and on no other. */
  function Taken(db: Db, b: B.Booking, now: Instant, kept: set<InventoryId>): map<InventoryId, I.InventoryState> {
    map k | k in db.inventories ::
      if k in kept && b.Covers(k) && I.Apply(db.inventories[k], HoldOn(db, b, now, k)).Ok?
      then I.Apply(db.inventories[k], HoldOn(db, b, now, k)).value.state
      else db.inventories[k]
  }

  lemma NothingTaken(db: Db, b: B.Booking, now: Instant)
    ensures Taken(db, b, now, {}) == db.inventories
  {
  }

  /** On a bookable night Hold succeeds and charges the night's fee; on any other it fails. */
  lemma HoldSucceedsWhereBookable(db: Db, b: B.Booking, now: Instant, k: InventoryId)
    requires InventoriesOk(db) && b.Covers(k) && !db.HasHold(k, b.id)
    ensures Mutate(db, k, HoldOn(db, b, now, k)).Ok? <==> Bookable(db, k, {})
    ensures !Bookable(db, k, {}) ==> Mutate(db, k, HoldOn(db, b, now, k)).error == NightFailure(db, k, {})
    ensures Bookable(db, k, {}) ==>
              Mutate(db, k, HoldOn(db, b, now, k)).value.reply.Held?
              && Mutate(db, k, HoldOn(db, b, now, k)).value.reply.feeAmount == db.inventories[k].fee
  {
    if k in db.inventories && !db.inventories[k].isClosed {
      I.HoldIsExact(db.inventories[k], HoldOn(db, b, now, k));
    }
  }

  lemma TakeOneMore(db: Db, d: Db, b: B.Booking, now: Instant, kept: set<InventoryId>, k: InventoryId)
    requires d.inventories == Taken(db, b, now, kept) && k !in kept && b.Covers(k)
    requires InventoriesOk(db) && !db.HasHold(k, b.id)
    ensures var r := Mutate(d, k, HoldOn(db, b, now, k));
            && (r.Ok? <==> Bookable(db, k, {}))
            && (r.Err? ==> r.error == NightFailure(db, k, {}))
            && (r.Ok? ==> r.value.db == d.(inventories := Taken(db, b, now, kept + {k}))
                          && r.value.reply.Held? && r.value.reply.feeAmount == db.inventories[k].fee)
  {
    HoldSucceedsWhereBookable(db, b, now, k);
    BookableExists(db, k);
    hide Bookable, NightFailure, InventoriesOk, I.Apply, Taken;
    TakenAt(db, b, now, kept, k);
    if Bookable(db, k, {}) {
      TakenMore(db, b, now, kept, k);
    }
  }

  /** An inventory not taken yet is as before. */
  lemma TakenAt(db: Db, b: B.Booking, now: Instant, kept: set<InventoryId>, k: InventoryId)
    requires k !in kept
    ensures var taken := Taken(db, b, now, kept);
            (k in taken <==> k in db.inventories) && (k in taken ==> taken[k] == db.inventories[k])
  {
  }

  lemma TakenMore(db: Db, b: B.Booking, now: Instant, kept: set<InventoryId>, k: InventoryId)
    requires k !in kept && b.Covers(k) && Mutate(db, k, HoldOn(db, b, now, k)).Ok?
    ensures var hold := I.Apply(db.inventories[k], HoldOn(db, b, now, k)).value.state;
            Taken(db, b, now, kept + {k}) == Taken(db, b, now, kept)[k := hold]
  {
    hide I.Apply;
  }

  lemma GiveOneBack(db: Db, d: Db, b: B.Booking, now: Instant, kept: set<InventoryId>, k: InventoryId)
    requires d.inventories == Taken(db, b, now, kept) && k in kept && b.Covers(k)
    requires InventoriesOk(db) && !db.HasHold(k, b.id) && Bookable(db, k, {})
    ensures Mutate(d, k, I.ReleaseOp(b.id)) ==
            Ok(Mutated(d.(inventories := Taken(db, b, now, kept - {k})), I.Done))
  {
    HoldSucceedsWhereBookable(db, b, now, k);
    I.ReleaseUndoesHold(db.inventories[k], HoldOn(db, b, now, k));
    var r := Mutate(d, k, I.ReleaseOp(b.id));
    assert r.value.db.inventories == Taken(db, b, now, kept - {k});
  }

  /**
   * What `Taken` means: on each night taken, b holds exactly the lowest free slot, temporarily, until now + HOLD_TTL;
   * all other holds, fees, quantities and inventories are as before.
   */
  lemma TakenMeaning(db: Db, b: B.Booking, now: Instant, kept: set<InventoryId>, k: InventoryId)
    requires InventoriesOk(db) && (forall k' :: !db.HasHold(k', b.id))
    requires k in db.inventories
    ensures var s, s' := db.inventories[k], Taken(db, b, now, kept)[k];
            && (s'.fee, s'.quantity, s'.isClosed) == (s.fee, s.quantity, s.isClosed)
            && s'.holds - {b.id} == s.holds
            && (b.id in s'.holds <==> k in kept && b.Covers(k) && Bookable(db, k, {}))
            && (b.id in s'.holds ==>
                  && s'.holds[b.id].status == I.TemporaryHold && s'.holds[b.id].bookingId == b.id
                  && s'.holds[b.id].expiredAt == Some(now + HOLD_TTL)
                  && s.LeastVacant(s'.holds[b.id].slotNo))
  {
    hide I.Apply;
    var s := db.inventories[k];
    assert !db.HasHold(k, b.id);
    if b.Covers(k) {
      HoldSucceedsWhereBookable(db, b, now, k);
      if Bookable(db, k, {}) {
        I.HoldIsExact(s, HoldOn(db, b, now, k));
      }
    }
    assert s.holds - {b.id} == s.holds;
  }

  /**
   * From s to s' booking x may have taken a hold, the lowest free slot until now + HOLD_TTL, and nothing else changed.
   */
  ghost predicate TookHere(s: I.InventoryState, s': I.InventoryState, x: Uuid, now: Instant) {
    && (s'.fee, s'.quantity, s'.isClosed) == (s.fee, s.quantity, s.isClosed)
    && (forall y :: y != x ==> (y in s'.holds <==> y in s.holds) && (y in s.holds ==> s'.holds[y] == s.holds[y]))
    && (x in s'.holds ==> s'.holds[x].status == I.TemporaryHold && s'.holds[x].expiredAt == Some(now + HOLD_TTL)
                          && s.LeastVacant(s'.holds[x].slotNo))
  }

  ghost predicate TookOnly(db: Db, db': Db, x: Uuid, now: Instant) {
    && db'.inventories.Keys == db.inventories.Keys
    && forall k :: k in db.inventories ==> TookHere(db.inventories[k], db'.inventories[k], x, now)
  }

  lemma TakingIsAll(db: Db, db0: Db, db': Db, b: B.Booking, now: Instant, kept: set<InventoryId>)
    requires InventoriesOk(db) && (forall k :: !db.HasHold(k, b.id)) && db0.inventories == db.inventories
    requires db'.inventories == Taken(db0, b, now, kept)
    ensures TookOnly(db, db', b.id, now)
    ensures forall k :: db'.HasHold(k, b.id) <==> k in kept && b.Covers(k) && Bookable(db, k, {})
  {
    NoHoldsEither(db, db0, b.id);
    TakenKeys(db0, b, now, kept);
    forall k | k in db.inventories
      ensures TookHere(db.inventories[k], db'.inventories[k], b.id, now)
      ensures b.id in db'.inventories[k].holds <==> k in kept && b.Covers(k) && Bookable(db, k, {})
    {
      NightTaken(db0, b, now, kept, k);
      assert Bookable(db0, k, {}) <==> Bookable(db, k, {});
    }
    hide Taken, InventoriesOk, TookHere;
  }

  lemma NoHoldsEither(db: Db, db0: Db, x: Uuid)
    requires (forall k :: !db.HasHold(k, x)) && db0.inventories == db.inventories
    ensures forall k :: !db0.HasHold(k, x)
  {
    forall k ensures !db0.HasHold(k, x) {
      assert !db.HasHold(k, x);
    }
  }

  lemma TakenKeys(db: Db, b: B.Booking, now: Instant, kept: set<InventoryId>)
    ensures Taken(db, b, now, kept).Keys == db.inventories.Keys
  {
  }

  lemma NightTaken(db: Db, b: B.Booking, now: Instant, kept: set<InventoryId>, k: InventoryId)
    requires InventoriesOk(db) && (forall k :: !db.HasHold(k, b.id)) && k in db.inventories
    ensures var s' := Taken(db, b, now, kept)[k];
            && TookHere(db.inventories[k], s', b.id, now)
            && (b.id in s'.holds <==> k in kept && b.Covers(k) && Bookable(db, k, {}))
  {
    TakenMeaning(db, b, now, kept, k);
    var s, s' := db.inventories[k], Taken(db, b, now, kept)[k];
    hide Taken, Bookable, InventoriesOk, I.InventoryState.LeastVacant;
    OneMoreHold(s.holds, s'.holds, b.id);
  }

  lemma OneMoreHold(holds: map<Uuid, I.Hold>, holds': map<Uuid, I.Hold>, x: Uuid)
    requires holds' - {x} == holds
    ensures forall y :: y != x ==> (y in holds' <==> y in holds) && (y in holds ==> holds'[y] == holds[y])
  {
    assert forall y :: y in holds' - {x} <==> y in holds' && y != x;
  }

  lemma EveryNightTaken(db: Db, db': Db, b: B.Booking)
    requires AllBookable(db, b, {})
    requires forall k :: db'.HasHold(k, b.id) <==>
             k in FirstNights(b, b.period.Nights()) && b.Covers(k) && Bookable(db, k, {})
    ensures forall k :: b.Covers(k) ==> db'.HasHold(k, b.id)
  {
    hide Bookable;
    forall k | b.Covers(k) ensures db'.HasHold(k, b.id) {
      assert k == b.Night(k.date - b.period.checkin);
    }
  }

  lemma BusyOrNot(db: Db, b: B.Booking, busy: set<InventoryId>)
    requires AllBookable(db, b, busy)
    ensures AllBookable(db, b, {})
  {
    assert forall i :: 0 <= i < b.period.Nights() ==> Bookable(db, b.Night(i), busy);
  }

  /** The booking Book returns: its total is the sum of the nightly fees. */
  function WithTotal(db: Db, b: B.Booking): B.Booking {
    b.(totalFee := FeeSum(db, b, b.period.Nights()))
  }

  /** The booking rows after compensation, whose last save is rolled back if `last` says so. */
  function AfterCompensation(db: Db, b: B.Booking, now: Instant, last: Outcome): map<Uuid, BookingRow> {
    if last == Abort then db.bookings else SaveBooking(db, B.Cancel(b, B.Expired, now), 0).bookings
  }

  // ---- the two loops, one iteration at a time ----

  /** The database after b has held its first i nights. */
  function Holding(start: Db, b: B.Booking, now: Instant, i: nat): Db {
    start.(inventories := Taken(start, b, now, FirstNights(b, i)), nextUuid := start.nextUuid + i)
  }

  lemma HoldingBegins(start: Db, b: B.Booking, now: Instant)
    ensures Holding(start, b, now, 0) == start
  {
    assert FirstNights(b, 0) == {};
    NothingTaken(start, b, now);
  }

  lemma NightIsNew(b: B.Booking, i: nat)
    ensures b.Night(i) !in FirstNights(b, i) && FirstNights(b, i + 1) == FirstNights(b, i) + {b.Night(i)}
  {
  }

  lemma BookableExists(db: Db, k: InventoryId)
    ensures Bookable(db, k, {}) ==> k in db.inventories
  {
  }

  lemma HoldNext(start: Db, b: B.Booking, now: Instant, i: nat)
    requires InventoriesOk(start) && (forall k :: !start.HasHold(k, b.id)) && i < b.period.Nights()
    ensures var d := Holding(start, b, now, i);
            var r := Mutate(d, b.Night(i), HoldNight(b, now, d.nextUuid));
            && (r.Ok? <==> Bookable(start, b.Night(i), {}))
            && (r.Err? ==> r.error == NightFailure(start, b.Night(i), {}))
            && (r.Ok? ==> r.value.db.(nextUuid := d.nextUuid + 1) == Holding(start, b, now, i + 1)
                          && r.value.reply.Held?
                          && FeeSum(start, b, i) + r.value.reply.feeAmount == FeeSum(start, b, i + 1))
  {
    hide Mutate, Taken, FirstNights, Bookable, InventoriesOk, I.Apply;
    var d := Holding(start, b, now, i);
    NightIsNew(b, i);
    TakeOneMore(start, d, b, now, FirstNights(b, i), b.Night(i));
    BookableExists(start, b.Night(i));
  }

  lemma HoldStepRuns(start: Db, b: B.Booking, now: Instant, i: nat, total: int, busy: bool, db0: Db, run: seq<Env>)
    requires InventoriesOk(start) && (forall k :: !start.HasHold(k, b.id)) && i < b.period.Nights()
    requires total == FeeSum(start, b, i)
    requires Execute(db0, BookSave(b, now), run) == Next(Holding(start, b, now, i), BookHold(b, now, i, total))
    ensures Execute(db0, BookSave(b, now), run + [Ends(busy)]) ==
            if !busy && Bookable(start, b.Night(i), {})
            then Next(Holding(start, b, now, i + 1), BookHold(b, now, i + 1, FeeSum(start, b, i + 1)))
            else Next(Holding(start, b, now, i).(nextUuid := start.nextUuid + i + 1), BookRelease(b, now, i, 0))
  {
    hide Advance, I.Apply, Taken, FirstNights, FeeSum, Bookable, InventoriesOk, Execute;
    BookHolds(db0, BookSave(b, now), run, Holding(start, b, now, i), b, now, i, total, Ends(busy));
    HoldNext(start, b, now, i);
  }

  /** The nights still held after the first j of `held` have been given back, except those in `lost`. */
  function Remaining(b: B.Booking, held: nat, j: nat, lost: set<InventoryId>): set<InventoryId> {
    FirstNights(b, held) - (FirstNights(b, j) - lost)
  }

  lemma RemainingSteps(b: B.Booking, held: nat, j: nat, lost: set<InventoryId>)
    ensures Remaining(b, held, 0, lost) == FirstNights(b, held)
    ensures Remaining(b, held, held, lost) == FirstNights(b, held) * lost
    ensures j < held ==> b.Night(j) in Remaining(b, held, j, lost)
    ensures Remaining(b, held, j + 1, lost) == Remaining(b, held, j, lost) - ({b.Night(j)} - lost)
  {
    assert FirstNights(b, j + 1) == FirstNights(b, j) + {b.Night(j)};
    assert b.Night(j) !in FirstNights(b, j);
  }

  lemma GiveBackNext(start: Db, d: Db, b: B.Booking, now: Instant, held: nat, j: nat, lost: set<InventoryId>)
    requires InventoriesOk(start) && (forall k :: !start.HasHold(k, b.id)) && j < held <= b.period.Nights()
    requires Bookable(start, b.Night(j), {})
    requires d.inventories == Taken(start, b, now, Remaining(b, held, j, lost))
    ensures Call(d, b.Night(j), I.ReleaseOp(b.id), if b.Night(j) in lost then Abort else Commit).0 ==
            d.(inventories := Taken(start, b, now, Remaining(b, held, j + 1, lost)))
  {
    RemainingSteps(b, held, j, lost);
    if b.Night(j) in lost {
      assert {b.Night(j)} - lost == {};
      assert Remaining(b, held, j + 1, lost) == Remaining(b, held, j, lost);
      CallAborts(d, b.Night(j), I.ReleaseOp(b.id));
    } else {
      assert {b.Night(j)} - lost == {b.Night(j)};
      GiveOneBack(start, d, b, now, Remaining(b, held, j, lost), b.Night(j));
    }
  }

  lemma CallAborts(d: Db, k: InventoryId, op: I.Op)
    ensures Call(d, k, op, Abort) == (d, None)
  {
  }

  // ---- small facts Book uses ----

  /** Bookability, fees and holds depend on the inventories alone. */
  lemma {:induction false} SameFees(db: Db, db': Db, b: B.Booking, n: int)
    requires db'.inventories == db.inventories
    ensures FeeSum(db', b, n) == FeeSum(db, b, n)
    decreases n
  {
    if n > 0 {
      SameFees(db, db', b, n - 1);
    }
  }

  lemma SameInventories(db: Db, db': Db, b: B.Booking, now: Instant, busy: set<InventoryId>)
    requires db'.inventories == db.inventories
    ensures AllBookable(db', b, busy) <==> AllBookable(db, b, busy)
    ensures FeeSum(db', b, b.period.Nights()) == FeeSum(db, b, b.period.Nights())
    ensures db'.nextUuid == db.nextUuid ==> forall kept :: Taken(db', b, now, kept) == Taken(db, b, now, kept)
    ensures InventoriesOk(db) ==> InventoriesOk(db')
    ensures forall i: nat, e :: FirstFailure(db', b, busy, i, e) <==> FirstFailure(db, b, busy, i, e)
    ensures forall k, x :: db'.HasHold(k, x) <==> db.HasHold(k, x)
  {
    SameFees(db, db', b, b.period.Nights());
    assert forall k :: Bookable(db', k, busy) <==> Bookable(db, k, busy);
    if db'.nextUuid == db.nextUuid {
      forall kept ensures Taken(db', b, now, kept) == Taken(db, b, now, kept) {
        assert forall k :: b.Covers(k) ==> HoldOn(db', b, now, k) == HoldOn(db, b, now, k);
      }
    }
  }

  lemma {:induction false} FeesAddUp(db: Db, b: B.Booking, n: int)
    requires InventoriesOk(db)
    ensures FeeSum(db, b, n) >= 0
    decreases n
  {
    if n > 0 {
      FeesAddUp(db, b, n - 1);
    }
  }

  /** An identifier not handed out yet belongs to no booking and no hold. */
  lemma UnknownBooking(db: Db, id: Uuid, started: map<Uuid, Instant>)
    requires Quiet(db, started) && id >= db.nextUuid
    ensures id !in db.bookings && InventoriesOk(db) && (forall k :: !db.HasHold(k, id))
  {
    QuietFacts(db, started);
  }

  /** The rows a Book may leave. */
  ghost predicate LeftRows(db: Db, db': Db, b: B.Booking, now: Instant, at: Instant) {
    || db'.bookings == db.bookings
    || db'.bookings == db.bookings[b.id := BookingRow(b, at)]
    || db'.bookings == db.bookings[b.id := BookingRow(WithTotal(db, b), at)]
    || db'.bookings == db.bookings[b.id := BookingRow(B.Cancel(b, B.Expired, now), at)]
  }

  lemma LeftRowsAreBookedFor(db: Db, db': Db, input: BookInput, now: Instant, at: Instant)
    requires BookingsOk(db) && input.NamesOk() && LeftRows(db, db', FreshBooking(db, input), now, at)
    ensures var b := FreshBooking(db, input);
            && b.id !in db.bookings && BookedFor(WithTotal(db, b), input)
            && (forall x :: x in db.bookings ==> x in db'.bookings && db'.bookings[x] == db.bookings[x])
            && (forall x :: x in db'.bookings && x !in db.bookings ==>
                  && BookedFor(db'.bookings[x].booking, input) && db'.bookings[x].createdAt == at
                  && db'.bookings[x].booking.status in {B.TemporaryHold, B.Cancelled})
  {
    var b := FreshBooking(db, input);
    FreshIsBookedFor(db, input);
    B.CancelFixesTheFee(b, B.Expired, now);
    hide NamedAs, FeeSum, B.Cancel, B.Booking.Valid;
  }

  lemma TookNothingElse(db: Db, db': Db, x: Uuid, now: Instant, y: Uuid)
    requires TookOnly(db, db', x, now)
    ensures y != x ==> forall k :: (db'.HasHold(k, y) <==> db.HasHold(k, y))
                                   && (db.HasHold(k, y) ==> db'.HoldOf(k, y) == db.HoldOf(k, y))
    ensures forall k :: db'.HasHold(k, x) ==>
              && db'.HoldOf(k, x).status == I.TemporaryHold && db'.HoldOf(k, x).expiredAt == Some(now + HOLD_TTL)
  {
    hide I.InventoryState.LeastVacant;
    forall k | y != x
      ensures (db'.HasHold(k, y) <==> db.HasHold(k, y)) && (db.HasHold(k, y) ==> db'.HoldOf(k, y) == db.HoldOf(k, y))
    {
      assert k in db.inventories ==> TookHere(db.inventories[k], db'.inventories[k], x, now);
    }
  }

  /** What a Book leaves, whichever of its rows it wrote last: the booking asked for, and everything else as it was. */
  lemma BookLeaves(db: Db, db': Db, input: BookInput, now: Instant, at: Instant)
    requires BookingsOk(db) && HoldsOwned(db') && input.NamesOk()
    requires var b := FreshBooking(db, input); TookOnly(db, db', b.id, now) && LeftRows(db, db', b, now, at)
    ensures var b := FreshBooking(db, input);
            && b.id !in db.bookings && BookedFor(WithTotal(db, b), input)
            && (forall x :: x in db.bookings ==> Untouched(db, db', x))
            && (forall x :: x in db'.bookings && x !in db.bookings ==>
                  && BookedFor(db'.bookings[x].booking, input) && db'.bookings[x].createdAt == at
                  && db'.bookings[x].booking.status in {B.TemporaryHold, B.Cancelled})
            && (forall k :: db'.HasHold(k, b.id) ==>
                  && db'.HoldOf(k, b.id).status == I.TemporaryHold
                  && db'.HoldOf(k, b.id).expiredAt == Some(now + HOLD_TTL))
  {
    hide LeftRows, TookOnly, BookedFor, BookingsOk, HoldsOwned;
    var b := FreshBooking(db, input);
    LeftRowsAreBookedFor(db, db', input, now, at);
    TookNothingElse(db, db', b.id, now, b.id);
    forall x | x in db.bookings ensures Untouched(db, db', x) {
      TookNothingElse(db, db', b.id, now, x);
    }
  }

  lemma DbParts(db: Db)
    requires DbOk(db)
    ensures BookingsOk(db) && HoldsOwned(db) && InventoriesOk(db)
    ensures forall k, x :: db.HasHold(k, x) ==> x in db.bookings && db.bookings[x].booking.Covers(k)
  {
  }

  lemma TookIgnoresIds(db: Db, db': Db, d: Db, x: Uuid, now: Instant)
    requires db'.inventories == db.inventories && TookOnly(db', d, x, now)
    ensures TookOnly(db, d, x, now)
  {
  }

  lemma IdsAreInvisible(db: Db, n: nat)
    ensures forall x :: Untouched(db, db.(nextUuid := n), x)
  {
  }
}
