/**
 * The booking state machine of `server/internal/booking/domain/booking.go` and the fee rule of `cancellation.go`
 * on values. The class in Booking.dfy is proved against these functions.
 */
module BookingSpec {
  import opened Common
  import opened StayPeriods

  datatype Status = TemporaryHold | ProcessingPayment | Confirmed | Cancelled

  datatype Reason = ByGuest | ByAccommodation | PaymentFailed | Expired

  datatype Name = Name(firstName: string, lastName: string)

  datatype Guest = Guest(id: Uuid, name: Name)

  datatype BookingError = ErrNoGuest | ErrOverCapacity | ErrPastStayPeriod | ErrInvalidTransition | ErrInvalidTotalFee

  datatype Booking = Booking(
    id: Uuid, bookerId: Uuid, roomTypeId: Uuid, guests: seq<Guest>,
    totalFee: int, period: StayPeriod, status: Status, cancellationFee: int)
  {
    /** The stay covers this night of this room type. */
    predicate Covers(k: InventoryId) {
      k.roomTypeId == roomTypeId && period.Contains(k.date)
    }

    function Night(i: int): InventoryId {
      InventoryId(roomTypeId, period.checkin + i)
    }

    /** Identity, room and dates: what no operation ever changes. */
    ghost predicate SamePlan(other: Booking) {
      id == other.id && roomTypeId == other.roomTypeId && period == other.period && bookerId == other.bookerId
    }

    ghost predicate Valid() {
      && period.Valid() && 0 <= cancellationFee <= totalFee
      && (status != Cancelled ==> cancellationFee == 0)
    }
  }

  predicate CanTransition(from: Status, to: Status) {
    match from
    case TemporaryHold => to in {ProcessingPayment, Cancelled}
    case ProcessingPayment => to in {Confirmed, Cancelled}
    case Confirmed => to == Cancelled
    case Cancelled => false
  }

  function ValidGuests(guests: seq<Guest>, capacity: int): Option<BookingError> {
    if |guests| == 0 then Some(ErrNoGuest)
    else if |guests| > capacity then Some(ErrOverCapacity)
    else None
  }

  function NewBooking(id: Uuid, bookerId: Uuid, roomTypeId: Uuid, period: StayPeriod, guests: seq<Guest>,
                      totalFee: int, capacity: int, now: Instant): Result<Booking, BookingError>
  {
    match ValidGuests(guests, capacity)
    case Some(e) => Err(e)
    case None =>
      if period.checkin < DayOf(now) then Err(ErrPastStayPeriod)
      else Ok(Booking(id, bookerId, roomTypeId, guests, totalFee, period, TemporaryHold, 0))
  }

  /** A guest pays nothing seven days ahead, half from three days ahead, everything later; others never pay. */
  function CancellationFee(period: StayPeriod, total: int, reason: Reason, now: Instant): int {
    if reason != ByGuest then 0
    else
      var days := DaysBetween(DayOf(now), period.checkin);
      if days >= 7 then 0
      else if days >= 3 then total * 50 / 100
      else total
  }

  function Transition(b: Booking, to: Status): Result<Booking, BookingError> {
    if CanTransition(b.status, to) then Ok(b.(status := to)) else Err(ErrInvalidTransition)
  }

  function Confirm(b: Booking): Result<Booking, BookingError> {
    if b.status == Confirmed then Ok(b) else Transition(b, Confirmed)
  }

  function Cancel(b: Booking, reason: Reason, now: Instant): Booking {
    if b.status == Cancelled then b
    else
      var fee := if b.status == Confirmed then CancellationFee(b.period, b.totalFee, reason, now) else 0;
      b.(status := Cancelled, cancellationFee := fee)
  }

  function FixTotalFee(b: Booking, fee: int): Result<Booking, BookingError> {
    if fee < 0 then Err(ErrInvalidTotalFee)
    else if b.status != TemporaryHold then Err(ErrInvalidTransition)
    else Ok(b.(totalFee := fee))
  }

  function ChangeGuests(b: Booking, guests: seq<Guest>, capacity: int): Result<Booking, BookingError> {
    if b.status == Cancelled then Err(ErrInvalidTransition)
    else
      match ValidGuests(guests, capacity)
      case Some(e) => Err(e)
      case None => Ok(b.(guests := guests))
  }

  /**
   * What a cancellation costs. A guest who cancels a Confirmed booking pays nothing seven or more days before checkin,
   * half of the total, rounded down, from three days on, and all of it later. Any other reason, and any booking not yet
   * Confirmed, costs nothing; a Cancelled booking keeps the fee it has.
   */
  lemma CancelFixesTheFee(b: Booking, reason: Reason, now: Instant)
    ensures var days := b.period.checkin - DayOf(now);
            Cancel(b, reason, now).cancellationFee ==
            if b.status == Cancelled then b.cancellationFee
            else if b.status == Confirmed && reason == ByGuest then
              (if days >= 7 then 0 else if days >= 3 then b.totalFee / 2 else b.totalFee)
            else 0
    ensures Cancel(b, reason, now) ==
            b.(status := Cancelled, cancellationFee := Cancel(b, reason, now).cancellationFee)
  {
    assert b.totalFee * 50 / 100 == b.totalFee / 2;
  }

  lemma CancelCancels(b: Booking, reason: Reason, now: Instant)
    ensures Cancel(b, reason, now).status == Cancelled && Cancel(b, reason, now).SamePlan(b)
  {
  }

  // ---- every run of domain calls ----

  datatype Call =
    | StartPaymentCall
    | ConfirmCall
    | CancelCall(reason: Reason, now: Instant)
    | FixTotalFeeCall(fee: int)
    | ChangeGuestsCall(guests: seq<Guest>, capacity: int)

  function Answer(b: Booking, c: Call): Result<Booking, BookingError> {
    match c
    case StartPaymentCall => Transition(b, ProcessingPayment)
    case ConfirmCall => Confirm(b)
    case CancelCall(reason, now) => Ok(Cancel(b, reason, now))
    case FixTotalFeeCall(fee) => FixTotalFee(b, fee)
    case ChangeGuestsCall(guests, capacity) => ChangeGuests(b, guests, capacity)
  }

  /** The booking after one call; a refused call changes nothing. */
  function After(b: Booking, c: Call): Booking {
    match Answer(b, c) case Ok(b') => b' case Err(_) => b
  }

  function RunCalls(b: Booking, calls: seq<Call>): Booking {
    if calls == [] then b else After(RunCalls(b, calls[..|calls| - 1]), calls[|calls| - 1])
  }

  function Rank(s: Status): nat {
    match s
    case TemporaryHold => 0
    case ProcessingPayment => 1
    case Confirmed => 2
    case Cancelled => 3
  }

  /**
   * A guest's fee stays within 0..total, is exactly half (rounded down) in the middle band, and only grows with time.
   */
  lemma FeeIsBoundedAndMonotone(p: StayPeriod, total: nat, reason: Reason, now: Instant, later: Instant)
    requires now <= later
    ensures 0 <= CancellationFee(p, total, reason, now) <= CancellationFee(p, total, reason, later) <= total
    ensures CancellationFee(p, total, ByGuest, now) ==
            if DaysBetween(DayOf(now), p.checkin) in Interval(3, 7) then total / 2
            else if DaysBetween(DayOf(now), p.checkin) >= 7 then 0 else total
    ensures reason != ByGuest ==> CancellationFee(p, total, reason, now) == 0
  {
    assert DayOf(now) <= DayOf(later);
    assert total * 50 / 100 == total / 2;
  }

  lemma OneCall(b: Booking, c: Call)
    requires b.Valid()
    ensures var a := After(b, c);
            && a.Valid() && a.SamePlan(b) && Rank(b.status) <= Rank(a.status)
            && (a.status == b.status || CanTransition(b.status, a.status))
            && (b.status == Cancelled ==> a == b)
            && (b.status != Cancelled && a.cancellationFee != 0 ==>
                  b.status == Confirmed && c.CancelCall? && c.reason == ByGuest &&
                      DaysBetween(DayOf(c.now), b.period.checkin) < 7)
  {
    if c.CancelCall? && b.totalFee >= 0 {
      FeeIsBoundedAndMonotone(b.period, b.totalFee, c.reason, c.now, c.now);
    }
  }

  /**
   * Over every sequence of calls on a booking: room and dates never change, the status rank never falls, Cancelled is
   * absorbing (the whole booking, its fee included, is frozen), and the cancellation fee is 0 unless Cancelled and
   * always within 0..total.
   */
  lemma {:induction false} EveryRunOfCalls(b: Booking, calls: seq<Call>)
    requires b.Valid()
    ensures var a := RunCalls(b, calls);
            && a.Valid() && a.SamePlan(b) && Rank(b.status) <= Rank(a.status)
            && (b.status == Cancelled ==> a == b)
            && (a.cancellationFee != 0 ==> a.status == Cancelled)
  {
    if calls != [] {
      EveryRunOfCalls(b, calls[..|calls| - 1]);
      OneCall(RunCalls(b, calls[..|calls| - 1]), calls[|calls| - 1]);
    }
  }

  /** Once a run contains a cancellation, its outcome is that of the first one, whatever is called afterwards. */
  lemma {:induction false} FirstCancelDecides(b: Booking, calls: seq<Call>, i: nat)
    requires b.Valid() && i < |calls| && calls[i].CancelCall?
    ensures var a := RunCalls(b, calls);
            a.status == Cancelled && a == Cancel(RunCalls(b, calls[..i]), calls[i].reason, calls[i].now)
    decreases |calls|
  {
    var init := calls[..|calls| - 1];
    if i < |init| {
      assert init[..i] == calls[..i];
      FirstCancelDecides(b, init, i);
    }
  }
}
