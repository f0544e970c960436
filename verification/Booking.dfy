/** `server/internal/booking/domain/booking.go`: the booking aggregate, whose methods update its fields. */
module BookingAggregate {
  import opened Common
  import opened StayPeriods
  import opened B = BookingSpec

  class BookingObject {
    const id: Uuid
    const bookerId: Uuid
    const roomTypeId: Uuid
    const stayPeriod: StayPeriod
    var guests: seq<Guest>
    var totalFee: int
    var status: Status
    var cancellationFee: int

    ghost function State(): Booking
      reads this
    {
      Booking(id, bookerId, roomTypeId, guests, totalFee, stayPeriod, status, cancellationFee)
    }

    constructor Reconstruct(b: Booking)
      ensures State() == b
    {
      id, bookerId, roomTypeId, stayPeriod := b.id, b.bookerId, b.roomTypeId, b.period;
      guests, totalFee, status, cancellationFee := b.guests, b.totalFee, b.status, b.cancellationFee;
    }

    method Value() returns (b: Booking)
      ensures b == State()
    {
      b := Booking(id, bookerId, roomTypeId, guests, totalFee, stayPeriod, status, cancellationFee);
    }

    method Transition(to: Status) returns (err: Option<BookingError>)
      modifies this`status
      ensures err.None? <==> B.Transition(old(State()), to).Ok?
      ensures State() == if err.None? then B.Transition(old(State()), to).value else old(State())
      ensures err.Some? ==> B.Transition(old(State()), to) == Err(err.value)
    {
      if !CanTransition(status, to) {
        return Some(ErrInvalidTransition);
      }
      status := to;
      return None;
    }

    method StartPayment() returns (err: Option<BookingError>)
      modifies this`status
      ensures State() == After(old(State()), StartPaymentCall)
      ensures status == if err.None? then ProcessingPayment else old(status)
      ensures err.None? <==> old(status) == TemporaryHold
      ensures err in {None, Some(ErrInvalidTransition)}
    {
      err := Transition(ProcessingPayment);
    }

    method Confirm() returns (err: Option<BookingError>)
      modifies this`status
      ensures State() == After(old(State()), ConfirmCall)
      ensures status == if err.None? then B.Status.Confirmed else old(status)
      ensures err.None? <==> old(status) in {ProcessingPayment, Confirmed}
      ensures err in {None, Some(ErrInvalidTransition)}
    {
      if status == Confirmed {
        return None;
      }
      err := Transition(Confirmed);
    }

    /** Every status may be cancelled, so Cancel never fails; cancelling again returns the fee fixed the first time. */
    method Cancel(reason: Reason, now: Instant) returns (r: Result<int, BookingError>)
      modifies this`status, this`cancellationFee
      ensures r == Ok(State().cancellationFee) && status == Cancelled
      ensures State() == After(old(State()), CancelCall(reason, now))
      ensures var days := stayPeriod.checkin - DayOf(now);
              r == Ok(if old(status) == Cancelled then old(cancellationFee)
                      else if old(status) == Confirmed && reason == ByGuest then
                        (if days >= 7 then 0 else if days >= 3 then totalFee / 2 else totalFee)
                      else 0)
    {
      CancelFixesTheFee(State(), reason, now);
      if status == Cancelled {
        return Ok(cancellationFee);
      }
      if !CanTransition(status, Cancelled) {
        return Err(ErrInvalidTransition);
      }
      var fee := 0;
      if status == Confirmed {
        fee := CancellationFee(stayPeriod, totalFee, reason, now);
      }
      status := Cancelled;
      cancellationFee := fee;
      return Ok(fee);
    }

    method FixTotalFee(fee: nat) returns (err: Option<BookingError>)
      modifies this`totalFee
      ensures State() == After(old(State()), FixTotalFeeCall(fee))
      ensures totalFee == if err.None? then fee else old(totalFee)
      ensures err.None? <==> status == TemporaryHold
      ensures err in {None, Some(ErrInvalidTransition)}
    {
      if status != TemporaryHold {
        return Some(ErrInvalidTransition);
      }
      totalFee := fee;
      return None;
    }

    method ChangeGuests(newGuests: seq<Guest>, capacity: int) returns (err: Option<BookingError>)
      modifies this`guests
      ensures State() == After(old(State()), ChangeGuestsCall(newGuests, capacity))
      ensures err.None? <==> status != Cancelled && 1 <= |newGuests| <= capacity
      ensures err.Some? ==> B.ChangeGuests(old(State()), newGuests, capacity) == Err(err.value)
      ensures err == if status == Cancelled then Some(ErrInvalidTransition)
                     else if newGuests == [] then Some(ErrNoGuest)
                     else if |newGuests| > capacity then Some(ErrOverCapacity)
                     else None
      ensures guests == if err.None? then newGuests else old(guests)
    {
      if status == Cancelled {
        return Some(ErrInvalidTransition);
      }
      err := ValidGuests(newGuests, capacity);
      if err.None? {
        guests := newGuests;
      }
    }
  }
}
