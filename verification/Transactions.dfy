/**
 * The committed database as the process manager sees it, and the whole transactions it issues. That a transaction may
 * be taken as one step although it runs as many statements is what LockProtocol.dfy proves.
 */
module Transactions {
  import opened Common
  import I = InventorySpec
  import B = BookingSpec

  datatype BookingRow = BookingRow(booking: B.Booking, createdAt: Instant)

  /** `nextUuid` stands for `uuid.New()`: every identifier handed out so far is smaller. */
  datatype Db = Db(inventories: map<InventoryId, I.InventoryState>, bookings: map<Uuid, BookingRow>, nextUuid: Uuid) {

    predicate HasHold(k: InventoryId, b: Uuid) {
      k in inventories && b in inventories[k].holds
    }

    function HoldOf(k: InventoryId, b: Uuid): I.Hold
      requires HasHold(k, b)
    {
      inventories[k].holds[b]
    }

    predicate HasStatus(b: Uuid, s: B.Status) {
      b in bookings && bookings[b].booking.status == s
    }

    /** The booking is stored and holds every night of its stay, in whatever status. */
    ghost predicate HoldsEveryNight(b: Uuid) {
      b in bookings && forall k :: bookings[b].booking.Covers(k) ==> HasHold(k, b)
    }
  }

  datatype Failure =
    | InventoryNotFound
    | BookingNotFound
    | Refused(error: I.InventoryError)
    | BookingRefused(reason: B.BookingError)
    | Unavailable

  datatype Mutated = Mutated(db: Db, reply: I.Reply)

  /** `mutate` and the body of `CollectExpired`: lock one inventory, apply one operation, save. */
  function Mutate(db: Db, k: InventoryId, op: I.Op): Result<Mutated, Failure> {
    if k !in db.inventories then Err(InventoryNotFound)
    else
      match I.Apply(db.inventories[k], op)
      case Ok(a) => Ok(Mutated(db.(inventories := db.inventories[k := a.state]), a.reply))
      case Err(e) => Err(Refused(e))
  }

  /** `UpsertBooking`: an existing row keeps its booker, its room type and its creation time. */
  function SaveBooking(db: Db, b: B.Booking, at: Instant): Db {
    var row :=
      if b.id in db.bookings then
        var was := db.bookings[b.id];
        BookingRow(b.(bookerId := was.booking.bookerId, roomTypeId := was.booking.roomTypeId), was.createdAt)
      else BookingRow(b, at);
    db.(bookings := db.bookings[b.id := row])
  }

  /** A transaction that locks one booking row, changes the aggregate and saves it. */
  function UpdateBooking(db: Db, id: Uuid, call: B.Call): Result<Db, Failure> {
    if id !in db.bookings then Err(BookingNotFound)
    else
      match B.Answer(db.bookings[id].booking, call)
      case Ok(b') => Ok(db.(bookings := db.bookings[id := db.bookings[id].(booking := b')]))
      case Err(e) => Err(BookingRefused(e))
  }

  /** `ListStaleTemporaryHoldIds` selects these bookings. */
  predicate Stale(row: BookingRow, before: Instant) {
    row.booking.status == B.TemporaryHold && row.createdAt < before
  }

  /** A listing of the stale bookings, each once, in any order: nothing below depends on ORDER BY. */
  ghost predicate IsStaleListing(db: Db, before: Instant, ids: seq<Uuid>) {
    && (forall b :: b in ids <==> b in db.bookings && Stale(db.bookings[b], before))
    && (forall i, j :: 0 <= i < j < |ids| ==> ids[i] != ids[j])
  }

  predicate HasExpired(s: I.InventoryState, now: Instant) {
    I.ExpiredBookings(s, now) != {}
  }

  /** `ListExpiredHoldInventoryIds`: the inventories with an expired temporary hold, each once, in any order. */
  ghost predicate IsExpiredListing(db: Db, now: Instant, keys: seq<InventoryId>) {
    && (forall k :: k in keys <==> k in db.inventories && HasExpired(db.inventories[k], now))
    && (forall i, j :: 0 <= i < j < |keys| ==> keys[i] != keys[j])
  }
}
