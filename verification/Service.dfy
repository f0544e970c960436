/**
 * `server/internal/booking/app/booking.go`, `server/internal/inventory/app/service.go` (CollectExpired) and the worker,
 * as the sequential programs they are. Each method also proves that what it does is a run of the matching small-step
 * process of Saga.dfy: `run` lists the outcomes of its transactions.
 */
module Services {
  import opened Common
  import opened StayPeriods
  import opened Transactions
  import opened Saga
  import opened SagaInvariant
  import opened SagaRuns
  import opened Outcomes
  import opened Bookings
  import I = InventorySpec
  import B = BookingSpec
  import N = Names

  datatype ServiceError =
    | Failed(failure: Failure)
    | CompensationFailed(date: Day)
    | RoomTypeNotFound
    | BadPeriod(reason: PeriodError)
    | BadName(why: N.NameError)
    | Rejected(error: B.BookingError)

  /** A pass that ends early says so. */
  function StopError<T>(stop: Option<T>): Option<ServiceError> {
    if stop.None? then None else Some(Failed(Unavailable))
  }

  /**
   * The first objection to the input, in the order in which Book looks; `capacity` is None for an unknown room type.
   */
  function Rejection(input: BookInput, capacity: Option<int>, now: Instant): Option<ServiceError> {
    if capacity.None? then Some(RoomTypeNotFound)
    else if DayOf(input.checkout) <= DayOf(input.checkin) then Some(BadPeriod(ErrInvalidStayPeriod))
    else if !AllNamesOk(input.guests) then Some(BadName(N.ErrInvalidName))
    else if |input.guests| == 0 then Some(Rejected(B.ErrNoGuest))
    else if |input.guests| > capacity.value then Some(Rejected(B.ErrOverCapacity))
    else if DayOf(input.checkin) < DayOf(now) then Some(Rejected(B.ErrPastStayPeriod))
    else None
  }

  /** The first objection to a change of guests, in the order in which ChangeGuests looks. */
  function GuestsRejection(db: Db, id: Uuid, input: seq<GuestInput>, capacities: map<Uuid, int>): Option<ServiceError> {
    if !AllNamesOk(input) then Some(BadName(N.ErrInvalidName))
    else if id !in db.bookings then Some(Failed(BookingNotFound))
    else if db.bookings[id].booking.roomTypeId !in capacities then Some(RoomTypeNotFound)
    else if db.HasStatus(id, B.Cancelled) then Some(Failed(BookingRefused(B.ErrInvalidTransition)))
    else if input == [] then Some(Failed(BookingRefused(B.ErrNoGuest)))
    else if |input| <= capacities[db.bookings[id].booking.roomTypeId] then None
    else Some(Failed(BookingRefused(B.ErrOverCapacity)))
  }

  class Service {
    var db: Db
    ghost var started: map<Uuid, Instant>

    ghost predicate Valid()
      reads this
    {
      Quiet(db, started)
    }

    /** `InventoryHolder.Release`: a missing hold or inventory counts as already released. `busy` rolls back. */
    method Release(k: InventoryId, b: Uuid, busy: bool) returns (released: bool)
      modifies this`db
      ensures released <==> ReleaseAnswered(old(db), k, b, if busy then Abort else Commit)
      ensures db == Call(old(db), k, I.ReleaseOp(b), if busy then Abort else Commit).0
    {
      if busy {
        return false;
      }
      match Mutate(db, k, I.ReleaseOp(b)) {
        case Ok(m) =>
          db := m.db;
          return true;
        case Err(e) =>
          return e == InventoryNotFound || e == Refused(I.ErrHoldNotFound);
      }
    }

    /**
     * Releases night after night and stops at the first that fails; `busy` are the inventories whose lock cannot be
     * had. The nights before the failing one are released, all other holds are as before.
     */
    method ReleaseAll(b: B.Booking, ghost now: Instant, ghost rest: seq<Uuid>, busy: set<InventoryId>)
      returns (err: Option<ServiceError>, ghost run: seq<Env>)
      requires b.period.Valid()
      modifies this`db
      ensures Execute(old(db), CancelRelease(b, 0, now, rest), run) == Next(db, CancelNext(rest, now))
      ensures err.None? <==> forall i :: 0 <= i < b.period.Nights() ==> b.Night(i) !in busy
      ensures err.None? ==> db == WithoutHolds(old(db), b, b.period.checkout)
      ensures err.Some? ==> err.value.CompensationFailed? && b.period.Contains(err.value.date)
                            && FirstBusy(b, busy, err.value.date)
                            && db == WithoutHolds(old(db), b, err.value.date)
    {
      hide Advance, Mutate, WithoutHolds;
      run := [];
      ReleaseNone(db, b);
      var i := 0;
      while i < b.period.Nights()
        invariant 0 <= i <= b.period.Nights()
        invariant db == WithoutHolds(old(db), b, b.period.checkin + i)
        invariant Execute(old(db), CancelRelease(b, 0, now, rest), run) == Next(db, CancelRelease(b, i, now, rest))
        invariant forall j :: 0 <= j < i ==> b.Night(j) !in busy
      {
        var k := b.Night(i);
        ReleaseOneMore(old(db), b, i);
        CancelReleases(old(db), CancelRelease(b, 0, now, rest), run, db, b, i, now, rest, Ends(k in busy));
        run := run + [Ends(k in busy)];
        var released := Release(k, b.id, k in busy);
        if !released {
          NightsBefore(b, busy, i);
          return Some(CompensationFailed(k.date)), run;
        }
        i := i + 1;
      }
      CancelReleases(old(db), CancelRelease(b, 0, now, rest), run, db, b, i, now, rest, Ends(false));
      run := run + [Ends(false)];
      err := None;
    }

    /**
     * Cancel: first the booking row, then its holds. On every quiet database, whatever a stopped Confirm or a partly
     * failed Cancel left behind, the booking ends Cancelled, and its holds are gone on exactly the nights before the
     * first one whose lock cannot be had; with every lock granted, on all of them, and none of its holds is left
     * anywhere. Everything else is as before, and the fee returned, with the error of a failed release too, is the one
     * fixed by the first cancellation. When the transaction on the row (`row`) fails, no hold is touched, and the row
     * is unless it was committed unseen.
     */
    method Cancel(id: Uuid, reason: B.Reason, now: Instant, row: Outcome, busy: set<InventoryId>, ghost rest: seq<Uuid>)
      returns (fee: int, err: Option<ServiceError>, ghost run: seq<Env>)
      requires Valid()
      modifies this`db
      ensures Valid()
      ensures db.nextUuid == old(db).nextUuid
      ensures id !in old(db).bookings ==> err == Some(Failed(BookingNotFound)) && fee == 0 && db == old(db)
      ensures id in old(db).bookings ==>
                db.bookings == if row == Abort then old(db).bookings
                    else Cancelling(old(db), {id}, reason, now).bookings
      ensures id in old(db).bookings && row != Commit ==>
                err == Some(Failed(Unavailable)) && fee == 0 && db.inventories == old(db).inventories
      ensures id in old(db).bookings && row == Commit ==>
                && fee == db.bookings[id].booking.cancellationFee
                && fee == (var b := old(db).bookings[id].booking; var days := b.period.checkin - DayOf(now);
                           if b.status == B.Cancelled then b.cancellationFee
                           else if b.status == B.Confirmed && reason == B.ByGuest then
                             (if days >= 7 then 0 else if days >= 3 then b.totalFee / 2 else b.totalFee)
                           else 0)
                && db.bookings == old(db).bookings[id := old(db).bookings[id].(booking :=
                     old(db).bookings[id].booking.(status := B.Cancelled, cancellationFee := fee))]
                && (err.None? ==> forall k :: !db.HasHold(k, id))
                && (forall x :: x != id ==> Untouched(old(db), db, x))
                && db.inventories == Releasing(old(db), {id}, busy)
                && (err.None? <==> forall k :: k in busy ==> !old(db).bookings[id].booking.Covers(k))
                && (err.None? ==> db == Cancelling(old(db), {id}, reason, now))
                && (err.Some? ==> err.value.CompensationFailed?
                                  && FirstBusy(old(db).bookings[id].booking, busy, err.value.date))
      ensures Execute(old(db), CancelStart(id, reason, now, rest), run) ==
              Next(db, if id in old(db).bookings && row == Commit then CancelNext(rest, now) else Finished)
    {
      hide Quiet, Cancelling, WithoutHolds, Releasing;
      var p0 := CancelStart(id, reason, now, rest);
      OneMore(db, p0, [], RowEnds(row));
      assert [] + [RowEnds(row)] == [RowEnds(row)];
      run := [RowEnds(row)];
      fee := 0;
      match UpdateBooking(db, id, B.CancelCall(reason, now)) {
        case Err(e) =>
          err := Some(Failed(e));
        case Ok(saved) =>
          CancellingOneRow(db, id, reason, now);
          if row == Commit {
            QuietFacts(db, started);
            CancelAll(db, id, reason, now);
            db := saved;
            var b := db.bookings[id].booking;
            NightsAreCovered(b);
            ghost var more;
            err, more := ReleaseAll(b, now, rest, busy);
            ReleasedKeepsRows(saved, b);
            ReleasingUpTo(old(db), saved, b, if err.None? then b.period.checkout else err.value.date, busy);
            Compose(old(db), p0, run, more);
            run := run + more;
            fee := b.cancellationFee;
            B.CancelFixesTheFee(old(db).bookings[id].booking, reason, now);
            OneCancelled(old(db), db, id, reason, now, busy);
          } else {
            db := if row == CommitUnseen then saved else db;
            err := Some(Failed(Unavailable));
          }
      }
      StaysQuiet(old(db), p0, run, started);
    }

    /** `ListStaleTemporaryHoldIds`. */
    method ListStale(before: Instant) returns (ids: seq<Uuid>)
      ensures IsStaleListing(db, before, ids)
      ensures forall x :: x in ids <==> db.HasStatus(x, B.TemporaryHold) && db.bookings[x].createdAt < before
    {
      ids := [];
      var todo := db.bookings.Keys;
      while todo != {}
        invariant todo <= db.bookings.Keys
        invariant forall x :: x in ids <==> x in db.bookings.Keys - todo && Stale(db.bookings[x], before)
        invariant forall i, j :: 0 <= i < j < |ids| ==> ids[i] != ids[j]
        decreases |todo|
      {
        var x :| x in todo;
        todo := todo - {x};
        if Stale(db.bookings[x], before) {
          ids := ids + [x];
        }
      }
    }

    /** `ListExpiredHoldInventoryIds`. */
    method ListExpired(now: Instant) returns (keys: seq<InventoryId>)
      ensures IsExpiredListing(db, now, keys)
      ensures forall k :: k in keys <==>
                exists x :: db.HasHold(k, x) && db.HoldOf(k, x).status == I.TemporaryHold
                            && db.HoldOf(k, x).expiredAt.Some? && db.HoldOf(k, x).expiredAt.value < now
    {
      keys := [];
      var todo := db.inventories.Keys;
      while todo != {}
        invariant todo <= db.inventories.Keys
        invariant forall k :: k in keys <==> k in db.inventories.Keys - todo && HasExpired(db.inventories[k], now)
        invariant forall i, j :: 0 <= i < j < |keys| ==> keys[i] != keys[j]
        decreases |todo|
      {
        var k :| k in todo;
        todo := todo - {k};
        if HasExpired(db.inventories[k], now) {
          keys := keys + [k];
        }
      }
      ListedAreExpired(db, now, keys);
    }

    /**
     * ExpireStale, with nothing else running. When the listing and every transaction on a row succeed, the bookings
     * that are temporary and old are Cancelled and counted, no other row changes, and with every lock granted their
     * holds are gone everywhere and nothing else changes. It ends early at the first row transaction that fails; a
     * failed release does not end it.
     */
    method ExpireStale(now: Instant, listed: bool, rows: map<Uuid, Outcome>, busy: set<InventoryId>)
      returns (err: Option<ServiceError>, expired: nat, ghost done: set<Uuid>, ghost stop: Option<Uuid>,
          ghost run: seq<Env>)
      requires Valid()
      modifies this`db
      ensures Valid() && expired == |done| && db.nextUuid == old(db).nextUuid
      ensures !listed ==> err == Some(Failed(Unavailable)) && db == old(db) && done == {}
      ensures listed ==> ExpiredUpTo(old(db), db, now, rows, done, stop) && err == StopError(stop)
      ensures listed ==> db.inventories == Releasing(old(db), done, busy)
      ensures listed && busy == {} ==> db.inventories == Cancelling(old(db), done, B.Expired, now).inventories
      ensures forall x :: x in old(db).bookings &&
                          (!old(db).HasStatus(x, B.TemporaryHold) ||
                              old(db).bookings[x].createdAt >= now - HOLD_TTL) ==>
                            Untouched(old(db), db, x)
      ensures err.None? ==>
                && db.bookings.Keys == old(db).bookings.Keys
                && (forall x :: x in old(db).bookings ==>
                      (db.bookings[x] != old(db).bookings[x] <==>
                       old(db).HasStatus(x, B.TemporaryHold) && old(db).bookings[x].createdAt < now - HOLD_TTL))
                && (forall x :: x in old(db).bookings && db.bookings[x] != old(db).bookings[x] ==>
                      && db.HasStatus(x, B.Cancelled) && db.bookings[x].booking.cancellationFee == 0
                      && (busy == {} ==> forall k :: !db.HasHold(k, x)))
      ensures Execute(old(db), ExpireList(now), run) == Next(db, Finished)
    {
      hide Cancelling, Execute, Advance, Quiet, StaleSet, ExpiredUpTo, Prefix, IsStaleListing, Releasing;
      var ids := ListStale(now - HOLD_TTL);
      ExpireLists(db, now, ids, if listed then Commit else Abort);
      run := [Env(if listed then Commit else Abort, 0, ids, [])];
      err, expired, done, stop := None, 0, {}, None;
      if !listed {
        EverybodyUntouched(db);
        return Some(Failed(Unavailable)), 0, {}, None, run;
      }
      CancellingNobody(db, B.Expired, now);
      ReleasingNobody(db, busy);
      QuietFacts(db, started);
      ListedAreStale(db, now - HOLD_TTL, ids);
      assert ids[0..] == ids;
      while expired < |ids|
        invariant 0 <= expired <= |ids| && |done| == expired && done == Prefix(ids, expired)
        invariant forall j :: 0 <= j < expired ==> RowEnd(rows, ids[j]) == Commit
        invariant db.bookings == Cancelling(old(db), done, B.Expired, now).bookings
        invariant db.inventories == Releasing(old(db), done, busy)
        invariant Execute(old(db), ExpireList(now), run) == Next(db, CancelNext(ids[expired..], now))
        invariant Valid() && db.nextUuid == old(db).nextUuid
      {
        var id := ids[expired];
        ghost var before := db;
        PrefixGrows(ids, expired);
        CancellingKeepsRows(old(db), done, B.Expired, now);
        var ok;
        ok, run := ExpireOne(id, now, RowEnd(rows, id), busy, old(db), run, ids[expired..]);
        if !ok {
          stop := Some(id);
          StoppedThere(old(db), before, db, now, rows, ids, done, id);
          ReleasingAll(old(db), done, B.Expired, now);
          PassMeaning(old(db), db, now, rows, done, stop, busy);
          return Some(Failed(Unavailable)), expired, done, stop, run;
        }
        CancellingStep(old(db), before, db, done, id, B.Expired, now);
        ReleasingStep(old(db), before, done, id, busy, B.Expired, now);
        assert ids[expired..][1..] == ids[expired + 1..];
        done := done + {id};
        expired := expired + 1;
      }
      WentThrough(old(db), db, now, rows, ids, done);
      ReleasingAll(old(db), done, B.Expired, now);
      PassMeaning(old(db), db, now, rows, done, stop, busy);
    }

    /** The body of ExpireStale's loop; a failed release is counted as expired and does not stop the loop. */
    method ExpireOne(id: Uuid, now: Instant, row: Outcome, busy: set<InventoryId>, ghost db0: Db, ghost sofar: seq<Env>,
        ghost ids: seq<Uuid>)
      returns (ok: bool, ghost run: seq<Env>)
      requires Valid() && id in db.bookings && ids != [] && ids[0] == id
      requires Execute(db0, ExpireList(now), sofar) == Next(db, CancelNext(ids, now))
      modifies this`db
      ensures Valid() && (ok <==> row == Commit) && db.nextUuid == old(db).nextUuid
      ensures db.bookings == if row == Abort then old(db).bookings
              else Cancelling(old(db), {id}, B.Expired, now).bookings
      ensures ok ==> db.inventories == Releasing(old(db), {id}, busy)
      ensures !ok ==> db.inventories == old(db).inventories
      ensures Execute(db0, ExpireList(now), run) == Next(db, if ok then CancelNext(ids[1..], now) else Finished)
    {
      hide Quiet, Cancelling, Execute, Advance, Releasing;
      var fee, err;
      ghost var more;
      fee, err, more := Cancel(id, B.Expired, now, row, busy, ids[1..]);
      Compose(db0, ExpireList(now), sofar, more);
      run := sofar + more;
      ok := err.None? || err.value.CompensationFailed?;
    }

    /**
     * CollectExpired, with nothing else running. When every transaction succeeds, over all inventories exactly the
     * temporary holds whose expiry lies before `now` disappear, and the number returned is how many they were. It ends
     * early at the first transaction that fails; a commit that fails after the holds were counted leaves them counted.
     */
    method CollectExpired(now: Instant, listed: bool, ends: map<InventoryId, CollectEnd>)
      returns (err: Option<ServiceError>, collected: nat, ghost done: set<InventoryId>, ghost stop: Option<InventoryId>,
          ghost run: seq<Env>)
      requires Valid()
      modifies this`db
      ensures Valid()
      ensures !listed ==> err == Some(Failed(Unavailable)) && db == old(db) && collected == 0
      ensures listed ==> CollectedUpTo(old(db), db, now, ends, done, stop, collected) && err == StopError(stop)
      ensures db.bookings == old(db).bookings
      ensures forall k, x :: db.HasHold(k, x) ==> old(db).HasHold(k, x) && db.HoldOf(k, x) == old(db).HoldOf(k, x)
      ensures forall k, x :: old(db).HasHold(k, x) && !db.HasHold(k, x) ==>
                var h := old(db).HoldOf(k, x);
                h.status == I.TemporaryHold && h.expiredAt.Some? && h.expiredAt.value < now
      ensures err.None? ==>
                && (forall k, x :: old(db).HasHold(k, x) ==>
                      var h := old(db).HoldOf(k, x);
                      (!db.HasHold(k, x) <==>
                          h.status == I.TemporaryHold && h.expiredAt.Some? && h.expiredAt.value < now))
                && collected == |Lost(old(db), db)|
      ensures Execute(old(db), CollectList(now), run) == Next(db, Finished)
    {
      hide Collecting, Execute, Advance, Quiet, ExpiredHolds, CollectedUpTo, Mutate;
      var keys := ListExpired(now);
      ghost var listing := Env(if listed then Commit else Abort, 0, [], keys);
      CollectLists(db, now, keys, if listed then Commit else Abort);
      run := [listing];
      err, collected, done, stop := None, 0, {}, None;
      if !listed {
        return Some(Failed(Unavailable)), 0, {}, None, run;
      }
      var i := 0;
      CollectingNothing(db, now);
      assert keys[0..] == keys && Prefix(keys, 0) == {};
      while i < |keys|
        invariant 0 <= i <= |keys| && done == Prefix(keys, i)
        invariant forall j :: 0 <= j < i ==> EndOf(ends, keys[j]) == Collects
        invariant db == Collecting(old(db), done, now)
        invariant collected == |ExpiredHolds(old(db), done, now)|
        invariant run != [] && run[0] == listing
        invariant Execute(old(db), CollectList(now), run) == Next(db, CollectLoop(keys[i..], now))
      {
        var k := keys[i];
        assert k in keys;
        PrefixGrows(keys, i);
        CollectOneMore(old(db), done, k, now);
        CollectGoesOn(old(db), CollectList(now), run, db, keys[i..], now, OutcomeOf(EndOf(ends, k)));
        run := run + [RowEnds(OutcomeOf(EndOf(ends, k)))];
        assert keys[i..][1..] == keys[i + 1..];
        var n := CollectOne(k, now, EndOf(ends, k));
        collected := collected + n;
        if EndOf(ends, k) != Collects {
          stop := Some(k);
          CollectingStopped(old(db), db, now, ends, keys, i, done, collected);
          CollectedMeaning(old(db), db, now, ends, done, stop, collected);
          StaysQuiet(old(db), CollectList(now), run, started);
          return Some(Failed(Unavailable)), collected, done, stop, run;
        }
        done := done + {k};
        i := i + 1;
      }
      CollectGoesOn(old(db), CollectList(now), run, db, [], now, Commit);
      run := run + [RowEnds(Commit)];
      CollectingWentThrough(old(db), db, now, ends, keys, done, collected);
      CollectedMeaning(old(db), db, now, ends, done, stop, collected);
      StaysQuiet(old(db), CollectList(now), run, started);
    }

    /** One transaction of CollectExpired; nothing is saved when nothing has expired. */
    method CollectOne(k: InventoryId, now: Instant, end: CollectEnd) returns (n: nat)
      requires k in db.inventories
      modifies this`db
      ensures var m := Mutate(old(db), k, I.CollectOp(now));
              && m.Ok? && m.value.reply.Collected?
              && db == (if OutcomeOf(end) == Abort then old(db) else m.value.db)
              && n == (if end == LockRefused then 0 else m.value.reply.count)
    {
      var m := Mutate(db, k, I.CollectOp(now)).value;
      if end == LockRefused {
        return 0;
      }
      n := m.reply.count;
      if n == 0 {
        assert db.inventories[k].holds - {} == db.inventories[k].holds;
        assert m.db.inventories == db.inventories;
        return;
      }
      db := if end == CommitFails then db else m.db;
    }

    // ---- Confirm ----

    /**
     * One of Confirm's two loops: StartPayment on every night, then Confirm on every night; stops at the first
     * failure.
     */
    method PassOverNights(b: B.Booking, starting: bool, busy: set<InventoryId>, ghost db0: Db, ghost p0: Proc,
        ghost run0: seq<Env>)
      returns (err: Option<ServiceError>, ghost run: seq<Env>)
      requires b.period.Valid() && Execute(db0, p0, run0) == Next(db, Passing(starting, b, 0))
      requires var from := if starting then I.TemporaryHold else I.ProcessingPayment;
               forall k :: b.Covers(k) && db.HasHold(k, b.id) ==> db.HoldOf(k, b.id).status == from
      modifies this`db
      ensures db.bookings == old(db).bookings
      ensures err.None? <==> CanPass(old(db), b, busy)
      ensures err.None? ==>
                && db == Moved(old(db), b, b.period.checkout, if starting then I.ProcessingPayment else I.Confirmed)
                && Execute(db0, p0, run) == Next(db, Passing(starting, b, b.period.Nights()))
      ensures err.Some? ==>
                && err.value.Failed?
                && MovedUntilStopped(old(db), db, b, busy, if starting then I.ProcessingPayment else I.Confirmed,
                                     err.value.failure)
      ensures err.Some? ==> Execute(db0, p0, run) == Next(db, Finished)
    {
      hide Advance, Moved, Mutate, MovedUntilStopped;
      var status := if starting then I.ProcessingPayment else I.Confirmed;
      run := run0;
      var i := 0;
      MovedNone(db, b, status);
      while i < b.period.Nights()
        invariant 0 <= i <= b.period.Nights()
        invariant db == Moved(old(db), b, b.period.checkin + i, status) && db.bookings == old(db).bookings
        invariant Execute(db0, p0, run) == Next(db, Passing(starting, b, i))
        invariant forall j :: 0 <= j < i ==> b.Night(j) !in busy && old(db).HasHold(b.Night(j), b.id)
      {
        var k := b.Night(i);
        assert b.Covers(k);
        MoveNext(old(db), b, i, starting);
        ConfirmMoves(db0, p0, run, db, starting, b, i, k in busy);
        run := run + [Ends(k in busy)];
        if k in busy || !old(db).HasHold(k, b.id) {
          StopsHere(old(db), db, b, busy, status, i);
        }
        if k in busy {
          return Some(Failed(Unavailable)), run;
        }
        var m := Mutate(db, k, PassOp(starting, b.id));
        if m.Err? {
          return Some(Failed(m.error)), run;
        }
        db := m.value.db;
        MovedKeepsRows(old(db), b, b.period.checkin + i + 1, status);
        i := i + 1;
      }
      err := None;
    }

    /**
     * Confirm succeeds exactly for a TemporaryHold booking that still holds every night and gets every lock, when both
     * transactions on its row commit (`first`, `last`); then the booking and all its holds are Confirmed and nothing
     * else changes. Refused at the start it changes nothing; failing at the first night without lock or hold it leaves
     * the booking in ProcessingPayment, and the holds of exactly the earlier nights with it; failing at the end it
     * leaves every hold Confirmed under a booking in ProcessingPayment, unless that end was committed unseen.
     */
    method Confirm(id: Uuid, first: Outcome, last: Outcome, busy: set<InventoryId>)
      returns (err: Option<ServiceError>, ghost run: seq<Env>)
      requires Valid()
      modifies this`db
      ensures Valid()
      ensures err.None? <==>
                && first == Commit && last == Commit && old(db).HasStatus(id, B.TemporaryHold)
                && CanPass(old(db), old(db).bookings[id].booking, busy)
      ensures !old(db).HasStatus(id, B.TemporaryHold) || first == Abort ==> db == old(db)
      ensures id !in old(db).bookings ==> err == Some(Failed(BookingNotFound))
      ensures id in old(db).bookings && !old(db).HasStatus(id, B.TemporaryHold) ==>
                err == Some(Failed(BookingRefused(B.ErrInvalidTransition)))
      ensures old(db).HasStatus(id, B.TemporaryHold) && first != Commit ==> err == Some(Failed(Unavailable))
      ensures err.None? ==>
                && db.HasStatus(id, B.Confirmed) && db.HoldsEveryNight(id)
                && (forall k :: db.HasHold(k, id) ==>
                      db.HoldOf(k, id).status == I.Confirmed && db.HoldOf(k, id).expiredAt == None)
      ensures forall x :: x != id ==> Untouched(old(db), db, x)
      ensures old(db).HasStatus(id, B.TemporaryHold) && first != Abort ==>
                var row := old(db).bookings[id]; var b := row.booking;
                var paid := first == Commit && CanPass(old(db), b, busy);
                && db.bookings == old(db).bookings[id := row.(booking :=
                     b.(status := if paid && last != Abort then B.Confirmed else B.ProcessingPayment))]
                && (paid ==> db.inventories == Moved(old(db), b, b.period.checkout, I.Confirmed).inventories)
                && (!paid && first == Commit ==>
                      && err.Some? && err.value.Failed?
                      && MovedUntilStopped(old(db), db, b, busy, I.ProcessingPayment, err.value.failure))
                && (paid ==> err == if last == Commit then None else Some(Failed(Unavailable)))
                && (first != Commit ==> db.inventories == old(db).inventories)
      ensures Execute(old(db), ConfirmStart(id), run) == Next(db, Finished)
    {
      hide Advance, Moved, Mutate, Quiet, Inv, MovedUntilStopped, Untouched;
      EverybodyUntouched(db);
      ghost var was := db;
      ConfirmStarts(db, id, first);
      run := [RowEnds(first)];
      match UpdateBooking(db, id, B.StartPaymentCall) {
        case Err(e) =>
          err := Some(Failed(e));
        case Ok(saved) =>
          if first != Commit {
            RowSparesOthers(db, saved, id);
            db := if first == CommitUnseen then saved else db;
            err := Some(Failed(Unavailable));
          } else {
            PaymentBegins(db, id, started);
            SameHolds(db, saved);
            db := saved;
            var b := db.bookings[id].booking;
            assert forall i :: old(db).bookings[id].booking.Night(i) == b.Night(i);
            err, run := PassOverNights(b, true, busy, old(db), ConfirmStart(id), run);
            if err.Some? {
              StoppedIgnoresRows(old(db), saved, db, old(db).bookings[id].booking, b, busy, I.ProcessingPayment,
                  err.value.failure);
              StoppedMoveSparesOthers(was, db, was.bookings[id].booking, busy, I.ProcessingPayment, err.value.failure);
            } else {
              MovedTwice(saved, b);
              ConfirmTurns(old(db), ConfirmStart(id), run, db, b);
              run := run + [Ends(false)];
              err, run := PassOverNights(b, false, busy, old(db), ConfirmStart(id), run);
              assert err.None?;
              ConfirmEnds(old(db), ConfirmStart(id), run, db, b, last);
              run := run + [RowEnds(last)];
              var paid := UpdateBooking(db, id, B.ConfirmCall);
              assert paid.Ok?;
              MovedIgnoresRows(old(db), saved, old(db).bookings[id].booking, b);
              db := if last != Abort then paid.value else db;
              MoveSparesOthers(was, db, was.bookings[id].booking, b.period.checkout, I.Confirmed);
              err := if last == Commit then None else Some(Failed(Unavailable));
            }
          }
      }
      StaysQuiet(old(db), ConfirmStart(id), run, started);
      if err.None? {
        QuietFacts(db, started);
        ConfirmedFacts(db, id);
      }
    }

    // ---- Book ----

    /**
     * holdAllDates: holds the nights in order and adds up their fees. At the first night that cannot be held it gives
     * the earlier ones back, except on inventories in `lost`, whose Release fails, and saves the booking as Cancelled,
     * unless that save fails as well (`last`).
     */
    method HoldAllDates(b: B.Booking, now: Instant, busy: set<InventoryId>, lost: set<InventoryId>, last: Outcome,
                        ghost db0: Db, ghost run0: seq<Env>)
      returns (r: Result<int, Failure>, ghost held: nat, ghost run: seq<Env>)
      requires InventoriesOk(db) && (forall k :: !db.HasHold(k, b.id)) && b.Valid() && b.status == B.TemporaryHold
      requires Execute(db0, BookSave(b, now), run0) == Next(db, BookHold(b, now, 0, 0))
      modifies this`db
      ensures r.Ok? <==> AllBookable(old(db), b, busy)
      ensures r.Ok? ==>
                && r.value == FeeSum(old(db), b, b.period.Nights()) && db.bookings == old(db).bookings
                && db.inventories == Taken(old(db), b, now, FirstNights(b, b.period.Nights()))
                && Execute(db0, BookSave(b, now), run) == Next(db, BookHold(b, now, b.period.Nights(), r.value))
      ensures r.Err? ==>
                && FirstFailure(old(db), b, busy, held, r.error)
                && db.inventories == Taken(old(db), b, now, FirstNights(b, held) * lost)
                && db.bookings == AfterCompensation(old(db), b, now, last)
                && Execute(db0, BookSave(b, now), run) == Next(db, Finished)
    {
      hide Advance, Mutate, Taken, Bookable, NightFailure;
      run := run0;
      var total, i := 0, 0;
      HoldingBegins(db, b, now);
      while i < b.period.Nights()
        invariant 0 <= i <= b.period.Nights()
        invariant db == Holding(old(db), b, now, i)
        invariant total == FeeSum(old(db), b, i)
        invariant forall j :: 0 <= j < i ==> Bookable(old(db), b.Night(j), busy) && Bookable(old(db), b.Night(j), {})
        invariant Execute(db0, BookSave(b, now), run) == Next(db, BookHold(b, now, i, total))
      {
        var slot;
        slot, run := HoldOne(b, i, total, now, busy, old(db), db0, run);
        if slot.Err? {
          run := Compensate(b, i, now, lost, last, old(db), db0, run);
          return Err(slot.error), i, run;
        }
        total := total + slot.value.feeAmount;
        i := i + 1;
      }
      r, held := Result.Ok(total), i;
    }

    /** The body of holdAllDates' loop. */
    method HoldOne(b: B.Booking, i: nat, ghost total: int, now: Instant, busy: set<InventoryId>,
                   ghost start: Db, ghost db0: Db, ghost run0: seq<Env>)
      returns (slot: Result<I.Reply, Failure>, ghost run: seq<Env>)
      requires InventoriesOk(start) && (forall k :: !start.HasHold(k, b.id)) && i < b.period.Nights()
      requires db == Holding(start, b, now, i) && total == FeeSum(start, b, i)
      requires Execute(db0, BookSave(b, now), run0) == Next(db, BookHold(b, now, i, total))
      modifies this`db
      ensures slot.Ok? <==> Bookable(start, b.Night(i), busy)
      ensures slot.Ok? ==>
                && Bookable(start, b.Night(i), {}) && db == Holding(start, b, now, i + 1)
                && slot.value.Held? && total + slot.value.feeAmount == FeeSum(start, b, i + 1)
                && Execute(db0, BookSave(b, now), run) ==
                     Next(db, BookHold(b, now, i + 1, total + slot.value.feeAmount))
      ensures slot.Err? ==>
                && slot.error == NightFailure(start, b.Night(i), busy)
                && db == old(db).(nextUuid := old(db).nextUuid + 1)
                && Execute(db0, BookSave(b, now), run) == Next(db, BookRelease(b, now, i, 0))
    {
      var k := b.Night(i);
      HoldNext(start, b, now, i);
      HoldStepRuns(start, b, now, i, total, k in busy, db0, run0);
      run := run0 + [Ends(k in busy)];
      slot := Hold(k, b, now, k in busy);
    }

    /** One Hold transaction under a fresh hold identifier. */
    method Hold(k: InventoryId, b: B.Booking, now: Instant, busy: bool) returns (r: Result<I.Reply, Failure>)
      modifies this`db
      ensures r.Ok? <==> !busy && Mutate(old(db), k, HoldNight(b, now, old(db).nextUuid)).Ok?
      ensures r.Ok? ==>
                var m := Mutate(old(db), k, HoldNight(b, now, old(db).nextUuid)).value;
                r.value == m.reply && db == m.db.(nextUuid := old(db).nextUuid + 1)
      ensures r.Err? ==> db == old(db).(nextUuid := old(db).nextUuid + 1)
      ensures r.Err? ==> r.error == if busy then Unavailable
              else Mutate(old(db), k, HoldNight(b, now, old(db).nextUuid)).error
    {
      var holdId := db.nextUuid;
      db := db.(nextUuid := holdId + 1);
      if busy {
        return Err(Unavailable);
      }
      match Mutate(db, k, HoldNight(b, now, holdId)) {
        case Ok(a) =>
          db := a.db;
          r := Result.Ok(a.reply);
        case Err(e) =>
          r := Err(e);
      }
    }

    /** The body of compensate's loop; whether the Release call fails is ignored. */
    method GiveBack(b: B.Booking, ghost held: nat, j: nat, ghost now: Instant, lost: set<InventoryId>,
                    ghost start: Db, ghost db0: Db, ghost run0: seq<Env>)
      returns (ghost run: seq<Env>)
      requires j < held <= b.period.Nights() && InventoriesOk(start) && (forall k :: !start.HasHold(k, b.id))
      requires Bookable(start, b.Night(j), {})
      requires db.inventories == Taken(start, b, now, Remaining(b, held, j, lost))
      requires Execute(db0, BookSave(b, now), run0) == Next(db, BookRelease(b, now, held, j))
      modifies this`db
      ensures db == old(db).(inventories := Taken(start, b, now, Remaining(b, held, j + 1, lost)))
      ensures Execute(db0, BookSave(b, now), run) == Next(db, BookRelease(b, now, held, j + 1))
    {
      var k := b.Night(j);
      GiveBackNext(start, db, b, now, held, j, lost);
      BookGivesBack(db0, BookSave(b, now), run0, db, b, now, held, j, Ends(k in lost));
      run := run0 + [Ends(k in lost)];
      var _ := Release(k, b.id, k in lost);
    }

    /** compensate: gives the held nights back and saves the booking as Cancelled, ignoring failures of either. */
    method Compensate(b: B.Booking, held: nat, now: Instant, lost: set<InventoryId>, last: Outcome,
                      ghost start: Db, ghost db0: Db, ghost run0: seq<Env>)
      returns (ghost run: seq<Env>)
      requires held <= b.period.Nights() && b.status == B.TemporaryHold
      requires InventoriesOk(start) && (forall k :: !start.HasHold(k, b.id))
      requires db.inventories == Taken(start, b, now, FirstNights(b, held))
      requires forall j :: 0 <= j < held ==> Bookable(start, b.Night(j), {})
      requires Execute(db0, BookSave(b, now), run0) == Next(db, BookRelease(b, now, held, 0))
      modifies this`db
      ensures db.inventories == Taken(start, b, now, FirstNights(b, held) * lost)
      ensures db.bookings == AfterCompensation(old(db), b, now, last)
      ensures Execute(db0, BookSave(b, now), run) == Next(db, Finished)
    {
      hide Advance, Mutate, Taken, Bookable;
      run := run0;
      var j := 0;
      RemainingSteps(b, held, 0, lost);
      while j < held
        invariant 0 <= j <= held
        invariant db == old(db).(inventories := Taken(start, b, now, Remaining(b, held, j, lost)))
        invariant Execute(db0, BookSave(b, now), run) == Next(db, BookRelease(b, now, held, j))
      {
        run := GiveBack(b, held, j, now, lost, start, db0, run);
        j := j + 1;
      }
      BookEnds(db0, BookSave(b, now), run, db, BookRelease(b, now, held, held), RowEnds(last));
      run := run + [RowEnds(last)];
      db := if last == Abort then db else SaveBooking(db, B.Cancel(b, B.Expired, now), 0);
    }

    method BuildGuests(input: seq<GuestInput>) returns (r: Result<seq<B.Guest>, N.NameError>)
      requires Valid()
      modifies this`db
      ensures Valid() && db == old(db).(nextUuid := db.nextUuid) && db.nextUuid >= old(db).nextUuid
      ensures r.Ok? <==> AllNamesOk(input)
      ensures r.Ok? ==> r.value == GuestsOf(input, old(db).nextUuid) && db.nextUuid == old(db).nextUuid + |input|
    {
      hide Quiet;
      var guests: seq<B.Guest> := [];
      var i := 0;
      while i < |input|
        invariant 0 <= i <= |input| && |guests| == i
        invariant Valid() && db == old(db).(nextUuid := old(db).nextUuid + i)
        invariant forall j :: 0 <= j < i ==>
                    && N.NewName(input[j].firstName, input[j].lastName).Ok?
                    && guests[j] == B.Guest(old(db).nextUuid + j,
                         N.NewName(input[j].firstName, input[j].lastName).value)
      {
        var name := N.NewName(input[i].firstName, input[i].lastName);
        if name.Err? {
          return Err(name.error);
        }
        guests := guests + [B.Guest(db.nextUuid, name.value)];
        MoreIds(db, db.nextUuid + 1, started);
        db := db.(nextUuid := db.nextUuid + 1);
        i := i + 1;
      }
      assert guests == GuestsOf(input, old(db).nextUuid);
      r := Result.Ok(guests);
    }

    /**
     * ChangeGuests: the objections in the order of the source; otherwise the guests of this booking are replaced, and
     * nothing else changes. `row` is how its transaction ends.
     */
    method ChangeGuests(id: Uuid, input: seq<GuestInput>, capacities: map<Uuid, int>, row: Outcome)
      returns (err: Option<ServiceError>, ghost run: seq<Env>)
      requires Valid()
      modifies this`db
      ensures Valid()
      ensures var objection := GuestsRejection(old(db), id, input, capacities);
              err == if objection.None? && row != Commit then Some(Failed(Unavailable)) else objection
      ensures GuestsRejection(old(db), id, input, capacities).Some? || row == Abort ==>
              db == old(db).(nextUuid := db.nextUuid)
      ensures GuestsRejection(old(db), id, input, capacities).None? ==>
                var was := old(db).bookings[id];
                && db.inventories == old(db).inventories
                && (row != Abort ==>
                      db.bookings == old(db).bookings[id :=
                          was.(booking := was.booking.(guests := GuestsOf(input, old(db).nextUuid)))]
                      && NamedAs(db.bookings[id].booking.guests, input))
                && Execute(old(db).(nextUuid := db.nextUuid),
                           EditGuests(id, GuestsOf(input, old(db).nextUuid), capacities[was.booking.roomTypeId]),
                               run) == Next(db, Finished)
    {
      hide Quiet;
      run := [];
      var guests := BuildGuests(input);
      if guests.Err? {
        assert !AllNamesOk(input) && guests.error.ErrInvalidName?;
        return Some(BadName(guests.error)), run;
      }
      if id !in db.bookings {
        return Some(Failed(BookingNotFound)), run;
      }
      var roomTypeId := db.bookings[id].booking.roomTypeId;
      if roomTypeId !in capacities {
        return Some(RoomTypeNotFound), run;
      }
      BuiltGuestsAreNamed(input, old(db).nextUuid);
      var call := B.ChangeGuestsCall(guests.value, capacities[roomTypeId]);
      match UpdateBooking(db, id, call) {
        case Err(e) =>
          return Some(Failed(e)), run;
        case Ok(saved) =>
          var p := EditGuests(id, guests.value, capacities[roomTypeId]);
          OneMore(db, p, [], RowEnds(row));
          run := [RowEnds(row)];
          StaysQuiet(db, p, run, started);
          db := if row == Abort then db else saved;
          return if row == Commit then None else Some(Failed(Unavailable)), run;
      }
    }

    /**
     * Book, from the first save on, for a booking under a fresh identifier; `at` is the database clock, `first` and
     * `last` are how its two saves end. All or nothing: either every night was bookable, and the booking is stored
     * with the sum of the nightly fees and holds every night; or some night was not, the booking is stored as
     * Cancelled, and every inventory is as before, except that a hold whose Release was lost stays behind. A first
     * save that fails ends it with no hold taken; a last save that is rolled back leaves a TemporaryHold booking
     * without total.
     */
    method BookAccepted(b: B.Booking, now: Instant, at: Instant, first: Outcome, last: Outcome,
                        busy: set<InventoryId>, lost: set<InventoryId>)
      returns (r: Result<B.Booking, Failure>, ghost held: nat, ghost run: seq<Env>)
      requires Valid() && b.id == db.nextUuid && b.Valid() && b.status == B.TemporaryHold && b.totalFee == 0
      modifies this
      ensures Valid() && started == old(started)[b.id := now]
      ensures TookOnly(old(db), db, b.id, now)
      ensures first == Commit && AllBookable(old(db), b, busy) ==> forall k :: b.Covers(k) ==> db.HasHold(k, b.id)
      ensures r.Ok? <==> first == Commit && last == Commit && AllBookable(old(db), b, busy)
      ensures r.Ok? ==> r.value == WithTotal(old(db), b)
      ensures first != Commit ==>
                && r == Err(Unavailable) && db.inventories == old(db).inventories
                && db.bookings == if first == Abort then old(db).bookings
                     else old(db).bookings[b.id := BookingRow(b, at)]
      ensures first == Commit && AllBookable(old(db), b, busy) ==>
                && db.bookings == old(db).bookings[b.id :=
                     BookingRow(if last == Abort then b else WithTotal(old(db), b), at)]
                && db.inventories == Taken(old(db).(nextUuid := b.id + 1), b, now, FirstNights(b, b.period.Nights()))
                && (r.Err? ==> r.error == Unavailable)
      ensures first == Commit && !AllBookable(old(db), b, busy) ==>
                && FirstFailure(old(db), b, busy, held, r.error)
                && db.bookings == old(db).bookings[b.id :=
                     BookingRow(if last == Abort then b else B.Cancel(b, B.Expired, now), at)]
                && db.inventories == Taken(old(db).(nextUuid := b.id + 1), b, now, FirstNights(b, held) * lost)
                && (lost == {} ==> db.inventories == old(db).inventories)
      ensures Execute(old(db).(nextUuid := b.id + 1), BookSave(b, now), run) == Next(db, Finished)
    {
      hide Advance, Mutate, Taken, Bookable, AllBookable, Quiet, Inv, FirstNights, FirstFailure, FeeSum, B.Cancel,
          TookOnly, Execute;
      B.CancelCancels(b, B.Expired, now);
      var db0 := db.(nextUuid := b.id + 1);
      held := 0;
      UnknownBooking(db, b.id, started);
      SameInventories(db, db0, b, now, busy);
      db := db0;
      BookSaves(db0, b, now, at, first);
      run := [Env(first, at, [], [])];
      db := if first == Abort then db else SaveBooking(db, b, at);
      if first != Commit {
        r := Err(Unavailable);
        NothingTaken(db0, b, now);
        TakingIsAll(old(db), db0, db, b, now, {});
      } else {
        SameInventories(db0, db, b, now, busy);
        var total;
        total, held, run := HoldAllDates(b, now, busy, lost, last, db0, run);
        match total {
          case Err(e) =>
            r := Err(e);
            assert FirstNights(b, held) * {} == {};
            NothingTaken(db0, b, now);
            TakingIsAll(old(db), db0, db, b, now, FirstNights(b, held) * lost);
          case Ok(sum) =>
            FeesAddUp(db0, b, b.period.Nights());
            var fixed := B.FixTotalFee(b, sum).value;
            BookEnds(db0, BookSave(b, now), run, db, BookHold(b, now, b.period.Nights(), sum), RowEnds(last));
            run := run + [RowEnds(last)];
            db := if last == Abort then db else SaveBooking(db, fixed, 0);
            TakingIsAll(old(db), db0, db, b, now, FirstNights(b, b.period.Nights()));
            BusyOrNot(old(db), b, busy);
            EveryNightTaken(old(db), db, b);
            r := if last == Commit then Result.Ok(fixed) else Err(Unavailable);
        }
      }
      BookStaysQuiet(old(db), b, now, run, started);
      started := started[b.id := now];
    }

    /** Book: the checks in the order of the source, then the saga. */
    method Book(input: BookInput, capacity: Option<int>, now: Instant, at: Instant, first: Outcome, last: Outcome,
                busy: set<InventoryId>, lost: set<InventoryId>)
      returns (r: Result<B.Booking, ServiceError>)
      requires Valid()
      modifies this
      ensures Valid()
      ensures Rejection(input, capacity, now).None? <==> input.Acceptable(capacity, now)
      ensures !input.Acceptable(capacity, now) ==>
              r == Err(Rejection(input, capacity, now).value) && db == old(db).(nextUuid := db.nextUuid)
      ensures r.Ok? ==>
                && BookedFor(r.value, input) && r.value.status == B.TemporaryHold
                && r.value.id !in old(db).bookings && r.value.id in db.bookings
                && db.bookings[r.value.id] == BookingRow(r.value, at)
                && db.HoldsEveryNight(r.value.id)
      ensures r.Ok? ==>
                && capacity.Some? && 1 <= |input.guests| <= capacity.value
                && DayOf(now) <= DayOf(input.checkin) < DayOf(input.checkout)
      ensures forall x :: x in db.bookings && x !in old(db).bookings ==>
                && BookedFor(db.bookings[x].booking, input) && db.bookings[x].createdAt == at
                && db.bookings[x].booking.status in {B.TemporaryHold, B.Cancelled}
      ensures forall x :: x in old(db).bookings ==> Untouched(old(db), db, x)
      ensures r.Ok? ==> forall k :: db.HasHold(k, r.value.id) ==>
                && r.value.Covers(k) && db.HoldOf(k, r.value.id).status == I.TemporaryHold
                && db.HoldOf(k, r.value.id).expiredAt == Some(now + HOLD_TTL)
      ensures input.Acceptable(capacity, now) ==>
                var b := FreshBooking(old(db), input);
                && (r.Ok? <==> first == Commit && last == Commit && AllBookable(old(db), b, busy))
                && (r.Ok? ==> r.value == WithTotal(old(db), b))
                && (first != Commit || (last != Commit && AllBookable(old(db), b, busy)) ==>
                     r == Err(Failed(Unavailable)))
                && (first != Commit ==>
                      && db.inventories == old(db).inventories
                      && db.bookings == if first == Abort then old(db).bookings
                           else old(db).bookings[b.id := BookingRow(b, at)])
                && (first == Commit && AllBookable(old(db), b, busy) ==>
                      && db.bookings == old(db).bookings[b.id :=
                           BookingRow(if last == Abort then b else WithTotal(old(db), b), at)]
                      && db.inventories == Taken(old(db).(nextUuid := b.id + 1), b, now,
                           FirstNights(b, b.period.Nights())))
                && (first == Commit && !AllBookable(old(db), b, busy) ==>
                      && r.Err? && r.error.Failed? &&
                           (exists i: nat :: FirstFailure(old(db), b, busy, i, r.error.failure))
                      && db.bookings == old(db).bookings[b.id :=
                           BookingRow(if last == Abort then b else B.Cancel(b, B.Expired, now), at)]
                      && (lost == {} ==> db.inventories == old(db).inventories))
    {
      hide Advance, Mutate, Taken, Bookable, AllBookable, Quiet, Inv, FirstNights, FirstFailure, FeeSum, B.Cancel,
          TookOnly, Untouched, BookedFor, InventoriesOk, DbOk;
      IdsAreInvisible(db, db.nextUuid);
      QuietFacts(db, started);
      if capacity.None? {
        return Err(RoomTypeNotFound);
      }
      var period := NewStayPeriod(input.checkin, input.checkout);
      if period.Err? {
        return Err(BadPeriod(period.error));
      }
      var guests := BuildGuests(input.guests);
      IdsAreInvisible(old(db), db.nextUuid);
      if guests.Err? {
        assert !input.NamesOk() && guests.error.ErrInvalidName?;
        return Err(BadName(guests.error));
      }
      var b := B.NewBooking(db.nextUuid, input.bookerId, input.roomTypeId, period.value, guests.value, 0,
           capacity.value, now);
      if b.Err? {
        return Err(Rejected(b.error));
      }
      assert b.value == FreshBooking(old(db), input);
      ghost var before := db;
      SameInventories(old(db), db, b.value, now, busy);
      var booked;
      ghost var held, run;
      booked, held, run := BookAccepted(b.value, now, at, first, last, busy, lost);
      QuietFacts(db, started);
      TookIgnoresIds(old(db), before, db, b.value.id, now);
      DbParts(old(db));
      DbParts(db);
      BookLeaves(old(db), db, input, now, at);
      r := match booked case Ok(v) => Result.Ok(v) case Err(e) => Err(Failed(e));
    }
  }
}
