/** What the uninterrupted operations of the service do to the database as a whole, written without their loops. */
module Outcomes {
  import opened Common
  import opened Transactions
  import opened SagaInvariant
  import opened Saga
  import opened SagaRuns
  import I = InventorySpec
  import B = BookingSpec

  /** The database without b's holds on the nights of its stay before the given day. */
  function WithoutHolds(db: Db, b: B.Booking, until: Day): Db {
    db.(inventories := map k | k in db.inventories ::
          if b.Covers(k) && k.date < until
          then db.inventories[k].(holds := db.inventories[k].holds - {b.id})
          else db.inventories[k])
  }

  /** The bookings in s cancelled, and none of their holds left on any inventory. */
  function Cancelling(db: Db, s: set<Uuid>, reason: B.Reason, now: Instant): Db {
    db.(bookings := map x | x in db.bookings ::
          if x in s then db.bookings[x].(booking := B.Cancel(db.bookings[x].booking, reason, now)) else db.bookings[x],
        inventories := map k | k in db.inventories ::
          db.inventories[k].(holds := db.inventories[k].holds - s))
  }

  /** Every inventory in s without its expired temporary holds. */
  function Collecting(db: Db, s: set<InventoryId>, now: Instant): Db {
    db.(inventories := map k | k in db.inventories ::
          if k in s then I.Apply(db.inventories[k], I.CollectOp(now)).value.state else db.inventories[k])
  }

  lemma ReleaseOneMore(db: Db, b: B.Booking, i: int)
    requires 0 <= i < b.period.Nights()
    ensures var d := WithoutHolds(db, b, b.period.checkin + i);
            var after := WithoutHolds(db, b, b.period.checkin + i + 1);
            match Mutate(d, b.Night(i), I.ReleaseOp(b.id))
            case Ok(m) => m.db == after
            case Err(e) => d == after && e in {InventoryNotFound, Refused(I.ErrHoldNotFound)}
  {
    var d := WithoutHolds(db, b, b.period.checkin + i);
    var after := WithoutHolds(db, b, b.period.checkin + i + 1);
    forall k | k in db.inventories && k != b.Night(i) ensures d.inventories[k] == after.inventories[k] {
    }
    var k := b.Night(i);
    if k in db.inventories {
      assert d.inventories[k] == db.inventories[k];
      if b.id !in db.inventories[k].holds {
        assert db.inventories[k].holds - {b.id} == db.inventories[k].holds;
        assert d.inventories == after.inventories;
      } else {
        assert Mutate(d, k, I.ReleaseOp(b.id)).value.db.inventories == after.inventories;
      }
    } else {
      assert d.inventories == after.inventories;
    }
  }

  lemma ReleaseNone(db: Db, b: B.Booking)
    ensures WithoutHolds(db, b, b.period.checkin) == db
  {
    assert WithoutHolds(db, b, b.period.checkin).inventories == db.inventories;
  }

  lemma ReleasedKeepsRows(db: Db, b: B.Booking)
    ensures forall until :: WithoutHolds(db, b, until).bookings == db.bookings
    ensures forall until :: WithoutHolds(db, b, until).nextUuid == db.nextUuid
  {
  }

  lemma NightsAreCovered(b: B.Booking)
    ensures forall k :: b.Covers(k) ==> k == b.Night(k.date - b.period.checkin)
    ensures forall i :: 0 <= i < b.period.Nights() ==> b.Covers(b.Night(i))
  {
  }

  lemma RemoveAbsent(holds: map<Uuid, I.Hold>, x: Uuid)
    requires x !in holds
    ensures holds - {x} == holds
  {
  }

  lemma CancellingOneRow(db: Db, x: Uuid, reason: B.Reason, now: Instant)
    requires x in db.bookings
    ensures UpdateBooking(db, x, B.CancelCall(reason, now)).Ok?
    ensures UpdateBooking(db, x, B.CancelCall(reason, now)).value ==
            db.(bookings := Cancelling(db, {x}, reason, now).bookings)
  {
    hide B.Cancel;
    assert UpdateBooking(db, x, B.CancelCall(reason, now)).value.bookings == Cancelling(db, {x}, reason, now).bookings;
  }

  /** Releasing the nights of a booking releases all its holds, because it has none elsewhere. */
  lemma CancelAll(db: Db, x: Uuid, reason: B.Reason, now: Instant)
    requires DbOk(db) && x in db.bookings
    ensures var db' := UpdateBooking(db, x, B.CancelCall(reason, now)).value;
            var b := db'.bookings[x].booking;
            WithoutHolds(db', b, b.period.checkout) == Cancelling(db, {x}, reason, now)
  {
    CancellingOneRow(db, x, reason, now);
    var db' := UpdateBooking(db, x, B.CancelCall(reason, now)).value;
    var b := db'.bookings[x].booking;
    assert b.SamePlan(db.bookings[x].booking) && b.id == x;
    HoldsAreOnTheStay(db, b, x);
    hide UpdateBooking, DbOk;
    var l, r := WithoutHolds(db', b, b.period.checkout), Cancelling(db, {x}, reason, now);
    forall k | k in db.inventories ensures l.inventories[k] == r.inventories[k] {
      if !b.Covers(k) {
        RemoveAbsent(db.inventories[k].holds, x);
      }
    }
    assert l.inventories == r.inventories;
  }

  lemma HoldsAreOnTheStay(db: Db, b: B.Booking, x: Uuid)
    requires DbOk(db) && x in db.bookings && b.SamePlan(db.bookings[x].booking)
    ensures forall k :: k in db.inventories && x in db.inventories[k].holds ==> b.Covers(k)
  {
    assert forall k :: k in db.inventories && x in db.inventories[k].holds ==> db.HasHold(k, x);
  }

  lemma RemoveBoth(holds: map<Uuid, I.Hold>, s: set<Uuid>, x: Uuid)
    ensures holds - s - {x} == holds - (s + {x})
  {
  }

  lemma CancellingMore(db: Db, s: set<Uuid>, x: Uuid, reason: B.Reason, now: Instant)
    requires x in db.bookings && x !in s
    ensures Cancelling(Cancelling(db, s, reason, now), {x}, reason, now) == Cancelling(db, s + {x}, reason, now)
  {
    var l, r := Cancelling(Cancelling(db, s, reason, now), {x}, reason, now), Cancelling(db, s + {x}, reason, now);
    forall k | k in db.inventories ensures l.inventories[k] == r.inventories[k] {
      RemoveBoth(db.inventories[k].holds, s, x);
    }
    assert l.inventories == r.inventories;
    assert l.bookings == r.bookings;
  }

  lemma CancellingKeepsRows(db: Db, s: set<Uuid>, reason: B.Reason, now: Instant)
    ensures Cancelling(db, s, reason, now).bookings.Keys == db.bookings.Keys
  {
  }

  lemma CancellingNobody(db: Db, reason: B.Reason, now: Instant)
    ensures Cancelling(db, {}, reason, now) == db
  {
    assert forall k :: k in db.inventories ==> db.inventories[k].holds - {} == db.inventories[k].holds;
    assert Cancelling(db, {}, reason, now).inventories == db.inventories;
    assert Cancelling(db, {}, reason, now).bookings == db.bookings;
  }

  /** Cancelling a second time, for whatever reason and whenever, changes nothing. */
  lemma CancellingAgain(db: Db, x: Uuid, reason: B.Reason, now: Instant, reason': B.Reason, now': Instant)
    requires x in db.bookings
    ensures var once := Cancelling(db, {x}, reason, now); Cancelling(once, {x}, reason', now') == once
  {
    var once := Cancelling(db, {x}, reason, now);
    var twice := Cancelling(once, {x}, reason', now');
    forall k | k in db.inventories ensures twice.inventories[k] == once.inventories[k] {
      assert once.inventories[k].holds - {x} == once.inventories[k].holds;
    }
    assert twice.inventories == once.inventories;
    assert twice.bookings == once.bookings;
  }

  /** One more booking cancelled after those in s; the holds are accounted for when they were all released so far. */
  lemma CancellingStep(db: Db, before: Db, after: Db, s: set<Uuid>, x: Uuid, reason: B.Reason, now: Instant)
    requires x in db.bookings && x !in s && before.bookings == Cancelling(db, s, reason, now).bookings
    requires after.bookings == Cancelling(before, {x}, reason, now).bookings
    ensures after.bookings == Cancelling(db, s + {x}, reason, now).bookings
    ensures before == Cancelling(db, s, reason, now) && after == Cancelling(before, {x}, reason, now) ==>
              after == Cancelling(db, s + {x}, reason, now)
  {
    if before == Cancelling(db, s, reason, now) && after == Cancelling(before, {x}, reason, now) {
      CancellingMore(db, s, x, reason, now);
    }
    assert after.bookings == Cancelling(db, s + {x}, reason, now).bookings;
  }

  /** The first n elements of a listing. */
  function Prefix<T>(xs: seq<T>, n: nat): set<T>
    requires n <= |xs|
  {
    set i | 0 <= i < n :: xs[i]
  }

  lemma PrefixGrows<T>(xs: seq<T>, n: nat)
    requires n < |xs| && forall i, j :: 0 <= i < j < |xs| ==> xs[i] != xs[j]
    ensures xs[n] !in Prefix(xs, n) && Prefix(xs, n + 1) == Prefix(xs, n) + {xs[n]}
  {
  }

  function StaleSet(db: Db, before: Instant): set<Uuid> {
    set x | x in db.bookings && Stale(db.bookings[x], before)
  }

  lemma StalePrefix(db: Db, before: Instant, ids: seq<Uuid>)
    requires IsStaleListing(db, before, ids)
    ensures Prefix(ids, |ids|) == StaleSet(db, before)
  {
    forall x ensures x in Prefix(ids, |ids|) <==> x in ids {
    }
  }

  /** What ExpireStale may cancel, in terms of creation times and the clock. */
  lemma StaleMeaning(db: Db, now: Instant)
    ensures forall x :: x in StaleSet(db, now - HOLD_TTL) <==>
              db.HasStatus(x, B.TemporaryHold) && db.bookings[x].createdAt < now - HOLD_TTL
  {
  }

  // ---- releases that stop at the first lock that cannot be had ----

  /** The first night of the stay that is busy. */
  ghost predicate FirstBusy(b: B.Booking, busy: set<InventoryId>, date: Day) {
    && b.period.Contains(date) && InventoryId(b.roomTypeId, date) in busy
    && forall d :: b.period.checkin <= d < date ==> InventoryId(b.roomTypeId, d) !in busy
  }

  lemma NightsBefore(b: B.Booking, busy: set<InventoryId>, i: nat)
    requires i < b.period.Nights() && b.Night(i) in busy && forall j :: 0 <= j < i ==> b.Night(j) !in busy
    ensures FirstBusy(b, busy, b.Night(i).date)
  {
    forall d | b.period.checkin <= d < b.period.checkin + i ensures InventoryId(b.roomTypeId, d) !in busy {
      assert b.Night(d - b.period.checkin) == InventoryId(b.roomTypeId, d);
    }
  }

  /** x gives back night k: neither k nor an earlier night of its stay is busy. */
  ghost predicate GivesBack(db: Db, x: Uuid, k: InventoryId, busy: set<InventoryId>) {
    && x in db.bookings && db.bookings[x].booking.Covers(k)
    && forall d :: db.bookings[x].booking.period.checkin <= d <= k.date ==> InventoryId(k.roomTypeId, d) !in busy
  }

  /** The inventories after every booking in s has released its nights up to its first busy one. */
  ghost function Releasing(db: Db, s: set<Uuid>, busy: set<InventoryId>): map<InventoryId, I.InventoryState> {
    map k | k in db.inventories ::
      db.inventories[k].(holds := db.inventories[k].holds - GivenBack(db, s, k, busy))
  }

  /** The bookings in s that give back night k. */
  ghost function GivenBack(db: Db, s: set<Uuid>, k: InventoryId, busy: set<InventoryId>): set<Uuid> {
    set x | x in s && GivesBack(db, x, k, busy)
  }

  lemma ReleasingUpTo(db: Db, saved: Db, b: B.Booking, until: Day, busy: set<InventoryId>)
    requires b.id in db.bookings && db.bookings[b.id].booking.SamePlan(b) && saved.inventories == db.inventories
    requires (until == b.period.checkout && forall i :: 0 <= i < b.period.Nights() ==> b.Night(i) !in busy)
             || FirstBusy(b, busy, until)
    ensures WithoutHolds(saved, b, until).inventories == Releasing(db, {b.id}, busy)
  {
    forall k | k in db.inventories
      ensures WithoutHolds(saved, b, until).inventories[k] == Releasing(db, {b.id}, busy)[k]
    {
      ReleasedNight(db, b, until, busy, k);
      assert GivenBack(db, {b.id}, k, busy) == if b.Covers(k) && k.date < until then {b.id} else {};
      assert db.inventories[k].holds - {} == db.inventories[k].holds;
    }
  }

  lemma ReleasedNight(db: Db, b: B.Booking, until: Day, busy: set<InventoryId>, k: InventoryId)
    requires b.id in db.bookings && db.bookings[b.id].booking.SamePlan(b)
    requires (until == b.period.checkout && forall i :: 0 <= i < b.period.Nights() ==> b.Night(i) !in busy)
             || FirstBusy(b, busy, until)
    ensures GivesBack(db, b.id, k, busy) <==> b.Covers(k) && k.date < until
  {
    if b.Covers(k) && k.date < until {
      forall d | b.period.checkin <= d <= k.date ensures InventoryId(b.roomTypeId, d) !in busy {
        assert b.Night(d - b.period.checkin) == InventoryId(b.roomTypeId, d);
      }
    }
  }

  lemma ReleasingNobody(db: Db, busy: set<InventoryId>)
    ensures Releasing(db, {}, busy) == db.inventories
  {
    forall k | k in db.inventories ensures Releasing(db, {}, busy)[k] == db.inventories[k] {
      assert GivenBack(db, {}, k, busy) == {};
      assert db.inventories[k].holds - {} == db.inventories[k].holds;
    }
  }

  lemma ReleasingStep(db: Db, before: Db, s: set<Uuid>, x: Uuid, busy: set<InventoryId>, reason: B.Reason, now: Instant)
    requires before.inventories == Releasing(db, s, busy)
    requires before.bookings == Cancelling(db, s, reason, now).bookings
    ensures Releasing(before, {x}, busy) == Releasing(db, s + {x}, busy)
  {
    forall k | k in db.inventories ensures Releasing(before, {x}, busy)[k] == Releasing(db, s + {x}, busy)[k] {
      OneMoreGivesBack(db, before, s, x, k, busy, reason, now);
      hide GivenBack, GivesBack, Cancelling;
      RemoveTwice(db.inventories[k].holds, GivenBack(db, s, k, busy), GivenBack(before, {x}, k, busy));
    }
  }

  lemma RemoveTwice(holds: map<Uuid, I.Hold>, s: set<Uuid>, s': set<Uuid>)
    ensures holds - s - s' == holds - (s + s')
  {
  }

  lemma OneMoreGivesBack(db: Db, before: Db, s: set<Uuid>, x: Uuid, k: InventoryId, busy: set<InventoryId>,
      reason: B.Reason, now: Instant)
    requires before.bookings == Cancelling(db, s, reason, now).bookings
    ensures GivenBack(db, s + {x}, k, busy) == GivenBack(db, s, k, busy) + GivenBack(before, {x}, k, busy)
  {
    SameNightsGivenBack(db, before, s, x, k, busy, reason, now);
    hide GivesBack, Cancelling;
  }

  lemma SameNightsGivenBack(db: Db, before: Db, s: set<Uuid>, x: Uuid, k: InventoryId, busy: set<InventoryId>,
      reason: B.Reason, now: Instant)
    requires before.bookings == Cancelling(db, s, reason, now).bookings
    ensures GivesBack(before, x, k, busy) <==> GivesBack(db, x, k, busy)
  {
    if x in db.bookings {
      B.CancelCancels(db.bookings[x].booking, reason, now);
    }
  }

  /** With every lock granted nothing is left behind. */
  lemma ReleasingAll(db: Db, s: set<Uuid>, reason: B.Reason, now: Instant)
    requires DbOk(db)
    ensures Releasing(db, s, {}) == Cancelling(db, s, reason, now).inventories
  {
    forall k | k in db.inventories
      ensures Releasing(db, s, {})[k] == Cancelling(db, s, reason, now).inventories[k]
    {
      var holds, gone := db.inventories[k].holds, GivenBack(db, s, k, {});
      forall x | x in holds ensures x in gone <==> x in s {
        assert db.HasHold(k, x);
      }
      hide GivenBack, GivesBack, DbOk;
      assert holds - gone == holds - s;
    }
  }

  // ---- ExpireStale, and where it ends ----

  /** How the transaction on a booking's row ends; those not mentioned commit. */
  function RowEnd(rows: map<Uuid, Outcome>, id: Uuid): Outcome {
    if id in rows then rows[id] else Commit
  }

  /**
   * A pass of ExpireStale cancelled `done`. It covered all stale bookings, or ended at the stale booking `stop`, whose
   * transaction failed; and that one is Cancelled, too, if it was committed unseen.
   */
  ghost predicate ExpiredUpTo(db: Db, db': Db, now: Instant, rows: map<Uuid, Outcome>, done: set<Uuid>,
                              stop: Option<Uuid>)
  {
    var stale := StaleSet(db, now - HOLD_TTL);
    && done <= stale && (forall x :: x in done ==> RowEnd(rows, x) == Commit)
    && match stop
       case None => done == stale && db'.bookings == Cancelling(db, done, B.Expired, now).bookings
       case Some(x) =>
         && x in stale && x !in done && RowEnd(rows, x) != Commit
         && var hit := if RowEnd(rows, x) == CommitUnseen then done + {x} else done;
            db'.bookings == Cancelling(db, hit, B.Expired, now).bookings
  }

  lemma InPrefix<T>(xs: seq<T>, n: nat)
    requires n <= |xs|
    ensures forall x :: x in Prefix(xs, n) <==> exists j :: 0 <= j < n && xs[j] == x
  {
  }

  lemma StoppedThere(db: Db, before: Db, after: Db, now: Instant, rows: map<Uuid, Outcome>, ids: seq<Uuid>,
      done: set<Uuid>, x: Uuid)
    requires IsStaleListing(db, now - HOLD_TTL, ids) && |done| < |ids| && done == Prefix(ids, |done|) &&
             x == ids[|done|]
    requires forall j :: 0 <= j < |done| ==> RowEnd(rows, ids[j]) == Commit
    requires RowEnd(rows, x) != Commit && before.bookings == Cancelling(db, done, B.Expired, now).bookings
    requires after.bookings ==
             if RowEnd(rows, x) == Abort then before.bookings else Cancelling(before, {x}, B.Expired, now).bookings
    ensures ExpiredUpTo(db, after, now, rows, done, Some(x))
  {
    hide Cancelling, StaleSet, Prefix;
    InPrefix(ids, |done|);
    PrefixGrows(ids, |done|);
    ListedAreStale(db, now - HOLD_TTL, ids);
    CancellingStep(db, before, Cancelling(before, {x}, B.Expired, now), done, x, B.Expired, now);
  }

  lemma WentThrough(db: Db, after: Db, now: Instant, rows: map<Uuid, Outcome>, ids: seq<Uuid>, done: set<Uuid>)
    requires IsStaleListing(db, now - HOLD_TTL, ids) && done == Prefix(ids, |ids|)
    requires forall j :: 0 <= j < |ids| ==> RowEnd(rows, ids[j]) == Commit
    requires after.bookings == Cancelling(db, done, B.Expired, now).bookings
    ensures ExpiredUpTo(db, after, now, rows, done, None)
  {
    hide Cancelling, StaleSet, Prefix;
    InPrefix(ids, |ids|);
    StalePrefix(db, now - HOLD_TTL, ids);
  }

  lemma ListedAreStale(db: Db, before: Instant, ids: seq<Uuid>)
    requires IsStaleListing(db, before, ids)
    ensures Prefix(ids, 0) == {} && forall i, j :: 0 <= i < j < |ids| ==> ids[i] != ids[j]
    ensures forall j :: 0 <= j < |ids| ==> ids[j] in db.bookings && ids[j] in StaleSet(db, before)
  {
    forall j | 0 <= j < |ids| ensures ids[j] in db.bookings && ids[j] in StaleSet(db, before) {
      assert ids[j] in ids;
    }
  }

  // ---- CollectExpired as a global filter ----

  /** How one transaction of CollectExpired ends. A rollback before the holds are counted differs from one after. */
  datatype CollectEnd = Collects | LockRefused | CommitFails | CommitsUnseen

  function OutcomeOf(end: CollectEnd): Outcome {
    match end
    case Collects => Commit
    case LockRefused => Abort
    case CommitFails => Abort
    case CommitsUnseen => CommitUnseen
  }

  function EndOf(ends: map<InventoryId, CollectEnd>, k: InventoryId): CollectEnd {
    if k in ends then ends[k] else Collects
  }

  /**
   * A pass of CollectExpired collected the inventories in `done` and counted what it took there. It covered all
   * inventories, or ended at `stop`, whose transaction failed; there it may have collected unseen, or counted in vain.
   */
  ghost predicate CollectedUpTo(db: Db, db': Db, now: Instant, ends: map<InventoryId, CollectEnd>,
      done: set<InventoryId>,
                                stop: Option<InventoryId>, collected: nat)
  {
    && (forall k :: k in done ==> k in db.inventories && EndOf(ends, k) == Collects)
    && match stop
       case None =>
         && (forall k :: k in db.inventories && HasExpired(db.inventories[k], now) ==> EndOf(ends, k) == Collects)
         && db' == Collecting(db, db.inventories.Keys, now)
         && collected == |ExpiredHolds(db, db.inventories.Keys, now)|
       case Some(k) =>
         && k in db.inventories && HasExpired(db.inventories[k], now) && k !in done && EndOf(ends, k) != Collects
         && db' == Collecting(db, if EndOf(ends, k) == CommitsUnseen then done + {k} else done, now)
         && collected == |ExpiredHolds(db, if EndOf(ends, k) == LockRefused then done else done + {k}, now)|
  }

  lemma CollectingStopped(db: Db, after: Db, now: Instant, ends: map<InventoryId, CollectEnd>, keys: seq<InventoryId>,
                          i: nat, done: set<InventoryId>, collected: nat)
    requires IsExpiredListing(db, now, keys) && i < |keys| && done == Prefix(keys, i)
    requires EndOf(ends, keys[i]) != Collects && forall j :: 0 <= j < i ==> EndOf(ends, keys[j]) == Collects
    requires after == Collecting(db, if EndOf(ends, keys[i]) == CommitsUnseen then done + {keys[i]} else done, now)
    requires collected ==
             |ExpiredHolds(db, if EndOf(ends, keys[i]) == LockRefused then done else done + {keys[i]}, now)|
    ensures CollectedUpTo(db, after, now, ends, done, Some(keys[i]), collected)
  {
    hide Collecting, ExpiredHolds, HasExpired, Prefix;
    ListedHaveExpired(db, now, keys);
    InPrefix(keys, i);
  }

  lemma CollectingWentThrough(db: Db, after: Db, now: Instant, ends: map<InventoryId, CollectEnd>,
      keys: seq<InventoryId>,
                              done: set<InventoryId>, collected: nat)
    requires IsExpiredListing(db, now, keys) && done == Prefix(keys, |keys|)
    requires forall j :: 0 <= j < |keys| ==> EndOf(ends, keys[j]) == Collects
    requires after == Collecting(db, done, now) && collected == |ExpiredHolds(db, done, now)|
    ensures CollectedUpTo(db, after, now, ends, done, None, collected)
  {
    hide Collecting, ExpiredHolds, HasExpired, Prefix;
    ListedHaveExpired(db, now, keys);
    InPrefix(keys, |keys|);
    CollectingListedIsAll(db, keys, done, now);
  }

  lemma ListedHaveExpired(db: Db, now: Instant, keys: seq<InventoryId>)
    requires IsExpiredListing(db, now, keys)
    ensures forall j :: 0 <= j < |keys| ==> keys[j] in db.inventories && HasExpired(db.inventories[keys[j]], now)
    ensures forall k :: k in db.inventories && HasExpired(db.inventories[k], now) ==>
            exists j :: 0 <= j < |keys| && keys[j] == k
  {
    forall j | 0 <= j < |keys| ensures keys[j] in db.inventories && HasExpired(db.inventories[keys[j]], now) {
      assert keys[j] in keys;
    }
  }

  /** The expired temporary holds of the inventories in s. */
  function ExpiredHolds(db: Db, s: set<InventoryId>, now: Instant): set<(InventoryId, Uuid)> {
    set k, x | k in s && k in db.inventories && x in I.ExpiredBookings(db.inventories[k], now) :: (k, x)
  }

  lemma {:induction false} TaggedSetSize(k: InventoryId, xs: set<Uuid>, tagged: set<(InventoryId, Uuid)>)
    requires tagged == set x | x in xs :: (k, x)
    ensures |tagged| == |xs|
    decreases |xs|
  {
    if xs != {} {
      var x :| x in xs;
      TaggedSetSize(k, xs - {x}, tagged - {(k, x)});
    }
  }

  /** Collecting one more inventory extends the filter, and counts what it removes there. */
  lemma CollectOneMore(db: Db, s: set<InventoryId>, k: InventoryId, now: Instant)
    requires k in db.inventories && k !in s
    ensures var before := Collecting(db, s, now);
            var r := Mutate(before, k, I.CollectOp(now));
            && k in before.inventories && r.Ok? && r.value.db == Collecting(db, s + {k}, now) &&
                 r.value.reply.Collected?
            && |ExpiredHolds(db, s + {k}, now)| == |ExpiredHolds(db, s, now)| + r.value.reply.count
  {
    var before := Collecting(db, s, now);
    var r := Mutate(before, k, I.CollectOp(now));
    assert r.value.db.inventories == Collecting(db, s + {k}, now).inventories;
    var here := set x | x in I.ExpiredBookings(db.inventories[k], now) :: (k, x);
    TaggedSetSize(k, I.ExpiredBookings(db.inventories[k], now), here);
    assert ExpiredHolds(db, s + {k}, now) == ExpiredHolds(db, s, now) + here;
  }

  /** Inventories outside the listing have nothing to collect, so the listing stands for all of them. */
  lemma CollectingListedIsAll(db: Db, keys: seq<InventoryId>, s: set<InventoryId>, now: Instant)
    requires IsExpiredListing(db, now, keys) && s == Prefix(keys, |keys|)
    ensures Collecting(db, s, now) == Collecting(db, db.inventories.Keys, now)
    ensures ExpiredHolds(db, s, now) == ExpiredHolds(db, db.inventories.Keys, now)
  {
    var all := db.inventories.Keys;
    assert forall k :: k in s <==> k in keys;
    forall k | k in db.inventories && k !in s
      ensures Collecting(db, s, now).inventories[k] == Collecting(db, all, now).inventories[k]
    {
      assert I.ExpiredBookings(db.inventories[k], now) == {};
      assert db.inventories[k].holds - {} == db.inventories[k].holds;
    }
    assert Collecting(db, s, now).inventories == Collecting(db, all, now).inventories;
  }

  /** What collecting removes, in terms of expiries and the clock. */
  lemma CollectingMeaning(db: Db, s: set<InventoryId>, now: Instant)
    ensures var d := Collecting(db, s, now);
            && d.bookings == db.bookings && d.nextUuid == db.nextUuid && d.inventories.Keys == db.inventories.Keys
            && (forall k, x :: d.HasHold(k, x) <==>
                  db.HasHold(k, x) && !(k in s && db.HoldOf(k, x).status == I.TemporaryHold
                                        && db.HoldOf(k, x).expiredAt.Some? && db.HoldOf(k, x).expiredAt.value < now))
            && (forall k, x :: d.HasHold(k, x) ==> d.HoldOf(k, x) == db.HoldOf(k, x))
  {
    forall k | k in db.inventories
      ensures var h, h' := db.inventories[k].holds, Collecting(db, s, now).inventories[k].holds;
              && (forall x :: x in h' <==> x in h && !(k in s && h[x].status == I.TemporaryHold
                                                       && h[x].expiredAt.Some? && h[x].expiredAt.value < now))
              && (forall x :: x in h' ==> h'[x] == h[x])
    {
      I.ExpiredMeans(db.inventories[k], now);
    }
  }

  lemma ExpiredHoldsMeaning(db: Db, s: set<InventoryId>, now: Instant)
    ensures forall k: InventoryId, x: Uuid :: (k, x) in ExpiredHolds(db, s, now) <==>
              k in s && db.HasHold(k, x) && db.HoldOf(k, x).status == I.TemporaryHold
              && db.HoldOf(k, x).expiredAt.Some? && db.HoldOf(k, x).expiredAt.value < now
  {
  }

  lemma CollectingNothing(db: Db, now: Instant)
    ensures Collecting(db, {}, now) == db && ExpiredHolds(db, {}, now) == {}
  {
    assert Collecting(db, {}, now).inventories == db.inventories;
  }

  // ---- Confirm ----

  /** b's holds on the nights before the given day have the given status and no expiry; all else is as before. */
  function Moved(db: Db, b: B.Booking, until: Day, status: I.HoldStatus): Db {
    db.(inventories := map k | k in db.inventories ::
          if b.Covers(k) && k.date < until && b.id in db.inventories[k].holds
          then I.WithStatus(db.inventories[k], b.id, status)
          else db.inventories[k])
  }

  lemma MovedNone(db: Db, b: B.Booking, status: I.HoldStatus)
    ensures Moved(db, b, b.period.checkin, status) == db
  {
    assert Moved(db, b, b.period.checkin, status).inventories == db.inventories;
  }

  /** One night further: it works exactly when the booking has a hold there in the status the pass starts from. */
  lemma MoveNext(db: Db, b: B.Booking, i: int, starting: bool)
    requires 0 <= i < b.period.Nights()
    requires var from := if starting then I.TemporaryHold else I.ProcessingPayment;
             db.HasHold(b.Night(i), b.id) ==> db.HoldOf(b.Night(i), b.id).status == from
    ensures var status := if starting then I.ProcessingPayment else I.Confirmed;
            var d := Moved(db, b, b.period.checkin + i, status);
            var r := Mutate(d, b.Night(i), if starting then I.StartPaymentOp(b.id) else I.ConfirmOp(b.id));
            && (r.Ok? <==> db.HasHold(b.Night(i), b.id))
            && (r.Err? ==> r.error == StopFailure(db, b.Night(i), {}))
            && (r.Ok? ==> r.value.db == Moved(db, b, b.period.checkin + i + 1, status))
  {
    var status := if starting then I.ProcessingPayment else I.Confirmed;
    var d, after := Moved(db, b, b.period.checkin + i, status), Moved(db, b, b.period.checkin + i + 1, status);
    var k := b.Night(i);
    if db.HasHold(k, b.id) {
      assert d.inventories[k] == db.inventories[k];
      var m := Mutate(d, k, if starting then I.StartPaymentOp(b.id) else I.ConfirmOp(b.id)).value;
      forall k' | k' in db.inventories ensures m.db.inventories[k'] == after.inventories[k'] {
      }
      assert m.db.inventories == after.inventories;
    }
  }

  lemma MovedAt(db: Db, b: B.Booking, status: I.HoldStatus, k: InventoryId)
    ensures var d := Moved(db, b, b.period.checkout, status);
            && (d.HasHold(k, b.id) <==> db.HasHold(k, b.id))
            && (k in d.inventories <==> k in db.inventories)
            && (k in db.inventories ==>
                  d.inventories[k] ==
                  if b.Covers(k) && db.HasHold(k, b.id) then I.WithStatus(db.inventories[k], b.id, status)
                  else db.inventories[k])
  {
  }

  lemma StatusTwice(s: I.InventoryState, b: Uuid, status: I.HoldStatus, status': I.HoldStatus)
    requires b in s.holds
    ensures var once := I.WithStatus(s, b, status);
            b in once.holds && once.holds[b].status == status &&
                I.WithStatus(once, b, status') == I.WithStatus(s, b, status')
  {
  }

  lemma MovedTwice(db: Db, b: B.Booking)
    ensures var paying := Moved(db, b, b.period.checkout, I.ProcessingPayment);
            && Moved(paying, b, b.period.checkout, I.Confirmed) == Moved(db, b, b.period.checkout, I.Confirmed)
            && (forall k :: paying.HasHold(k, b.id) <==> db.HasHold(k, b.id))
            && (forall k :: b.Covers(k) && paying.HasHold(k, b.id) ==>
                 paying.HoldOf(k, b.id).status == I.ProcessingPayment)
  {
    var paying := Moved(db, b, b.period.checkout, I.ProcessingPayment);
    var l, r := Moved(paying, b, b.period.checkout, I.Confirmed), Moved(db, b, b.period.checkout, I.Confirmed);
    assert l == db.(inventories := l.inventories) && r == db.(inventories := r.inventories);
    hide Moved, B.Booking.Covers, I.WithStatus;
    forall k
      ensures (k in l.inventories <==> k in r.inventories) &&
              (k in l.inventories ==> l.inventories[k] == r.inventories[k])
      ensures paying.HasHold(k, b.id) <==> db.HasHold(k, b.id)
      ensures b.Covers(k) && paying.HasHold(k, b.id) ==> paying.HoldOf(k, b.id).status == I.ProcessingPayment
    {
      MovedAt(paying, b, I.Confirmed, k);
      MovedAt(db, b, I.Confirmed, k);
      MovedAt(db, b, I.ProcessingPayment, k);
      if db.HasHold(k, b.id) {
        StatusTwice(db.inventories[k], b.id, I.ProcessingPayment, I.Confirmed);
      }
    }
    assert l.inventories == r.inventories;
  }

  lemma SameHolds(db: Db, db': Db)
    requires db'.inventories == db.inventories
    ensures forall k, x :: db'.HasHold(k, x) <==> db.HasHold(k, x)
    ensures forall k, x :: db.HasHold(k, x) ==> db'.HoldOf(k, x) == db.HoldOf(k, x)
  {
  }

  lemma MovedKeepsRows(db: Db, b: B.Booking, until: Day, status: I.HoldStatus)
    ensures Moved(db, b, until, status).bookings == db.bookings
  {
  }

  lemma MovedIgnoresRows(db: Db, db': Db, b: B.Booking, b': B.Booking)
    requires db'.inventories == db.inventories && b'.SamePlan(b)
    ensures forall until, status :: Moved(db', b', until, status).inventories == Moved(db, b, until, status).inventories
  {
  }

  /** Every night can be had, and b holds each. */
  ghost predicate CanPass(db: Db, b: B.Booking, busy: set<InventoryId>) {
    forall i :: 0 <= i < b.period.Nights() ==> b.Night(i) !in busy && db.HasHold(b.Night(i), b.id)
  }

  /** Night i is the first whose lock cannot be had or on which b holds nothing. */
  ghost predicate StoppedAt(db: Db, b: B.Booking, busy: set<InventoryId>, i: nat) {
    && i < b.period.Nights() && (b.Night(i) in busy || !db.HasHold(b.Night(i), b.id))
    && forall j :: 0 <= j < i ==> b.Night(j) !in busy && db.HasHold(b.Night(j), b.id)
  }

  /** The holds of b were moved on up to the night where the pass stopped; all else is as before. */
  ghost predicate MovedUntilStopped(db: Db, db': Db, b: B.Booking, busy: set<InventoryId>, status: I.HoldStatus,
                                    e: Failure)
  {
    exists i: nat :: StoppedAt(db, b, busy, i) &&
        db'.inventories == Moved(db, b, b.period.checkin + i, status).inventories &&
        e == StopFailure(db, b.Night(i), busy)
  }

  /** What the caller learns about a night where a pass stops. */
  function StopFailure(db: Db, k: InventoryId, busy: set<InventoryId>): Failure {
    if k in busy then Unavailable
    else if k !in db.inventories then InventoryNotFound
    else Refused(I.ErrHoldNotFound)
  }

  lemma StopsHere(db: Db, db': Db, b: B.Booking, busy: set<InventoryId>, status: I.HoldStatus, i: nat)
    requires i < b.period.Nights() && (b.Night(i) in busy || !db.HasHold(b.Night(i), b.id))
    requires forall j :: 0 <= j < i ==> b.Night(j) !in busy && db.HasHold(b.Night(j), b.id)
    requires db' == Moved(db, b, b.period.checkin + i, status)
    ensures MovedUntilStopped(db, db', b, busy, status, StopFailure(db, b.Night(i), busy))
  {
    assert StoppedAt(db, b, busy, i);
  }

  lemma StoppedIgnoresRows(db: Db, db': Db, d: Db, b: B.Booking, b': B.Booking, busy: set<InventoryId>,
      status: I.HoldStatus, e: Failure)
    requires db'.inventories == db.inventories && b'.SamePlan(b) && MovedUntilStopped(db', d, b', busy, status, e)
    ensures MovedUntilStopped(db, d, b, busy, status, e)
  {
    hide Moved;
    MovedIgnoresRows(db, db', b, b');
    var i: nat :| StoppedAt(db', b', busy, i) &&
         d.inventories == Moved(db', b', b'.period.checkin + i, status).inventories &&
         e == StopFailure(db', b'.Night(i), busy);
    assert forall j :: b'.Night(j) == b.Night(j);
    assert forall k :: db'.HasHold(k, b.id) <==> db.HasHold(k, b.id);
    assert StoppedAt(db, b, busy, i);
  }

  /** At the start of a payment the stored booking is under its own identifier and all its holds are temporary. */
  lemma PaymentBegins(db: Db, id: Uuid, started: map<Uuid, Instant>)
    requires Quiet(db, started) && db.HasStatus(id, B.TemporaryHold)
    ensures db.bookings[id].booking.id == id && db.bookings[id].booking.period.Valid()
    ensures forall k :: db.HasHold(k, id) ==> db.HoldOf(k, id).status == I.TemporaryHold
  {
    QuietFacts(db, started);
  }

  // ---- the passes, in terms of times ----

  /** Neither the row of x nor any of its holds has changed. */
  ghost predicate Untouched(db: Db, db': Db, x: Uuid) {
    && (x in db.bookings <==> x in db'.bookings) && (x in db.bookings ==> db'.bookings[x] == db.bookings[x])
    && (forall k :: db.HasHold(k, x) <==> db'.HasHold(k, x))
    && (forall k :: db.HasHold(k, x) ==> db'.HoldOf(k, x) == db.HoldOf(k, x))
  }

  lemma EverybodyUntouched(db: Db)
    ensures forall x :: Untouched(db, db, x)
  {
  }

  lemma ListedAreExpired(db: Db, now: Instant, keys: seq<InventoryId>)
    requires IsExpiredListing(db, now, keys)
    ensures forall k :: k in keys <==>
              exists x :: db.HasHold(k, x) && db.HoldOf(k, x).status == I.TemporaryHold
                          && db.HoldOf(k, x).expiredAt.Some? && db.HoldOf(k, x).expiredAt.value < now
  {
    forall k ensures k in keys <==>
              exists x :: db.HasHold(k, x) && db.HoldOf(k, x).status == I.TemporaryHold
                          && db.HoldOf(k, x).expiredAt.Some? && db.HoldOf(k, x).expiredAt.value < now
    {
      if k in db.inventories {
        I.ExpiredMeans(db.inventories[k], now);
        if k in keys {
          var x :| x in I.ExpiredBookings(db.inventories[k], now);
          assert db.HasHold(k, x);
        }
      }
    }
  }

  lemma PassMeaning(db: Db, db': Db, now: Instant, rows: map<Uuid, Outcome>, done: set<Uuid>, stop: Option<Uuid>,
      busy: set<InventoryId>)
    requires DbOk(db) && ExpiredUpTo(db, db', now, rows, done, stop) && db'.inventories == Releasing(db, done, busy)
    ensures forall x :: x in db.bookings ==>
              (db.HasStatus(x, B.TemporaryHold) && db.bookings[x].createdAt < now - HOLD_TTL) || Untouched(db, db', x)
    ensures stop.None? ==>
              && db'.bookings.Keys == db.bookings.Keys
              && (forall x :: x in db.bookings ==>
                    (db'.bookings[x] != db.bookings[x] <==>
                     db.HasStatus(x, B.TemporaryHold) && db.bookings[x].createdAt < now - HOLD_TTL))
              && (forall x :: x in db.bookings && db'.bookings[x] != db.bookings[x] ==>
                    && db'.HasStatus(x, B.Cancelled) && db'.bookings[x].booking.cancellationFee == 0
                    && (busy == {} ==> forall k :: !db'.HasHold(k, x)))
  {
    StaleMeaning(db, now);
    hide StaleSet, Releasing, DbOk;
    forall x | x in db.bookings && x !in StaleSet(db, now - HOLD_TTL) ensures Untouched(db, db', x) {
      NotReleased(db, db', done, x, busy);
    }
    if stop.None? && busy == {} {
      ReleasingAll(db, done, B.Expired, now);
    }
  }

  lemma NotReleased(db: Db, db': Db, s: set<Uuid>, x: Uuid, busy: set<InventoryId>)
    requires db'.inventories == Releasing(db, s, busy) && x !in s
    ensures forall k :: db.HasHold(k, x) <==> db'.HasHold(k, x)
    ensures forall k :: db.HasHold(k, x) ==> db'.HoldOf(k, x) == db.HoldOf(k, x)
  {
  }

  /** The holds that are gone. */
  function Lost(db: Db, db': Db): set<(InventoryId, Uuid)> {
    set k, x | k in db.inventories && x in db.inventories[k].holds && !db'.HasHold(k, x) :: (k, x)
  }

  lemma CollectedMeaning(db: Db, db': Db, now: Instant, ends: map<InventoryId, CollectEnd>, done: set<InventoryId>,
      stop: Option<InventoryId>, collected: nat)
    requires CollectedUpTo(db, db', now, ends, done, stop, collected)
    ensures db'.bookings == db.bookings
    ensures forall k, x :: db'.HasHold(k, x) ==> db.HasHold(k, x) && db'.HoldOf(k, x) == db.HoldOf(k, x)
    ensures forall k, x :: db.HasHold(k, x) && !db'.HasHold(k, x) ==>
              var h := db.HoldOf(k, x); h.status == I.TemporaryHold && h.expiredAt.Some? && h.expiredAt.value < now
    ensures stop.None? ==>
              && (forall k, x :: db.HasHold(k, x) ==>
                    var h := db.HoldOf(k, x);
                    (!db'.HasHold(k, x) <==>
                        h.status == I.TemporaryHold && h.expiredAt.Some? && h.expiredAt.value < now))
              && collected == |Lost(db, db')|
  {
    hide Collecting, ExpiredHolds;
    match stop
    case None =>
      CollectingMeaning(db, db.inventories.Keys, now);
      ExpiredHoldsMeaning(db, db.inventories.Keys, now);
      forall p: (InventoryId, Uuid) ensures p in ExpiredHolds(db, db.inventories.Keys, now) <==> p in Lost(db, db') {
        var (k, x) := p;
        assert (k, x) in Lost(db, db') <==> db.HasHold(k, x) && !db'.HasHold(k, x);
      }
      assert ExpiredHolds(db, db.inventories.Keys, now) == Lost(db, db');
    case Some(k) =>
      CollectingMeaning(db, if EndOf(ends, k) == CommitsUnseen then done + {k} else done, now);
  }

  /** Cancelling one booking: its row, its holds, and nobody else's. */
  lemma OneCancelled(db: Db, db': Db, id: Uuid, reason: B.Reason, now: Instant, busy: set<InventoryId>)
    requires id in db.bookings && db'.bookings == Cancelling(db, {id}, reason, now).bookings
    requires db'.inventories == Releasing(db, {id}, busy)
    ensures db'.bookings ==
            db.bookings[id := db.bookings[id].(booking := B.Cancel(db.bookings[id].booking, reason, now))]
    ensures forall x :: x != id ==> Untouched(db, db', x)
    ensures db' == Cancelling(db, {id}, reason, now) ==> forall k :: !db'.HasHold(k, id)
  {
    forall x | x != id ensures Untouched(db, db', x) {
      NotReleased(db, db', {id}, x, busy);
    }
  }

  /** Moving holds of b on, and changing its row, touches nobody else. */
  lemma MoveSparesOthers(db: Db, db': Db, b: B.Booking, until: Day, status: I.HoldStatus)
    requires db'.inventories == Moved(db, b, until, status).inventories
    requires forall x :: x != b.id ==>
               (x in db'.bookings <==> x in db.bookings) && (x in db.bookings ==> db'.bookings[x] == db.bookings[x])
    ensures forall x :: x != b.id ==> Untouched(db, db', x)
  {
  }

  lemma StoppedMoveSparesOthers(db: Db, db': Db, b: B.Booking, busy: set<InventoryId>, status: I.HoldStatus, e: Failure)
    requires MovedUntilStopped(db, db', b, busy, status, e)
    requires forall x :: x != b.id ==>
               (x in db'.bookings <==> x in db.bookings) && (x in db.bookings ==> db'.bookings[x] == db.bookings[x])
    ensures forall x :: x != b.id ==> Untouched(db, db', x)
  {
    hide Moved;
    var i: nat :| StoppedAt(db, b, busy, i) &&
         db'.inventories == Moved(db, b, b.period.checkin + i, status).inventories &&
         e == StopFailure(db, b.Night(i), busy);
    MoveSparesOthers(db, db', b, b.period.checkin + i, status);
  }

  /** A Confirmed booking of a database of the invariant holds every night, Confirmed and without expiry. */
  lemma ConfirmedFacts(db: Db, id: Uuid)
    requires DbOk(db) && db.HasStatus(id, B.Confirmed)
    ensures db.HoldsEveryNight(id)
    ensures forall k :: db.HasHold(k, id) ==>
              db.HoldOf(k, id).status == I.Confirmed && db.HoldOf(k, id).expiredAt == None
  {
  }

  /** Neither does changing its row alone. */
  lemma RowSparesOthers(db: Db, db': Db, id: Uuid)
    requires db'.inventories == db.inventories && id in db.bookings && id in db'.bookings
    requires db'.bookings == db.bookings[id := db'.bookings[id]]
    ensures forall x :: x != id ==> Untouched(db, db', x)
  {
    SameHolds(db, db');
  }
}
