/**
 * The booking rows of the saga's database and the tables that store them: its transactions are those of the
 * repository.
 */
module BookingTables {
  import opened Common
  import opened BookingSpec
  import T = Transactions
  import R = BookingRepository
  import opened Names
  import SP = StayPeriods
  import I = InventorySpec
  import S = Saga
  import SI = SagaInvariant
  import SF = SagaSafety
  import K = Bookings

  /** The tables store every booking of the database, and no other; guests in any order. */
  ghost predicate AllStored(t: R.Tables, db: T.Db) {
    && t.bookings.Keys == db.bookings.Keys
    && forall x :: x in db.bookings ==>
         R.Stores(t, db.bookings[x].booking) && db.bookings[x].booking.id == x && db.bookings[x].booking.Valid()
         && R.GuestsOk(db.bookings[x].booking.guests)
  }

  lemma GuestOrderIsFree(t: R.Tables, a: Booking, b: Booking)
    requires R.SameBooking(a, b) && R.Stores(t, b)
    ensures R.Stores(t, a)
  {
    forall i | 0 <= i < |a.guests|
      ensures a.guests[i].id in t.guests && t.guests[a.guests[i].id] == R.GuestRowOf(a.id, a.guests[i])
    {
      assert a.guests[i] in b.guests;
    }
    forall id | R.IsGuestOf(t, id, a.id) ensures R.Kept(id, a.guests) {
      var j :| 0 <= j < |b.guests| && b.guests[j].id == id;
      assert b.guests[j] in a.guests;
    }
  }

  lemma OthersStayStored(t: R.Tables, t': R.Tables, x: Uuid, b: Booking)
    requires R.OthersUntouched(t, t', x) && b.id != x && R.Stores(t, b)
    ensures R.Stores(t', b)
  {
    forall i | 0 <= i < |b.guests|
      ensures b.guests[i].id in t'.guests && t'.guests[b.guests[i].id] == R.GuestRowOf(b.id, b.guests[i])
    {
      assert R.IsGuestOf(t, b.guests[i].id, b.id);
    }
  }

  lemma OneReplaced(t: R.Tables, t': R.Tables, db: T.Db, db': T.Db, b: Booking)
    requires AllStored(t, db) && R.OthersUntouched(t, t', b.id) && R.Stores(t', b) && b.Valid() && R.GuestsOk(b.guests)
    requires db'.bookings.Keys == db.bookings.Keys + {b.id} && db'.bookings[b.id].booking == b
    requires forall x :: x in db.bookings && x != b.id ==> db'.bookings[x] == db.bookings[x]
    ensures AllStored(t', db')
  {
    hide R.Stores, R.GuestsOk, Booking.Valid;
    forall x | x in db.bookings && x != b.id ensures R.Stores(t', db.bookings[x].booking) {
      OthersStayStored(t, t', b.id, db.bookings[x].booking);
    }
    HasItsRow(t', b);
    assert forall x :: x in t'.bookings <==> x in db'.bookings;
  }

  lemma HasItsRow(t: R.Tables, b: Booking)
    requires R.Stores(t, b)
    ensures b.id in t.bookings
  {
  }

  lemma CallKeepsGuestsOk(b: Booking, call: Call)
    requires b.Valid() && R.GuestsOk(b.guests) && (call.ChangeGuestsCall? ==> R.GuestsOk(call.guests))
    ensures After(b, call).Valid() && R.GuestsOk(After(b, call).guests) && After(b, call).id == b.id
  {
    OneCall(b, call);
  }

  /** A booking transaction of the saga is one of the repository: same reply, and the tables store its outcome. */
  method UpdateStored(repo: R.Repository, db: T.Db, id: Uuid, call: Call)
    returns (r: Result<Booking, R.RepositoryError>)
    requires AllStored(repo.tables, db)
    requires call.ChangeGuestsCall? ==> R.GuestsOk(call.guests) && R.AreNew(repo.tables, call.guests)
    modifies repo`tables
    ensures match T.UpdateBooking(db, id, call)
            case Ok(db') => r.Ok? && AllStored(repo.tables, db') && R.SameBooking(r.value, db'.bookings[id].booking)
            case Err(e) => repo.tables == old(repo.tables)
                           && r == Err(if e.BookingNotFound? then R.ErrBookingNotFound else R.Refused(e.reason))
  {
    hide R.Stores, R.GuestsOk, Booking.Valid, R.AreNew, R.OthersUntouched, Answer;
    ghost var stored := if id in db.bookings then db.bookings[id].booking
         else Booking(0, 0, 0, [], 0, SP.StayPeriod(0, 1), Cancelled, 0);
    r := repo.Update(id, call, stored);
    if id in db.bookings && r.Ok? {
      var db' := T.UpdateBooking(db, id, call).value;
      CallKeepsGuestsOk(stored, call);
      Reordered(r.value, After(stored, call));
      GuestOrderIsFree(repo.tables, After(stored, call), r.value);
      OneReplaced(old(repo.tables), repo.tables, db, db', After(stored, call));
    }
  }

  lemma Reordered(a: Booking, b: Booking)
    requires R.SameBooking(a, b)
    ensures R.SameBooking(b, a)
  {
  }

  /** So is a save without a lock: the row keeps its booker and room type, the guests become those of b. */
  method SaveStored(repo: R.Repository, db: T.Db, b: Booking, at: Instant)
    requires AllStored(repo.tables, db) && b.Valid() && R.GuestsOk(b.guests) && R.Savable(repo.tables, b)
    modifies repo`tables
    ensures AllStored(repo.tables, T.SaveBooking(db, b, at))
  {
    StoredRow(repo.tables, db, b.id);
    hide R.Stores, R.GuestsOk, Booking.Valid, R.OthersUntouched;
    ghost var t := repo.tables;
    repo.Save(b);
    OneReplaced(t, repo.tables, db, T.SaveBooking(db, b, at), b);
  }

  lemma StoredRow(t: R.Tables, db: T.Db, x: Uuid)
    requires AllStored(t, db)
    ensures x in t.bookings <==> x in db.bookings
    ensures x in db.bookings ==>
              t.bookings[x].bookerId == db.bookings[x].booking.bookerId &&
                  t.bookings[x].roomTypeId == db.bookings[x].booking.roomTypeId
  {
  }

  // ---- every run ----

  /** Guests built by buildGuests are what the repository can store. */
  lemma BuiltGuestsAreOk(input: seq<K.GuestInput>, base: Uuid)
    requires K.AllNamesOk(input)
    ensures R.GuestsOk(K.GuestsOf(input, base))
  {
    forall i | 0 <= i < |input| ensures ValidName(K.GuestsOf(input, base)[i].name) {
      NewNameAcceptsItsOwnOutput(input[i].firstName, input[i].lastName);
    }
  }

  ghost predicate Apart(xs: seq<Guest>, ys: seq<Guest>) {
    forall i, j :: 0 <= i < |xs| && 0 <= j < |ys| ==> xs[i].id != ys[j].id
  }

  /** Two calls of buildGuests take their identifiers from the counter one after the other. */
  lemma BuiltGuestsAreApart(input: seq<K.GuestInput>, base: Uuid, input': seq<K.GuestInput>, base': Uuid)
    requires K.AllNamesOk(input) && K.AllNamesOk(input') && base + |input| <= base'
    ensures Apart(K.GuestsOf(input, base), K.GuestsOf(input', base'))
  {
  }

  /** The guests a call brings, and the booking they are for. */
  datatype Party = Party(booking: Uuid, guests: seq<Guest>)

  function Brings(w: S.World, a: S.Action): Option<Party> {
    match a
    case SpawnBook(_, _, _, _, guests, _, _) => Some(Party(w.db.nextUuid, guests))
    case Spawn(_, p) => if p.EditGuests? then Some(Party(p.id, p.guests)) else None
    case _ => None
  }

  /** Every call brings guests as buildGuests makes them: valid names, and identifiers no other call uses. */
  ghost predicate GuestsAreBuilt(ws: seq<S.World>, actions: seq<S.Action>)
    requires |ws| > |actions|
  {
    && (forall i :: 0 <= i < |actions| && Brings(ws[i], actions[i]).Some? ==>
          R.GuestsOk(Brings(ws[i], actions[i]).value.guests))
    && (forall i, j :: 0 <= i < j < |actions| && Brings(ws[i], actions[i]).Some? && Brings(ws[j], actions[j]).Some? ==>
          Apart(Brings(ws[i], actions[i]).value.guests, Brings(ws[j], actions[j]).value.guests))
  }

  /** The booking and its guests come from one call before step n. */
  ghost predicate Brought(ws: seq<S.World>, actions: seq<S.Action>, n: nat, x: Uuid, guests: seq<Guest>)
    requires n <= |actions| < |ws|
  {
    exists i :: 0 <= i < n && Brings(ws[i], actions[i]) == Some(Party(x, guests))
  }

  ghost predicate GuestsTraced(ws: seq<S.World>, actions: seq<S.Action>, n: nat)
    requires n <= |actions| < |ws|
  {
    && (forall x :: x in ws[n].db.bookings ==> Brought(ws, actions, n, x, ws[n].db.bookings[x].booking.guests))
    && (forall pid :: pid in ws[n].procs ==> HoldsTraced(ws, actions, n, ws[n].procs[pid]))
  }

  /** The guests that the process may still write. */
  ghost predicate HoldsTraced(ws: seq<S.World>, actions: seq<S.Action>, n: nat, p: S.Proc)
    requires n <= |actions| < |ws|
  {
    && (S.IsBook(p) ==> Brought(ws, actions, n, p.b.id, p.b.guests))
    && (p.EditGuests? ==> Brought(ws, actions, n, p.id, p.guests))
  }

  lemma StillBrought(ws: seq<S.World>, actions: seq<S.Action>, n: nat, x: Uuid, guests: seq<Guest>)
    requires n < |actions| < |ws|
    ensures Brought(ws, actions, n, x, guests) ==> Brought(ws, actions, n + 1, x, guests)
    ensures Brings(ws[n], actions[n]) == Some(Party(x, guests)) ==> Brought(ws, actions, n + 1, x, guests)
  {
  }

  /** A step writes to a row only guests that the row or the process had. */
  lemma StepGuests(db: T.Db, p: S.Proc, e: S.Env)
    ensures var n := S.Advance(db, p, e);
            && (forall x :: x in n.db.bookings ==>
                  || (x in db.bookings && n.db.bookings[x].booking.guests == db.bookings[x].booking.guests)
                  || (S.IsBook(p) && x == p.b.id && n.db.bookings[x].booking.guests == p.b.guests)
                  || (p.EditGuests? && x == p.id && n.db.bookings[x].booking.guests == p.guests))
            && (S.IsBook(n.proc) ==> S.IsBook(p) && n.proc.b == p.b) && !n.proc.EditGuests?
  {
    hide S.Call, T.UpdateBooking, T.SaveBooking;
    match p
    case BookSave(b, _) => SavedGuests(db, b, e.at);
    case BookHold(b, now, i, total) =>
      CallKeepsRows(db, b.Night(i), S.HoldNight(b, now, db.nextUuid), e.outcome);
      SavedGuests(db, b.(totalFee := total), e.at);
    case BookRelease(b, now, _, j) =>
      CallKeepsRows(db, b.Night(j), I.ReleaseOp(b.id), e.outcome);
      SavedGuests(db, Cancel(b, Expired, now), e.at);
    case ConfirmStart(id) => UpdatedGuests(db, id, StartPaymentCall);
    case ConfirmPay(b, i) => CallKeepsRows(db, b.Night(i), I.StartPaymentOp(b.id), e.outcome);
    case ConfirmSlots(b, i) =>
      CallKeepsRows(db, b.Night(i), I.ConfirmOp(b.id), e.outcome);
      UpdatedGuests(db, b.id, ConfirmCall);
    case CancelStart(id, reason, now, _) => UpdatedGuests(db, id, CancelCall(reason, now));
    case CancelRelease(b, i, _, _) => CallKeepsRows(db, b.Night(i), I.ReleaseOp(b.id), e.outcome);
    case EditGuests(id, guests, capacity) => UpdatedGuests(db, id, ChangeGuestsCall(guests, capacity));
    case CollectLoop(keys, now) => if keys != [] { CallKeepsRows(db, keys[0], I.CollectOp(now), e.outcome); }
    case _ =>
  }

  lemma CallKeepsRows(db: T.Db, k: InventoryId, op: I.Op, o: S.Outcome)
    ensures S.Call(db, k, op, o).0.bookings == db.bookings
  {
  }

  lemma SavedGuests(db: T.Db, b: Booking, at: Instant)
    ensures var d := T.SaveBooking(db, b, at);
            forall x :: x in d.bookings ==>
              if x == b.id then d.bookings[x].booking.guests == b.guests
              else x in db.bookings && d.bookings[x] == db.bookings[x]
  {
  }

  lemma UpdatedGuests(db: T.Db, id: Uuid, call: Call)
    ensures T.UpdateBooking(db, id, call).Ok? ==>
              var d := T.UpdateBooking(db, id, call).value;
              forall x :: x in d.bookings ==>
                && x in db.bookings
                && d.bookings[x].booking.guests ==
                   if x == id && call.ChangeGuestsCall? then call.guests else db.bookings[x].booking.guests
  {
  }

  lemma ActionGuests(ws: seq<S.World>, actions: seq<S.Action>, n: nat)
    requires n < |actions| < |ws| && S.Transits(ws[n], actions[n], ws[n + 1]) && GuestsTraced(ws, actions, n)
    ensures GuestsTraced(ws, actions, n + 1)
  {
    var w, a, w' := ws[n], actions[n], ws[n + 1];
    if a.Step? {
      StepGuests(w.db, w.procs[a.pid], a.env);
    } else {
      NewProcess(w, a, w');
    }
    hide S.Advance, Brought, Brings, I.Apply;
    forall x, guests
      ensures Brought(ws, actions, n, x, guests) ==> Brought(ws, actions, n + 1, x, guests)
      ensures Brings(w, a) == Some(Party(x, guests)) ==> Brought(ws, actions, n + 1, x, guests)
    {
      StillBrought(ws, actions, n, x, guests);
    }
  }

  /** A process that begins has the guests its call brings. */
  lemma NewProcess(w: S.World, a: S.Action, w': S.World)
    requires S.Transits(w, a, w') && !a.Step?
    ensures w'.db.bookings == w.db.bookings
    ensures forall pid :: pid in w'.procs ==>
              var p := w'.procs[pid];
              || (pid in w.procs && p == w.procs[pid])
              || ((S.IsBook(p) ==> Brings(w, a) == Some(Party(p.b.id, p.b.guests)))
                  && (p.EditGuests? ==> Brings(w, a) == Some(Party(p.id, p.guests))))
  {
    hide I.Apply;
  }

  lemma {:induction false} EveryRunIsTraced(ws: seq<S.World>, actions: seq<S.Action>, n: nat)
    requires S.IsRun(ws, actions) && n < |ws|
    ensures GuestsTraced(ws, actions, n)
  {
    hide S.Transits, Brought, HoldsTraced;
    if n > 0 {
      EveryRunIsTraced(ws, actions, n - 1);
      ActionGuests(ws, actions, n - 1);
    }
  }

  // ---- the rows ----

  /** A guest identifier stands for one guest of one booking. */
  ghost predicate GuestsUnique(db: T.Db) {
    && (forall x :: x in db.bookings ==> R.GuestsOk(db.bookings[x].booking.guests))
    && (forall x, y :: x in db.bookings && y in db.bookings && x != y ==>
          Apart(db.bookings[x].booking.guests, db.bookings[y].booking.guests))
  }

  lemma TracedIsUnique(ws: seq<S.World>, actions: seq<S.Action>, n: nat)
    requires n <= |actions| < |ws| && GuestsAreBuilt(ws, actions) && GuestsTraced(ws, actions, n)
    ensures GuestsUnique(ws[n].db)
  {
    hide Apart, R.GuestsOk, Brings, HoldsTraced;
    var db := ws[n].db;
    forall x, y | x in db.bookings && y in db.bookings && x != y
      ensures Apart(db.bookings[x].booking.guests, db.bookings[y].booking.guests)
    {
      assert Brought(ws, actions, n, x, db.bookings[x].booking.guests);
      assert Brought(ws, actions, n, y, db.bookings[y].booking.guests);
      var i :| 0 <= i < n && Brings(ws[i], actions[i]) == Some(Party(x, db.bookings[x].booking.guests));
      var j :| 0 <= j < n && Brings(ws[j], actions[j]) == Some(Party(y, db.bookings[y].booking.guests));
      if j < i {
        ApartBothWays(db.bookings[y].booking.guests, db.bookings[x].booking.guests);
      }
    }
  }

  lemma ApartBothWays(xs: seq<Guest>, ys: seq<Guest>)
    requires Apart(xs, ys)
    ensures Apart(ys, xs)
  {
  }

  function GuestIds(db: T.Db): set<Uuid> {
    set x, i | x in db.bookings && 0 <= i < |db.bookings[x].booking.guests| :: db.bookings[x].booking.guests[i].id
  }

  ghost function GuestRowAt(db: T.Db, id: Uuid): R.GuestRow
    requires id in GuestIds(db)
  {
    var x, i :| x in db.bookings && 0 <= i < |db.bookings[x].booking.guests| &&
         db.bookings[x].booking.guests[i].id == id;
    R.GuestRowOf(x, db.bookings[x].booking.guests[i])
  }

  ghost function TablesOf(db: T.Db): R.Tables {
    R.Tables(map x | x in db.bookings :: R.RowOf(db.bookings[x].booking),
        map id | id in GuestIds(db) :: GuestRowAt(db, id))
  }

  lemma RowOfGuest(db: T.Db, x: Uuid, i: nat)
    requires GuestsUnique(db) && x in db.bookings && i < |db.bookings[x].booking.guests|
    ensures var g := db.bookings[x].booking.guests[i];
            g.id in GuestIds(db) && GuestRowAt(db, g.id) == R.GuestRowOf(x, g)
  {
    var id := db.bookings[x].booking.guests[i].id;
    var y, j :| y in db.bookings && 0 <= j < |db.bookings[y].booking.guests| &&
         db.bookings[y].booking.guests[j].id == id
                && GuestRowAt(db, id) == R.GuestRowOf(y, db.bookings[y].booking.guests[j]);
    assert y == x;
  }

  lemma TablesStoreAll(db: T.Db)
    requires GuestsUnique(db) && SI.BookingsOk(db)
    ensures AllStored(TablesOf(db), db)
  {
    hide GuestsUnique, GuestIds, GuestRowAt, Booking.Valid;
    forall x | x in db.bookings ensures R.Stores(TablesOf(db), db.bookings[x].booking) {
      StoredInTables(db, x);
    }
    UniqueGuestsAreOk(db);
  }

  lemma UniqueGuestsAreOk(db: T.Db)
    requires GuestsUnique(db)
    ensures forall x :: x in db.bookings ==> R.GuestsOk(db.bookings[x].booking.guests)
  {
  }

  lemma StoredInTables(db: T.Db, x: Uuid)
    requires GuestsUnique(db) && SI.BookingsOk(db) && x in db.bookings
    ensures R.Stores(TablesOf(db), db.bookings[x].booking)
  {
    var t, b := TablesOf(db), db.bookings[x].booking;
    forall i | 0 <= i < |b.guests|
      ensures b.guests[i].id in t.guests && t.guests[b.guests[i].id] == R.GuestRowOf(b.id, b.guests[i])
    {
      RowOfGuest(db, x, i);
    }
    forall id | R.IsGuestOf(t, id, x) ensures R.Kept(id, b.guests) {
      var y, j :| y in db.bookings && 0 <= j < |db.bookings[y].booking.guests| &&
           db.bookings[y].booking.guests[j].id == id;
      RowOfGuest(db, y, j);
    }
  }

  /**
   * In every run whose calls bring guests as buildGuests makes them, every reachable state has booking and guest tables
   * that store exactly its bookings; so every booking there can be loaded again.
   */
  lemma ReachableBookingsAreStored(ws: seq<S.World>, actions: seq<S.Action>, n: nat)
    requires S.IsRun(ws, actions) && n < |ws| && GuestsAreBuilt(ws, actions)
    ensures AllStored(TablesOf(ws[n].db), ws[n].db)
    ensures forall x :: x in ws[n].db.bookings ==> R.Loadable(TablesOf(ws[n].db), x)
  {
    hide TablesOf, R.Stores, R.GuestsOk, R.Loadable, Booking.Valid, GuestsUnique, GuestsTraced, GuestsAreBuilt;
    EveryRunIsTraced(ws, actions, n);
    TracedIsUnique(ws, actions, n);
    SF.EveryReachableStateIsOk(ws, actions, n);
    TablesStoreAll(ws[n].db);
    forall x | x in ws[n].db.bookings ensures R.Loadable(TablesOf(ws[n].db), x) {
      R.StoredIsLoadable(TablesOf(ws[n].db), ws[n].db.bookings[x].booking);
    }
  }
}
