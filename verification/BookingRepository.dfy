/** `server/internal/booking/infra/postgres/repository.go` and `mapper.go`: a booking and its guests as rows. */
module BookingRepository {
  import opened Common
  import opened StayPeriods
  import opened BookingSpec
  import opened Names
  import BA = BookingAggregate

  datatype BookingRow = BookingRow(
    bookerId: Uuid, roomTypeId: Uuid, totalFee: int, checkin: Day, checkout: Day, status: Status, cancellationFee: int)

  datatype GuestRow = GuestRow(bookingId: Uuid, firstName: string, lastName: string)

  datatype Tables = Tables(bookings: map<Uuid, BookingRow>, guests: map<Uuid, GuestRow>)

  datatype RepositoryError = ErrBookingNotFound | BadPeriod | BadTotalFee | BadGuestName | Refused(error: BookingError)

  function RowOf(b: Booking): BookingRow {
    BookingRow(b.bookerId, b.roomTypeId, b.totalFee, b.period.checkin, b.period.checkout, b.status, b.cancellationFee)
  }

  function GuestRowOf(b: Uuid, g: Guest): GuestRow {
    GuestRow(b, g.name.firstName, g.name.lastName)
  }

  predicate IsGuestOf(t: Tables, id: Uuid, b: Uuid) {
    id in t.guests && t.guests[id].bookingId == b
  }

  predicate Kept(id: Uuid, guests: seq<Guest>) {
    exists i :: 0 <= i < |guests| && guests[i].id == id
  }

  /** What the domain guarantees of a booking's guests: validated names, distinct identifiers. */
  ghost predicate GuestsOk(guests: seq<Guest>) {
    && (forall i :: 0 <= i < |guests| ==> ValidName(guests[i].name))
    && (forall i, j :: 0 <= i < j < |guests| ==> guests[i].id != guests[j].id)
  }

  /** Stored guests of this booking keep it; identifiers of new guests are new. */
  ghost predicate Savable(t: Tables, b: Booking) {
    && (forall i :: 0 <= i < |b.guests| && b.guests[i].id in t.guests ==> t.guests[b.guests[i].id].bookingId == b.id)
    && (b.id in t.bookings ==> t.bookings[b.id].bookerId == b.bookerId && t.bookings[b.id].roomTypeId == b.roomTypeId)
  }

  /** The tables store exactly this booking: its row, a row for each of its guests, and no other guest row of it. */
  ghost predicate Stores(t: Tables, b: Booking) {
    && b.id in t.bookings && t.bookings[b.id] == RowOf(b)
    && (forall i :: 0 <= i < |b.guests| ==>
         b.guests[i].id in t.guests && t.guests[b.guests[i].id] == GuestRowOf(b.id, b.guests[i]))
    && (forall id :: IsGuestOf(t, id, b.id) ==> Kept(id, b.guests))
  }

  /** Rows of other bookings and of their guests are the same. */
  ghost predicate OthersUntouched(t: Tables, t': Tables, b: Uuid) {
    && (forall x :: x != b ==>
         (x in t.bookings <==> x in t'.bookings) && (x in t.bookings ==> t.bookings[x] == t'.bookings[x]))
    && (forall id, x :: x != b ==> (IsGuestOf(t, id, x) <==> IsGuestOf(t', id, x)))
    && (forall id, x :: x != b && IsGuestOf(t, id, x) ==> t.guests[id] == t'.guests[id])
  }

  /** The same booking, with its guests as a set. */
  ghost predicate SameBooking(a: Booking, b: Booking) {
    && a == b.(guests := a.guests) && |a.guests| == |b.guests|
    && (forall g :: g in a.guests <==> g in b.guests)
  }

  /** The validators run on load accept the rows of this booking. */
  ghost predicate Loadable(t: Tables, b: Uuid) {
    && b in t.bookings && t.bookings[b].checkin < t.bookings[b].checkout && t.bookings[b].totalFee >= 0
    && (forall id :: IsGuestOf(t, id, b) ==> NewName(t.guests[id].firstName, t.guests[id].lastName).Ok?)
  }

  /** Only guest rows of b that b no longer has are gone. */
  ghost predicate GoneDeleted(before: Tables, t: Tables, b: Booking) {
    && (forall id :: id in t.guests <==>
         id in before.guests && (Kept(id, b.guests) || before.guests[id].bookingId != b.id))
    && (forall id :: id in t.guests ==> t.guests[id] == before.guests[id])
  }

  lemma NoneKept(guests: seq<Guest>)
    ensures forall id :: !Kept(id, guests[..0])
  {
  }

  lemma KeptOneMore(guests: seq<Guest>, i: nat)
    requires i < |guests|
    ensures forall id :: Kept(id, guests[..i + 1]) <==> Kept(id, guests[..i]) || id == guests[i].id
    ensures (forall j :: 0 <= j < i ==> guests[j].id != guests[i].id) ==> !Kept(guests[i].id, guests[..i])
  {
    forall id ensures Kept(id, guests[..i + 1]) <==> Kept(id, guests[..i]) || id == guests[i].id {
      if Kept(id, guests[..i]) {
        var j :| 0 <= j < i && guests[..i][j].id == id;
        assert guests[..i + 1][j].id == id;
      }
      assert guests[..i + 1][i] == guests[i];
    }
  }

  /** Once b's guests are written over the rows that remain, b is stored and nothing else has changed. */
  lemma OnlyTheseGuests(before: Tables, start: Tables, t: Tables, b: Booking)
    requires Savable(before, b) && GoneDeleted(before, start, b)
    requires b.id in t.bookings && t.bookings == before.bookings[b.id := RowOf(b)]
    requires forall j :: 0 <= j < |b.guests| ==>
             b.guests[j].id in t.guests && t.guests[b.guests[j].id] == GuestRowOf(b.id, b.guests[j])
    requires forall id :: id in t.guests <==> id in start.guests || Kept(id, b.guests)
    requires forall id :: id in start.guests && !Kept(id, b.guests) ==> t.guests[id] == start.guests[id]
    ensures Stores(t, b) && OthersUntouched(before, t, b.id)
  {
    forall id
      ensures Kept(id, b.guests) ==> IsGuestOf(t, id, b.id) && (id in before.guests ==> IsGuestOf(before, id, b.id))
    {
    }
    forall id, x | x != b.id
      ensures (IsGuestOf(before, id, x) <==> IsGuestOf(t, id, x)) &&
              (IsGuestOf(before, id, x) ==> before.guests[id] == t.guests[id])
    {
    }
    forall id ensures IsGuestOf(t, id, b.id) ==> Kept(id, b.guests) {
    }
  }

  lemma OnlyItsGuests(t: Tables, b: Booking)
    requires Stores(t, b)
    ensures forall id :: id in t.guests && t.guests[id].bookingId == b.id ==>
              exists i :: 0 <= i < |b.guests| && b.guests[i].id == id
  {
    forall id | id in t.guests && t.guests[id].bookingId == b.id
      ensures exists i :: 0 <= i < |b.guests| && b.guests[i].id == id
    {
      assert IsGuestOf(t, id, b.id);
    }
  }

  class Repository {
    var tables: Tables

    /** UpsertBooking: on a conflict booker and room type keep their stored values. */
    method UpsertBooking(b: Booking)
      modifies this`tables
      ensures tables.guests == old(tables).guests
      ensures tables.bookings == old(tables).bookings[b.id :=
                if b.id in old(tables).bookings
                then RowOf(b).(bookerId := old(tables).bookings[b.id].bookerId,
                               roomTypeId := old(tables).bookings[b.id].roomTypeId)
                else RowOf(b)]
    {
      var row := RowOf(b);
      if b.id in tables.bookings {
        row := row.(bookerId := tables.bookings[b.id].bookerId, roomTypeId := tables.bookings[b.id].roomTypeId);
      }
      tables := tables.(bookings := tables.bookings[b.id := row]);
    }

    /** UpsertGuest: on a conflict the booking of the guest keeps its stored value. */
    method UpsertGuest(id: Uuid, row: GuestRow)
      modifies this`tables
      ensures tables == old(tables).(guests := old(tables).guests[id :=
                if id in old(tables).guests then row.(bookingId := old(tables).guests[id].bookingId) else row])
    {
      if id in tables.guests {
        tables := tables.(guests := tables.guests[id := row.(bookingId := tables.guests[id].bookingId)]);
      } else {
        tables := tables.(guests := tables.guests[id := row]);
      }
    }

    /** ListGuestsByBookingId, in any order. */
    method ListGuests(b: Uuid) returns (ids: seq<Uuid>)
      ensures forall id :: id in ids <==> IsGuestOf(tables, id, b)
      ensures forall i, j :: 0 <= i < j < |ids| ==> ids[i] != ids[j]
    {
      ids := [];
      var todo := tables.guests.Keys;
      while todo != {}
        invariant todo <= tables.guests.Keys
        invariant forall id :: id in ids <==> id !in todo && IsGuestOf(tables, id, b)
        invariant forall i, j :: 0 <= i < j < |ids| ==> ids[i] != ids[j]
        decreases |todo|
      {
        var id :| id in todo;
        todo := todo - {id};
        if tables.guests[id].bookingId == b {
          ids := ids + [id];
        }
      }
    }

    /** Save: the row, then the guests that are gone, then the others. */
    method Save(b: Booking)
      requires GuestsOk(b.guests) && Savable(tables, b)
      modifies this`tables
      ensures Stores(tables, b) && OthersUntouched(old(tables), tables, b.id)
      ensures b.id in tables.bookings
      ensures var row := tables.bookings[b.id];
              && row.bookerId == b.bookerId && row.roomTypeId == b.roomTypeId && row.totalFee == b.totalFee
              && row.checkin == b.period.checkin && row.checkout == b.period.checkout
              && row.status == b.status && row.cancellationFee == b.cancellationFee
      ensures forall i :: 0 <= i < |b.guests| ==>
                var g := b.guests[i];
                && g.id in tables.guests && tables.guests[g.id].bookingId == b.id
                && tables.guests[g.id].firstName == g.name.firstName && tables.guests[g.id].lastName == g.name.lastName
      ensures forall id :: id in tables.guests && tables.guests[id].bookingId == b.id ==>
                exists i :: 0 <= i < |b.guests| && b.guests[i].id == id
    {
      UpsertBooking(b);
      var existing := ListGuests(b.id);
      assert forall id :: id in existing <==> IsGuestOf(old(tables), id, b.id);
      var kept: set<Uuid> := {};
      var i := 0;
      while i < |b.guests|
        invariant 0 <= i <= |b.guests|
        invariant forall id :: id in kept <==> exists j :: 0 <= j < i && b.guests[j].id == id
      {
        kept := kept + {b.guests[i].id};
        i := i + 1;
      }
      DeleteGone(existing, kept);
      UpsertGuests(b, old(tables));
      OnlyItsGuests(tables, b);
    }

    method DeleteGone(existing: seq<Uuid>, kept: set<Uuid>)
      modifies this`tables
      ensures tables.bookings == old(tables).bookings
      ensures forall id :: id in tables.guests <==> id in old(tables).guests && (id in kept || id !in existing)
      ensures forall id :: id in tables.guests ==> tables.guests[id] == old(tables).guests[id]
    {
      var i := 0;
      while i < |existing|
        invariant 0 <= i <= |existing| && tables.bookings == old(tables).bookings
        invariant forall id :: id in tables.guests <==> id in old(tables).guests && (id in kept || id !in existing[..i])
        invariant forall id :: id in tables.guests ==> tables.guests[id] == old(tables).guests[id]
      {
        assert existing[..i + 1] == existing[..i] + [existing[i]];
        if existing[i] !in kept {
          tables := tables.(guests := tables.guests - {existing[i]});
        }
        i := i + 1;
      }
      assert existing[..i] == existing;
    }

    method UpsertGuests(b: Booking, ghost before: Tables)
      requires GuestsOk(b.guests) && Savable(before, b)
      requires b.id in tables.bookings && tables.bookings == before.bookings[b.id := RowOf(b)]
      requires GoneDeleted(before, tables, b)
      modifies this`tables
      ensures Stores(tables, b) && OthersUntouched(before, tables, b.id)
    {
      hide Kept, ValidName, OthersUntouched, Stores;
      var i := 0;
      ghost var start := tables;
      NoneKept(b.guests);
      while i < |b.guests|
        invariant 0 <= i <= |b.guests| && tables.bookings == start.bookings
        invariant forall j :: 0 <= j < i ==>
                  b.guests[j].id in tables.guests && tables.guests[b.guests[j].id] == GuestRowOf(b.id, b.guests[j])
        invariant forall id :: id in tables.guests <==> id in start.guests || Kept(id, b.guests[..i])
        invariant forall id :: id in start.guests && !Kept(id, b.guests[..i]) ==> tables.guests[id] == start.guests[id]
      {
        KeptOneMore(b.guests, i);
        UpsertGuest(b.guests[i].id, GuestRowOf(b.id, b.guests[i]));
        i := i + 1;
      }
      assert b.guests[..i] == b.guests;
      OnlyTheseGuests(before, start, tables, b);
    }

    /** load: rebuilds the booking through the validators; it fails exactly when one of them refuses a row. */
    method Load(b: Uuid) returns (r: Result<Booking, RepositoryError>)
      ensures r.Ok? <==> Loadable(tables, b)
      ensures b !in tables.bookings ==> r == Err(ErrBookingNotFound)
      ensures r.Ok? ==>
                && RowOf(r.value) == tables.bookings[b] && r.value.id == b
                && (forall i :: 0 <= i < |r.value.guests| ==>
                      && IsGuestOf(tables, r.value.guests[i].id, b)
                      && NewName(tables.guests[r.value.guests[i].id].firstName,
                           tables.guests[r.value.guests[i].id].lastName)
                         == Ok(r.value.guests[i].name))
                && (forall id :: IsGuestOf(tables, id, b) ==> Kept(id, r.value.guests))
                && (forall i, j :: 0 <= i < j < |r.value.guests| ==> r.value.guests[i].id != r.value.guests[j].id)
    {
      if b !in tables.bookings {
        return Err(ErrBookingNotFound);
      }
      var row := tables.bookings[b];
      var period := PeriodOf(row.checkin, row.checkout);
      if period.Err? {
        return Err(BadPeriod);
      }
      if row.totalFee < 0 {
        return Err(BadTotalFee);
      }
      var ids := ListGuests(b);
      var guests: seq<Guest> := [];
      var i := 0;
      while i < |ids|
        invariant 0 <= i == |guests| <= |ids|
        invariant forall j :: 0 <= j < i ==>
                    && guests[j].id == ids[j] && IsGuestOf(tables, ids[j], b)
                    && NewName(tables.guests[ids[j]].firstName, tables.guests[ids[j]].lastName) == Ok(guests[j].name)
      {
        assert ids[i] in ids;
        var g := tables.guests[ids[i]];
        var name := NewName(g.firstName, g.lastName);
        if name.Err? {
          return Err(BadGuestName);
        }
        guests := guests + [Guest(ids[i], name.value)];
        i := i + 1;
      }
      forall id | IsGuestOf(tables, id, b)
        ensures NewName(tables.guests[id].firstName, tables.guests[id].lastName).Ok? && Kept(id, guests)
      {
        assert id in ids;
        var j :| 0 <= j < |ids| && ids[j] == id;
        assert guests[j].id == id;
      }
      return Ok(Booking(b, row.bookerId, row.roomTypeId, guests, row.totalFee, period.value, row.status,
          row.cancellationFee));
    }

    /** Saving and loading again gives the booking back, guests as a set, whatever order the rows are listed in. */
    method SaveAndReload(b: Booking) returns (r: Result<Booking, RepositoryError>)
      requires b.Valid() && GuestsOk(b.guests) && Savable(tables, b)
      modifies this`tables
      ensures r.Ok? && SameBooking(r.value, b)
      ensures Stores(tables, b) && OthersUntouched(old(tables), tables, b.id)
    {
      Save(b);
      StoredIsLoadable(tables, b);
      r := Load(b.id);
      ReloadedIsSame(tables, b, r.value);
    }

    /**
     * One booking transaction: lock and load, one call on the aggregate, save. An error rolls back: nothing is
     * written.
     */
    method Update(id: Uuid, call: Call, ghost stored: Booking) returns (r: Result<Booking, RepositoryError>)
      requires id in tables.bookings ==>
               stored.id == id && stored.Valid() && GuestsOk(stored.guests) && Stores(tables, stored)
      requires call.ChangeGuestsCall? ==> GuestsOk(call.guests) && AreNew(tables, call.guests)
      modifies this`tables
      ensures id !in old(tables).bookings ==> r == Err(ErrBookingNotFound)
      ensures id in old(tables).bookings ==> (r.Ok? <==> Answer(stored, call).Ok?)
      ensures id in old(tables).bookings && r.Err? ==> r.error == Refused(Answer(stored, call).error)
      ensures r.Ok? ==> SameBooking(r.value, After(stored, call)) && Stores(tables, r.value)
      ensures r.Ok? ==> OthersUntouched(old(tables), tables, id)
      ensures r.Err? ==> tables == old(tables)
    {
      if id in tables.bookings {
        StoredIsLoadable(tables, stored);
      }
      var loaded := Load(id);
      if loaded.Err? {
        return Err(loaded.error);
      }
      var b := loaded.value;
      ReloadedIsSame(tables, stored, b);
      SameAnswer(b, stored, call);
      LoadedIsSavable(tables, stored, b, call);
      var o := new BA.BookingObject.Reconstruct(b);
      var err := ApplyCall(o, call);
      if err.Some? {
        return Err(Refused(err.value));
      }
      var after := o.Value();
      Save(after);
      return Ok(after);
    }
  }

  method ApplyCall(o: BA.BookingObject, call: Call) returns (err: Option<BookingError>)
    modifies o
    ensures o.State() == After(old(o.State()), call)
    ensures err == (match Answer(old(o.State()), call) case Ok(_) => None case Err(e) => Some(e))
  {
    match call
    case StartPaymentCall =>
      err := o.StartPayment();
    case ConfirmCall =>
      err := o.Confirm();
    case CancelCall(reason, now) =>
      var fee := o.Cancel(reason, now);
      err := None;
    case FixTotalFeeCall(fee) =>
      if fee < 0 {
        return Some(ErrInvalidTotalFee);
      }
      err := o.FixTotalFee(fee);
    case ChangeGuestsCall(guests, capacity) =>
      err := o.ChangeGuests(guests, capacity);
  }

  ghost predicate AreNew(t: Tables, guests: seq<Guest>) {
    forall i :: 0 <= i < |guests| ==> guests[i].id !in t.guests
  }

  /** The order of the guests makes no difference to a call. */
  lemma SameAnswer(a: Booking, b: Booking, call: Call)
    requires SameBooking(a, b)
    ensures Answer(a, call).Ok? <==> Answer(b, call).Ok?
    ensures Answer(a, call).Err? ==> Answer(a, call) == Answer(b, call)
    ensures Answer(a, call).Ok? ==> SameBooking(Answer(a, call).value, Answer(b, call).value)
  {
  }

  lemma LoadedIsSavable(t: Tables, stored: Booking, b: Booking, call: Call)
    requires Stores(t, stored) && GuestsOk(stored.guests) && SameBooking(b, stored)
    requires forall i, j :: 0 <= i < j < |b.guests| ==> b.guests[i].id != b.guests[j].id
    requires call.ChangeGuestsCall? ==> GuestsOk(call.guests) && AreNew(t, call.guests)
    ensures GuestsOk(After(b, call).guests) && Savable(t, After(b, call))
  {
    forall i | 0 <= i < |b.guests| ensures b.guests[i] in stored.guests {
    }
  }

  /** Every validator used on load accepts what the domain built and Save wrote. */
  lemma StoredIsLoadable(t: Tables, b: Booking)
    requires b.Valid() && GuestsOk(b.guests) && Stores(t, b)
    ensures Loadable(t, b.id)
  {
    forall id | IsGuestOf(t, id, b.id) ensures NewName(t.guests[id].firstName, t.guests[id].lastName).Ok? {
      var i :| 0 <= i < |b.guests| && b.guests[i].id == id;
      UnchangedMeansValid(b.guests[i].name);
    }
  }

  lemma ReloadedIsSame(t: Tables, b: Booking, a: Booking)
    requires b.Valid() && GuestsOk(b.guests) && Stores(t, b)
    requires RowOf(a) == t.bookings[b.id] && a.id == b.id
    requires forall i :: 0 <= i < |a.guests| ==>
               && IsGuestOf(t, a.guests[i].id, b.id)
               && NewName(t.guests[a.guests[i].id].firstName, t.guests[a.guests[i].id].lastName) == Ok(a.guests[i].name)
    requires forall id :: IsGuestOf(t, id, b.id) ==> Kept(id, a.guests)
    requires forall i, j :: 0 <= i < j < |a.guests| ==> a.guests[i].id != a.guests[j].id
    ensures SameBooking(a, b)
  {
    hide NewName, ValidName;
    forall i, j | 0 <= i < |a.guests| && 0 <= j < |b.guests| && a.guests[i].id == b.guests[j].id
      ensures a.guests[i] == b.guests[j]
    {
      UnchangedMeansValid(b.guests[j].name);
    }
    SameGuests(t, b.id, a.guests, b.guests);
    GuestSet(a.guests);
    GuestSet(b.guests);
    assert (set g | g in a.guests) == (set g | g in b.guests);
  }

  /** Two lists that both hold exactly the stored guests of b, and agree on each, have the same elements. */
  lemma SameGuests(t: Tables, b: Uuid, xs: seq<Guest>, ys: seq<Guest>)
    requires forall i, j :: 0 <= i < |xs| && 0 <= j < |ys| && xs[i].id == ys[j].id ==> xs[i] == ys[j]
    requires forall id :: IsGuestOf(t, id, b) <==> Kept(id, xs)
    requires forall id :: IsGuestOf(t, id, b) <==> Kept(id, ys)
    ensures forall g :: g in xs <==> g in ys
  {
    forall i | 0 <= i < |xs| ensures xs[i] in ys {
      assert Kept(xs[i].id, ys);
    }
    forall j | 0 <= j < |ys| ensures ys[j] in xs {
      assert Kept(ys[j].id, xs);
    }
  }

  /** With distinct identifiers a list of guests is as long as its set. */
  lemma {:induction false} GuestSet(guests: seq<Guest>)
    requires forall i, j :: 0 <= i < j < |guests| ==> guests[i].id != guests[j].id
    ensures |set g | g in guests| == |guests|
  {
    if guests != [] {
      var init, last := guests[..|guests| - 1], guests[|guests| - 1];
      GuestSet(init);
      assert guests == init + [last];
      assert last !in init;
      assert (set g | g in guests) == (set g | g in init) + {last};
    }
  }

}
