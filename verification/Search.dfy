/**
 * `server/db/queries/search/search.sql` and `server/internal/search/search.go`: availability by counting rows. The
 * query never looks at a slot number, and still lists exactly what Book can take.
 */
module Search {
  import opened Common
  import opened StayPeriods
  import opened HoldTables
  import opened LockProtocol
  import opened Transactions
  import S = Saga
  import opened Bookings
  import opened Services
  import I = InventorySpec
  import B = BookingSpec

  /** A room type joined with its accommodation. */
  datatype RoomType = RoomType(capacity: int, deleted: bool, prefecture: string)

  datatype Criteria = Criteria(prefecture: string, checkin: Instant, checkout: Instant, guests: int, maxFee: int)

  datatype SearchError = ErrInvalidPeriod | ErrInvalidGuests

  datatype Row = Row(roomTypeId: Uuid, totalFee: int)

  datatype SearchResult = SearchResult(row: Row, nights: int)

  function ValidCriteria(c: Criteria): Result<int, SearchError> {
    var checkin, checkout := DayOf(c.checkin), DayOf(c.checkout);
    if !(checkout > checkin) then Err(ErrInvalidPeriod)
    else if c.guests < 1 then Err(ErrInvalidGuests)
    else Ok(DaysBetween(checkin, checkout))
  }

  // ---- the query ----

  /** COUNT(h.id) of the rows joined to inventory k. */
  function HeldIds(t: Tables, k: InventoryId): set<Uuid> {
    set id | id in t.holds && t.holds[id].key == k
  }

  /** The common table expression `available`. */
  function Available(t: Tables, checkin: Day, checkout: Day): set<InventoryId> {
    set k | k in t.inventories && checkin <= k.date < checkout && !t.inventories[k].isClosed
            && t.inventories[k].quantity - |HeldIds(t, k)| > 0
  }

  /** Its rows in the group of one room type. */
  function Group(t: Tables, checkin: Day, checkout: Day, roomTypeId: Uuid): set<InventoryId> {
    set k | k in Available(t, checkin, checkout) && k.roomTypeId == roomTypeId
  }

  /** SUM(av.fee), in no particular order. */
  ghost function SumFee(t: Tables, ks: set<InventoryId>): int
    requires ks <= t.inventories.Keys
  {
    if ks == {} then 0
    else
      var k :| k in ks;
      t.inventories[k].fee + SumFee(t, ks - {k})
  }

  /** The query lists this room type. */
  ghost predicate Listed(t: Tables, roomTypes: map<Uuid, RoomType>, c: Criteria, nights: int, id: Uuid) {
    var group := Group(t, DayOf(c.checkin), DayOf(c.checkout), id);
    && id in roomTypes && !roomTypes[id].deleted && roomTypes[id].capacity >= c.guests
    && (c.prefecture == "" || roomTypes[id].prefecture == c.prefecture)
    && group != {} && |group| == nights
    && (c.maxFee == 0 || SumFee(t, group) <= c.maxFee)
  }

  /**
   * The rows answering the query for the room types in `ids`: each listed one once, with the sum of its fees, cheapest
   * first.
   */
  ghost predicate AnswersAmong(rows: seq<Row>, ids: set<Uuid>, t: Tables, roomTypes: map<Uuid, RoomType>, c: Criteria,
                               nights: int)
  {
    && (forall i :: 0 <= i < |rows| ==>
          && rows[i].roomTypeId in ids && Listed(t, roomTypes, c, nights, rows[i].roomTypeId)
          && rows[i].totalFee == TotalOf(t, c, rows[i].roomTypeId))
    && (forall id :: id in ids && Listed(t, roomTypes, c, nights, id) ==> Mentions(rows, id))
    && (forall i, j :: 0 <= i < j < |rows| ==>
         rows[i].roomTypeId != rows[j].roomTypeId && rows[i].totalFee <= rows[j].totalFee)
  }

  ghost predicate Answers(rows: seq<Row>, t: Tables, roomTypes: map<Uuid, RoomType>, c: Criteria, nights: int) {
    AnswersAmong(rows, roomTypes.Keys, t, roomTypes, c, nights)
  }

  ghost function TotalOf(t: Tables, c: Criteria, id: Uuid): int {
    SumFee(t, Group(t, DayOf(c.checkin), DayOf(c.checkout), id))
  }

  predicate Mentions(rows: seq<Row>, id: Uuid) {
    exists i :: 0 <= i < |rows| && rows[i].roomTypeId == id
  }

  /** SUM over the rows of a group, in whatever order they come. */
  method Sum(t: Tables, ks: set<InventoryId>) returns (sum: int)
    requires ks <= t.inventories.Keys
    ensures sum == SumFee(t, ks)
  {
    sum := 0;
    var todo := ks;
    while todo != {}
      invariant todo <= ks && sum + SumFee(t, todo) == SumFee(t, ks)
      decreases |todo|
    {
      var k :| k in todo;
      SumWithout(t, todo, k);
      sum := sum + t.inventories[k].fee;
      todo := todo - {k};
    }
  }

  /** The WHERE and HAVING clauses for one room type, and its SUM. */
  method Evaluate(t: Tables, roomTypes: map<Uuid, RoomType>, c: Criteria, nights: int, id: Uuid)
    returns (listed: bool, total: int)
    requires id in roomTypes
    ensures listed <==> Listed(t, roomTypes, c, nights, id)
    ensures total == TotalOf(t, c, id)
  {
    var group := Group(t, DayOf(c.checkin), DayOf(c.checkout), id);
    total := Sum(t, group);
    var r := roomTypes[id];
    listed := !r.deleted && r.capacity >= c.guests && (c.prefecture == "" || r.prefecture == c.prefecture)
      && group != {} && |group| == nights && (c.maxFee == 0 || total <= c.maxFee);
  }

  /** Where a row belongs by its total. */
  method Place(rows: seq<Row>, total: int) returns (i: nat)
    requires forall j, k :: 0 <= j < k < |rows| ==> rows[j].totalFee <= rows[k].totalFee
    ensures i <= |rows|
    ensures forall j :: 0 <= j < i ==> rows[j].totalFee <= total
    ensures forall j :: i <= j < |rows| ==> total <= rows[j].totalFee
  {
    i := 0;
    while i < |rows| && rows[i].totalFee < total
      invariant i <= |rows| && forall j :: 0 <= j < i ==> rows[j].totalFee <= total
    {
      i := i + 1;
    }
  }

  /** The query SearchRoomTypes. */
  method SearchRoomTypes(t: Tables, roomTypes: map<Uuid, RoomType>, c: Criteria, nights: int) returns (rows: seq<Row>)
    ensures Answers(rows, t, roomTypes, c, nights)
  {
    hide Listed, TotalOf, Mentions;
    rows := [];
    var todo := roomTypes.Keys;
    while todo != {}
      invariant todo <= roomTypes.Keys && AnswersAmong(rows, roomTypes.Keys - todo, t, roomTypes, c, nights)
      decreases |todo|
    {
      var id :| id in todo;
      ghost var seen := roomTypes.Keys - todo;
      var listed, total := Evaluate(t, roomTypes, c, nights, id);
      todo := todo - {id};
      assert roomTypes.Keys - todo == seen + {id};
      if listed {
        var i := Place(rows, total);
        RowInserted(rows, seen, t, roomTypes, c, nights, i, Row(id, total));
        rows := rows[..i] + [Row(id, total)] + rows[i..];
      }
    }
    assert roomTypes.Keys - {} == roomTypes.Keys;
  }

  lemma RowInserted(rows: seq<Row>, seen: set<Uuid>, t: Tables, roomTypes: map<Uuid, RoomType>, c: Criteria,
      nights: int, i: nat, row: Row)
    requires AnswersAmong(rows, seen, t, roomTypes, c, nights) && row.roomTypeId !in seen && i <= |rows|
    requires Listed(t, roomTypes, c, nights, row.roomTypeId) && row.totalFee == TotalOf(t, c, row.roomTypeId)
    requires forall j :: 0 <= j < i ==> rows[j].totalFee <= row.totalFee
    requires forall j :: i <= j < |rows| ==> row.totalFee <= rows[j].totalFee
    ensures AnswersAmong(rows[..i] + [row] + rows[i..], seen + {row.roomTypeId}, t, roomTypes, c, nights)
  {
    hide Listed, TotalOf, Mentions;
    var rows' := rows[..i] + [row] + rows[i..];
    assert forall j :: 0 <= j < |rows'| ==> rows'[j] == if j < i then rows[j] else if j == i then row else rows[j - 1];
    forall id ensures Mentions(rows', id) <==> Mentions(rows, id) || id == row.roomTypeId {
      MentionsOneMore(rows, i, row, id);
    }
  }

  lemma MentionsOneMore(rows: seq<Row>, i: nat, row: Row, id: Uuid)
    requires i <= |rows|
    ensures Mentions(rows[..i] + [row] + rows[i..], id) <==> Mentions(rows, id) || id == row.roomTypeId
  {
    var rows' := rows[..i] + [row] + rows[i..];
    if id == row.roomTypeId {
      assert rows'[i].roomTypeId == id;
    } else if Mentions(rows, id) {
      var j :| 0 <= j < |rows| && rows[j].roomTypeId == id;
      assert rows'[if j < i then j else j + 1].roomTypeId == id;
    }
  }

  /**
   * The two filters, on any answers: with a prefecture and a maximal fee the query lists exactly those rows of the
   * unfiltered query whose room type is in the prefecture and whose total is no more than that; '' and 0 filter
   * nothing.
   */
  lemma FiltersAreExact(rows: seq<Row>, all: seq<Row>, t: Tables, roomTypes: map<Uuid, RoomType>, c: Criteria,
      nights: int)
    requires Answers(rows, t, roomTypes, c, nights)
    requires Answers(all, t, roomTypes, c.(prefecture := "", maxFee := 0), nights)
    ensures forall row :: row in all ==> row.roomTypeId in roomTypes
    ensures forall row :: row in rows <==>
              && row in all
              && (c.prefecture != "" ==> roomTypes[row.roomTypeId].prefecture == c.prefecture)
              && (c.maxFee != 0 ==> row.totalFee <= c.maxFee)
  {
    var plain := c.(prefecture := "", maxFee := 0);
    hide Group, SumFee;
    forall row | row in rows ensures row in all {
      assert Mentions(all, row.roomTypeId);
    }
    forall row | row in all && (c.prefecture != "" ==> roomTypes[row.roomTypeId].prefecture == c.prefecture)
                 && (c.maxFee != 0 ==> row.totalFee <= c.maxFee)
      ensures row in rows
    {
      assert Listed(t, roomTypes, c, nights, row.roomTypeId);
      assert Mentions(rows, row.roomTypeId);
    }
  }

  /** Search: refuses bad criteria, otherwise evaluates the query and passes its rows on with the number of nights. */
  method Search(t: Tables, roomTypes: map<Uuid, RoomType>, c: Criteria)
    returns (r: Result<seq<SearchResult>, SearchError>)
    ensures DayOf(c.checkout) <= DayOf(c.checkin) ==> r == Err(ErrInvalidPeriod)
    ensures DayOf(c.checkin) < DayOf(c.checkout) && c.guests < 1 ==> r == Err(ErrInvalidGuests)
    ensures DayOf(c.checkin) < DayOf(c.checkout) && c.guests >= 1 ==>
              && r.Ok?
              && var nights := DaysBetween(DayOf(c.checkin), DayOf(c.checkout));
              && (forall i :: 0 <= i < |r.value| ==> r.value[i].nights == nights)
              && Answers(RowsOf(r.value), t, roomTypes, c, nights)
  {
    hide Answers;
    var nights := ValidCriteria(c);
    if nights.Err? {
      return Err(nights.error);
    }
    var rows := SearchRoomTypes(t, roomTypes, c, nights.value);
    var results: seq<SearchResult> := [];
    for i := 0 to |rows|
      invariant |results| == i
      invariant forall j :: 0 <= j < i ==> results[j] == SearchResult(rows[j], nights.value)
    {
      results := results + [SearchResult(rows[i], nights.value)];
    }
    assert RowsOf(results) == rows;
    return Ok(results);
  }

  function RowsOf(results: seq<SearchResult>): seq<Row> {
    seq(|results|, i requires 0 <= i < |results| => results[i].row)
  }

  // ---- counting rows is counting slots ----

  lemma HeldCountIsHoldCount(t: Tables, k: InventoryId, s: I.InventoryState)
    requires Represents(t, k, s)
    ensures |HeldIds(t, k)| == |s.holds|
  {
    var ids := map b | b in s.holds :: s.holds[b].id;
    assert ids.Keys == s.holds.Keys;
    forall a, b | a in ids && b in ids && a != b ensures ids[a] != ids[b] {
      assert t.holds[s.holds[a].id].bookingId == a && t.holds[s.holds[b].id].bookingId == b;
    }
    InjectiveValues(ids);
    forall id ensures id in ids.Values <==> id in HeldIds(t, k) {
      if id in ids.Values {
        var b :| b in ids && ids[b] == id;
        assert HasRow(t, k, s.holds[b].id);
      }
      if id in HeldIds(t, k) {
        assert HasRow(t, k, id);
        assert ids[t.holds[id].bookingId] == id;
      }
    }
    assert ids.Values == HeldIds(t, k);
  }

  /** The night is available to the query exactly when a Hold on it would succeed. */
  lemma AvailableIsBookable(t: Tables, db: Db, k: InventoryId, checkin: Day, checkout: Day)
    requires RepresentsAll(t, db.inventories)
    ensures k in Available(t, checkin, checkout) <==> checkin <= k.date < checkout && Bookable(db, k, {})
  {
    if k in db.inventories {
      assert Represents(t, k, db.inventories[k]);
      HeldCountIsHoldCount(t, k, db.inventories[k]);
    }
  }

  lemma {:induction false} FirstNightsSize(b: B.Booking, n: nat)
    ensures |FirstNights(b, n)| == n
  {
    if n == 0 {
      assert FirstNights(b, 0) == {};
    } else {
      FirstNightsSize(b, n - 1);
      assert FirstNights(b, n) == FirstNights(b, n - 1) + {b.Night(n - 1)};
    }
  }

  /** COUNT(av.date) equals the number of nights exactly when every night of the stay is present. */
  lemma CountMeansEveryNight(t: Tables, db: Db, b: B.Booking)
    requires RepresentsAll(t, db.inventories) && b.period.Valid()
    ensures var group := Group(t, b.period.checkin, b.period.checkout, b.roomTypeId); var n := b.period.Nights();
            && (|group| == n <==> AllBookable(db, b, {}))
            && (|group| == n ==> group == FirstNights(b, n))
  {
    hide RepresentsAll, Bookable, Available, AllBookable, FirstNights;
    var group := Group(t, b.period.checkin, b.period.checkout, b.roomTypeId);
    forall k ensures k in group <==> b.Covers(k) && Bookable(db, k, {}) {
      AvailableIsBookable(t, db, k, b.period.checkin, b.period.checkout);
    }
    CountBookableNights(db, b, group);
  }

  lemma CountBookableNights(db: Db, b: B.Booking, group: set<InventoryId>)
    requires b.period.Valid() && forall k :: k in group <==> b.Covers(k) && Bookable(db, k, {})
    ensures |group| == b.period.Nights() <==> AllBookable(db, b, {})
    ensures |group| == b.period.Nights() ==> group == FirstNights(b, b.period.Nights())
  {
    hide Bookable;
    var n := b.period.Nights();
    forall k | k in group ensures k in FirstNights(b, n) {
      assert k == b.Night(k.date - b.period.checkin);
    }
    FirstNightsSize(b, n);
    SubsetSize(group, FirstNights(b, n));
    if AllBookable(db, b, {}) {
      forall k | k in FirstNights(b, n) ensures k in group {
        var i :| 0 <= i < n && b.Night(i) == k;
        assert Bookable(db, b.Night(i), {});
      }
      assert group == FirstNights(b, n);
    }
    if group == FirstNights(b, n) {
      forall i | 0 <= i < n ensures Bookable(db, b.Night(i), {}) {
        assert b.Night(i) in group;
      }
    }
  }

  lemma {:induction false} SumWithout(t: Tables, ks: set<InventoryId>, k: InventoryId)
    requires ks <= t.inventories.Keys && k in ks
    ensures SumFee(t, ks) == t.inventories[k].fee + SumFee(t, ks - {k})
    decreases |ks|
  {
    var first :| first in ks && SumFee(t, ks) == t.inventories[first].fee + SumFee(t, ks - {first});
    if first != k {
      SumWithout(t, ks - {first}, k);
      SumWithout(t, ks - {k}, first);
      assert ks - {first} - {k} == ks - {k} - {first};
    }
  }

  lemma FeeIsStored(t: Tables, db: Db, k: InventoryId)
    requires RepresentsAll(t, db.inventories) && k in db.inventories
    ensures k in t.inventories && t.inventories[k].fee == db.inventories[k].fee
  {
    assert Represents(t, k, db.inventories[k]);
  }

  /** The unordered SUM of the query is the sum holdAllDates accumulates night by night. */
  lemma {:induction false} SumIsFeeSum(t: Tables, db: Db, b: B.Booking, n: nat)
    requires RepresentsAll(t, db.inventories)
    requires forall i :: 0 <= i < n ==> b.Night(i) in db.inventories
    ensures FirstNights(b, n) <= t.inventories.Keys && SumFee(t, FirstNights(b, n)) == FeeSum(db, b, n)
  {
    hide RepresentsAll, FirstNights;
    FirstNightsSteps(b, n);
    if n > 0 {
      SumIsFeeSum(t, db, b, n - 1);
      FeeIsStored(t, db, b.Night(n - 1));
      SumWithout(t, FirstNights(b, n), b.Night(n - 1));
    }
  }

  lemma FirstNightsSteps(b: B.Booking, n: nat)
    ensures n == 0 ==> FirstNights(b, n) == {}
    ensures n > 0 ==>
              && FirstNights(b, n) == FirstNights(b, n - 1) + {b.Night(n - 1)}
              && FirstNights(b, n) - {b.Night(n - 1)} == FirstNights(b, n - 1)
  {
  }

  // ---- Search agrees with Book ----

  /** `Capacity` of the room type finder: deleted room types are not found. */
  function FindCapacity(roomTypes: map<Uuid, RoomType>, id: Uuid): Option<int> {
    if id in roomTypes && !roomTypes[id].deleted then Some(roomTypes[id].capacity) else None
  }

  function CriteriaOf(input: BookInput): Criteria {
    Criteria("", input.checkin, input.checkout, |input.guests|, 0)
  }

  ghost predicate SearchLists(t: Tables, roomTypes: map<Uuid, RoomType>, c: Criteria, id: Uuid) {
    ValidCriteria(c).Ok? && Listed(t, roomTypes, c, ValidCriteria(c).value, id)
  }

  /** With valid names and a checkin that is not past, Book can succeed exactly when Search lists the room type. */
  lemma ListedIsBookable(t: Tables, db: Db, roomTypes: map<Uuid, RoomType>, input: BookInput, now: Instant)
    requires RepresentsAll(t, db.inventories) && input.NamesOk() && DayOf(now) <= input.Period().checkin
    ensures SearchLists(t, roomTypes, CriteriaOf(input), input.roomTypeId) <==>
            input.Acceptable(FindCapacity(roomTypes, input.roomTypeId), now)
            && AllBookable(db, FreshBooking(db, input), {})
    ensures SearchLists(t, roomTypes, CriteriaOf(input), input.roomTypeId) ==>
              SumFee(t, Group(t, DayOf(input.checkin), DayOf(input.checkout), input.roomTypeId)) ==
              FeeSum(db, FreshBooking(db, input), input.Period().Nights())
  {
    hide RepresentsAll, Bookable, AllBookable, Group, SumFee, FeeSum, FirstNights;
    var b := FreshBooking(db, input);
    if input.Period().Valid() {
      CountMeansEveryNight(t, db, b);
      if AllBookable(db, b, {}) {
        NightsExist(db, b);
        SumIsFeeSum(t, db, b, b.period.Nights());
      }
    }
  }

  lemma NightsExist(db: Db, b: B.Booking)
    requires AllBookable(db, b, {})
    ensures forall i :: 0 <= i < b.period.Nights() ==> b.Night(i) in db.inventories
  {
  }

  /**
   * From any quiet database and the tables that represent it: Book, uninterrupted, for the guests and dates searched
   * for, succeeds if and only if Search lists the room type, and then charges exactly the total that Search shows.
   */
  method BookWhatSearchLists(service: Service, input: BookInput, roomTypes: map<Uuid, RoomType>, now: Instant,
      at: Instant, ghost t: Tables)
    returns (r: Result<B.Booking, ServiceError>)
    requires service.Valid() && RepresentsAll(t, service.db.inventories)
    requires input.NamesOk() && DayOf(now) <= input.Period().checkin
    modifies service
    ensures r.Ok? <==> SearchLists(t, roomTypes, CriteriaOf(input), input.roomTypeId)
    ensures r.Ok? ==>
              r.value.totalFee == SumFee(t, Group(t, DayOf(input.checkin), DayOf(input.checkout), input.roomTypeId))
  {
    hide Taken, FirstNights, Listed, Group, SumFee, RepresentsAll, SearchLists;
    ListedIsBookable(t, service.db, roomTypes, input, now);
    r := service.Book(input, FindCapacity(roomTypes, input.roomTypeId), now, at, S.Commit, S.Commit, {}, {});
  }
}
