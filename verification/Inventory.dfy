/** `server/internal/inventory/domain/inventory.go`: the inventory aggregate, which edits its list of holds in place. */
module InventoryAggregate {
  import opened Common
  import opened I = InventorySpec

  ghost predicate DistinctBookings(holds: seq<Hold>) {
    forall i, j :: 0 <= i < j < |holds| ==> holds[i].bookingId != holds[j].bookingId
  }

  /** The list of holds read as a table by booking. */
  ghost function ByBooking(holds: seq<Hold>): map<Uuid, Hold> {
    if holds == [] then map[]
    else
      var h := holds[|holds| - 1];
      ByBooking(holds[..|holds| - 1])[h.bookingId := h]
  }

  /** Every hold of the list is in the table under its booking. */
  lemma {:induction false} Lookup(holds: seq<Hold>, i: nat)
    requires DistinctBookings(holds) && i < |holds|
    ensures holds[i].bookingId in ByBooking(holds) && ByBooking(holds)[holds[i].bookingId] == holds[i]
    decreases |holds|
  {
    if i < |holds| - 1 {
      Lookup(holds[..|holds| - 1], i);
    }
  }

  /** Every entry of the table is in the list. */
  lemma {:induction false} Position(holds: seq<Hold>, b: Uuid) returns (i: nat)
    requires b in ByBooking(holds)
    ensures i < |holds| && holds[i] == ByBooking(holds)[b] && holds[i].bookingId == b
  {
    if holds[|holds| - 1].bookingId == b {
      i := |holds| - 1;
    } else {
      i := Position(holds[..|holds| - 1], b);
    }
  }

  lemma NotInTable(holds: seq<Hold>, b: Uuid)
    requires forall i :: 0 <= i < |holds| ==> holds[i].bookingId != b
    ensures b !in ByBooking(holds)
  {
    if b in ByBooking(holds) {
      var i := Position(holds, b);
    }
  }

  /** HoldCount: with distinct bookings the list is as long as the table is large. */
  lemma {:induction false} CountByBooking(holds: seq<Hold>)
    requires DistinctBookings(holds)
    ensures |ByBooking(holds)| == |holds|
  {
    if holds != [] {
      var init, h := holds[..|holds| - 1], holds[|holds| - 1];
      CountByBooking(init);
      NotInTable(init, h.bookingId);
      assert ByBooking(holds).Keys == ByBooking(init).Keys + {h.bookingId};
    }
  }

  lemma AppendByBooking(holds: seq<Hold>, h: Hold)
    ensures ByBooking(holds + [h]) == ByBooking(holds)[h.bookingId := h]
  {
    assert (holds + [h])[..|holds|] == holds;
  }

  lemma AppendKeepsDistinct(holds: seq<Hold>, h: Hold)
    requires DistinctBookings(holds) && h.bookingId !in ByBooking(holds)
    ensures DistinctBookings(holds + [h])
  {
    forall i | 0 <= i < |holds| ensures holds[i].bookingId != h.bookingId {
      Lookup(holds, i);
    }
  }

  lemma {:induction false} RemoveByBooking(holds: seq<Hold>, i: nat)
    requires DistinctBookings(holds) && i < |holds|
    ensures var rest := holds[..i] + holds[i + 1..];
            DistinctBookings(rest) && ByBooking(rest) == ByBooking(holds) - {holds[i].bookingId}
    decreases |holds|
  {
    var last := |holds| - 1;
    var init, h := holds[..last], holds[last];
    assert holds == init + [h];
    AppendByBooking(init, h);
    hide ByBooking;
    if i == last {
      NotInTable(init, h.bookingId);
      assert holds[..i] + holds[i + 1..] == init;
      assert ByBooking(init)[h.bookingId := h] - {h.bookingId} == ByBooking(init);
    } else {
      RemoveByBooking(init, i);
      var shorter := init[..i] + init[i + 1..];
      assert holds[..i] + holds[i + 1..] == shorter + [h];
      AppendByBooking(shorter, h);
      assert ByBooking(init)[h.bookingId := h] - {holds[i].bookingId} ==
          (ByBooking(init) - {holds[i].bookingId})[h.bookingId := h];
    }
  }

  lemma {:induction false} UpdateByBooking(holds: seq<Hold>, i: nat, h: Hold)
    requires DistinctBookings(holds) && i < |holds| && h.bookingId == holds[i].bookingId
    ensures DistinctBookings(holds[i := h]) && ByBooking(holds[i := h]) == ByBooking(holds)[h.bookingId := h]
    decreases |holds|
  {
    var last := |holds| - 1;
    var init := holds[..last];
    if i == last {
      assert holds[i := h] == init + [h];
      AppendByBooking(init, h);
    } else {
      UpdateByBooking(init, i, h);
      assert holds[i := h] == init[i := h] + [holds[last]];
      AppendByBooking(init[i := h], holds[last]);
    }
  }

  /** `remained` holds what is left of `holds` without the expired ones. */
  ghost predicate Filtered(holds: seq<Hold>, remained: seq<Hold>, now: Instant) {
    && DistinctBookings(holds) && DistinctBookings(remained)
    && (forall b :: b in ByBooking(remained) <==> b in ByBooking(holds) && !Expired(ByBooking(holds)[b], now))
    && (forall b :: b in ByBooking(remained) ==> ByBooking(remained)[b] == ByBooking(holds)[b])
  }

  lemma FilterOneMore(holds: seq<Hold>, remained: seq<Hold>, h: Hold, now: Instant)
    requires Filtered(holds, remained, now) && DistinctBookings(holds + [h])
    ensures Filtered(holds + [h], if Expired(h, now) then remained else remained + [h], now)
  {
    hide ByBooking;
    assert forall i :: 0 <= i < |holds| ==> (holds + [h])[i] == holds[i];
    assert (holds + [h])[|holds|] == h;
    NotInTable(holds, h.bookingId);
    AppendByBooking(holds, h);
    AppendByBooking(remained, h);
    AppendKeepsDistinct(remained, h);
  }

  lemma FilterNothing(now: Instant)
    ensures Filtered([], [], now)
  {
  }

  lemma FilteredIsCollected(s: InventoryState, holds: seq<Hold>, remained: seq<Hold>, now: Instant)
    requires s.Valid() && s.holds == ByBooking(holds) && Filtered(holds, remained, now)
    requires |remained| <= |holds|
    ensures DistinctBookings(remained)
    ensures Apply(s, CollectOp(now)) == Ok(Applied(s.(holds := ByBooking(remained)), Collected(|holds| - |remained|)))
  {
    hide InventoryState.Valid, Expired, ByBooking;
    CountByBooking(holds);
    CountByBooking(remained);
    ExpiredMeans(s, now);
    assert ByBooking(remained) == s.holds - ExpiredBookings(s, now);
    KeptCount(s.holds, ExpiredBookings(s, now));
  }

  /** The booking is on the list at position i. */
  predicate IsAt(holds: seq<Hold>, b: Uuid, i: int) {
    0 <= i < |holds| && holds[i].bookingId == b
  }

  ghost predicate Mentions(holds: seq<Hold>, b: Uuid) {
    exists i :: IsAt(holds, b, i)
  }

  lemma InTableIffMentioned(holds: seq<Hold>, b: Uuid)
    requires DistinctBookings(holds)
    ensures b in ByBooking(holds) <==> Mentions(holds, b)
  {
    if b in ByBooking(holds) {
      var i := Position(holds, b);
      assert IsAt(holds, b, i);
    }
    if Mentions(holds, b) {
      var i :| IsAt(holds, b, i);
      Lookup(holds, i);
    }
  }

  ghost predicate SlotTaken(holds: seq<Hold>, n: int) {
    exists i :: 0 <= i < |holds| && holds[i].slotNo == n
  }

  /** n is the lowest of 1..quantity that no hold of the list has. */
  ghost predicate IsLeastFree(holds: seq<Hold>, quantity: int, n: int) {
    && 1 <= n <= quantity && !SlotTaken(holds, n)
    && forall m :: 1 <= m < n ==> SlotTaken(holds, m)
  }

  class Inventory {
    const id: InventoryId
    var holds: seq<Hold>
    var fee: int
    var quantityAvailable: int
    var isClosed: bool

    ghost predicate Valid()
      reads this
    {
      DistinctBookings(holds) && State().Valid()
    }

    ghost function State(): InventoryState
      reads this
      requires DistinctBookings(holds)
    {
      InventoryState(ByBooking(holds), fee, quantityAvailable, isClosed)
    }

    /** Register on a validated quantity and fee. */
    constructor Register(id: InventoryId, quantity: nat, fee: nat)
      ensures Valid() && this.id == id && I.Register(quantity, fee) == Ok(State())
      ensures holds == [] && this.fee == fee && quantityAvailable == quantity && !isClosed
    {
      this.id := id;
      holds, this.fee, quantityAvailable, isClosed := [], fee, quantity, false;
    }

    /** Reconstruct takes whatever was stored. */
    constructor Reconstruct(id: InventoryId, quantityAvailable: int, fee: int, isClosed: bool, holds: seq<Hold>)
      ensures this.id == id && this.holds == holds && this.fee == fee
      ensures this.quantityAvailable == quantityAvailable && this.isClosed == isClosed
    {
      this.id := id;
      this.holds, this.fee, this.quantityAvailable, this.isClosed := holds, fee, quantityAvailable, isClosed;
    }

    /** indexOfHold. */
    method IndexOfHold(bookingId: Uuid) returns (i: nat, found: bool)
      requires DistinctBookings(holds)
      ensures found <==> bookingId in ByBooking(holds)
      ensures found <==> Mentions(holds, bookingId)
      ensures found ==> i < |holds| && holds[i] == ByBooking(holds)[bookingId] && IsAt(holds, bookingId, i)
    {
      i := 0;
      while i < |holds|
        invariant i <= |holds|
        invariant forall j :: 0 <= j < i ==> holds[j].bookingId != bookingId
      {
        if holds[i].bookingId == bookingId {
          Lookup(holds, i);
          assert IsAt(holds, bookingId, i);
          return i, true;
        }
        i := i + 1;
      }
      NotInTable(holds, bookingId);
      return 0, false;
    }

    /** vacantSlotNo: the lowest free number in 1..quantity, if there is one. */
    method VacantSlotNo() returns (n: int, ok: bool)
      requires DistinctBookings(holds)
      ensures (if ok then Some(n) else None) == FirstFree(State().Slots(), 1, quantityAvailable)
      ensures ok ==> State().LeastVacant(n) && IsLeastFree(holds, quantityAvailable, n)
    {
      var used: set<int> := {};
      var i := 0;
      while i < |holds|
        invariant 0 <= i <= |holds|
        invariant forall m :: m in used <==> exists j :: 0 <= j < i && holds[j].slotNo == m
      {
        used := used + {holds[i].slotNo};
        i := i + 1;
      }
      UsedAreSlots(used);
      assert forall m :: m in used <==> SlotTaken(holds, m);
      n := 1;
      while n <= quantityAvailable
        invariant 1 <= n
        invariant FirstFree(used, n, quantityAvailable) == FirstFree(used, 1, quantityAvailable)
        invariant forall m :: 1 <= m < n ==> m in used
        decreases quantityAvailable - n
      {
        if n !in used {
          return n, true;
        }
        n := n + 1;
      }
      return 0, false;
    }

    lemma UsedAreSlots(used: set<int>)
      requires DistinctBookings(holds)
      requires forall m :: m in used <==> exists j :: 0 <= j < |holds| && holds[j].slotNo == m
      ensures used == State().Slots()
    {
      var m := ByBooking(holds);
      forall n ensures n in used <==> n in State().Slots() {
        if n in used {
          var j :| 0 <= j < |holds| && holds[j].slotNo == n;
          Lookup(holds, j);
          assert holds[j].bookingId in m && m[holds[j].bookingId].slotNo == n;
        }
        if n in State().Slots() {
          var b :| b in m && m[b].slotNo == n;
          var j := Position(holds, b);
        }
      }
    }

    /** maxSlotNo: the highest number in use. */
    method MaxSlotNo() returns (max: int)
      requires Valid()
      ensures State().IsMaxSlot(max)
      ensures max >= 0 && forall i :: 0 <= i < |holds| ==> holds[i].slotNo <= max
      ensures max > 0 ==> exists i :: 0 <= i < |holds| && holds[i].slotNo == max
    {
      max := 0;
      var i := 0;
      while i < |holds|
        invariant 0 <= i <= |holds| && max >= 0
        invariant forall j :: 0 <= j < i ==> holds[j].slotNo <= max
        invariant max == 0 || exists j :: 0 <= j < i && holds[j].slotNo == max
      {
        if holds[i].slotNo > max {
          max := holds[i].slotNo;
        }
        i := i + 1;
      }
      var used := set j | 0 <= j < |holds| :: holds[j].slotNo;
      UsedAreSlots(used);
      forall b | b in ByBooking(holds) ensures ByBooking(holds)[b].slotNo <= max {
        var j := Position(holds, b);
      }
    }

    method Hold(holdId: Uuid, bookingId: Uuid, expiredAt: Instant, now: Instant)
      returns (r: Result<int, InventoryError>)
      requires Valid()
      modifies this`holds
      ensures Valid()
      ensures match Apply(old(State()), HoldOp(holdId, bookingId, expiredAt, now))
              case Ok(a) => State() == a.state && r.Ok? && a.reply == Held(r.value, fee)
                            && old(State()).LeastVacant(r.value)
              case Err(e) => r == Err(e) && holds == old(holds)
      ensures r.Ok? <==>
                !isClosed && expiredAt > now && !Mentions(old(holds), bookingId) && |old(holds)| < quantityAvailable
      ensures r.Ok? ==>
                && holds == old(holds) + [I.Hold(holdId, bookingId, r.value, TemporaryHold, Some(expiredAt))]
                && IsLeastFree(old(holds), quantityAvailable, r.value)
      ensures r.Err? ==>
                && holds == old(holds)
                && r.error == if isClosed then ErrClosed else if expiredAt <= now then ErrInvalidExpiration
                              else if Mentions(old(holds), bookingId) then ErrDuplicatedHold else ErrSoldOut
    {
      HoldCounts(holdId, bookingId, expiredAt, now);
      if isClosed {
        return Err(ErrClosed);
      }
      if !(expiredAt > now) {
        return Err(ErrInvalidExpiration);
      }
      var _, found := IndexOfHold(bookingId);
      if found {
        return Err(ErrDuplicatedHold);
      }
      var slotNo, ok := VacantSlotNo();
      if !ok {
        return Err(ErrSoldOut);
      }
      var h := I.Hold(holdId, bookingId, slotNo, TemporaryHold, Some(expiredAt));
      AppendByBooking(holds, h);
      AppendKeepsDistinct(holds, h);
      ApplyKeepsValid(State(), HoldOp(holdId, bookingId, expiredAt, now));
      holds := holds + [h];
      return Ok(slotNo);
    }

    /** What the table of holds says about the list when a Hold is asked for. */
    lemma HoldCounts(holdId: Uuid, bookingId: Uuid, expiredAt: Instant, now: Instant)
      requires Valid()
      ensures !isClosed && expiredAt > now && !Mentions(holds, bookingId) ==>
                (Apply(State(), HoldOp(holdId, bookingId, expiredAt, now)).Ok? <==> |holds| < quantityAvailable)
    {
      InTableIffMentioned(holds, bookingId);
      CountByBooking(holds);
      if !isClosed && expiredAt > now && !Mentions(holds, bookingId) {
        HoldIsExact(State(), HoldOp(holdId, bookingId, expiredAt, now));
      }
    }

    method StartPayment(bookingId: Uuid) returns (err: Option<InventoryError>)
      requires Valid()
      modifies this`holds
      ensures Valid()
      ensures match Apply(old(State()), StartPaymentOp(bookingId))
              case Ok(a) => State() == a.state && err == None
              case Err(e) => err == Some(e) && holds == old(holds)
      ensures !Mentions(old(holds), bookingId) ==> err == Some(ErrHoldNotFound)
      ensures forall i :: IsAt(old(holds), bookingId, i) ==>
                if old(holds)[i].status == TemporaryHold then
                  && err == None
                  && holds == old(holds)[i := old(holds)[i].(status := ProcessingPayment, expiredAt := None)]
                else err == Some(ErrInvalidTransition)
    {
      hide InventoryState.Valid, ByBooking;
      var i, ok := IndexOfHold(bookingId);
      if !ok {
        return Some(ErrHoldNotFound);
      }
      if holds[i].status != TemporaryHold {
        return Some(ErrInvalidTransition);
      }
      var h := holds[i].(status := ProcessingPayment, expiredAt := None);
      UpdateByBooking(holds, i, h);
      ApplyKeepsValid(State(), StartPaymentOp(bookingId));
      holds := holds[i := h];
      return None;
    }

    method Confirm(bookingId: Uuid) returns (err: Option<InventoryError>)
      requires Valid()
      modifies this`holds
      ensures Valid()
      ensures match Apply(old(State()), ConfirmOp(bookingId))
              case Ok(a) => State() == a.state && err == None
              case Err(e) => err == Some(e) && holds == old(holds)
      ensures !Mentions(old(holds), bookingId) ==> err == Some(ErrHoldNotFound)
      ensures forall i :: IsAt(old(holds), bookingId, i) ==>
                match old(holds)[i].status
                case ProcessingPayment =>
                  err == None && holds == old(holds)[i := old(holds)[i].(status := Confirmed, expiredAt := None)]
                case Confirmed => err == None && holds == old(holds)
                case TemporaryHold => err == Some(ErrInvalidTransition)
    {
      hide InventoryState.Valid, ByBooking;
      var i, ok := IndexOfHold(bookingId);
      if !ok {
        return Some(ErrHoldNotFound);
      }
      if holds[i].status == Confirmed {
        return None;
      }
      if holds[i].status != ProcessingPayment {
        return Some(ErrInvalidTransition);
      }
      var h := holds[i].(status := Confirmed, expiredAt := None);
      UpdateByBooking(holds, i, h);
      ApplyKeepsValid(State(), ConfirmOp(bookingId));
      holds := holds[i := h];
      return None;
    }

    method Release(bookingId: Uuid) returns (err: Option<InventoryError>)
      requires Valid()
      modifies this`holds
      ensures Valid()
      ensures match Apply(old(State()), ReleaseOp(bookingId))
              case Ok(a) => State() == a.state && err == None
              case Err(e) => err == Some(e) && holds == old(holds)
      ensures !Mentions(old(holds), bookingId) ==> err == Some(ErrHoldNotFound)
      ensures forall i :: IsAt(old(holds), bookingId, i) ==>
                err == None && holds == old(holds)[..i] + old(holds)[i + 1..]
    {
      hide InventoryState.Valid, ByBooking;
      var i, ok := IndexOfHold(bookingId);
      if !ok {
        return Some(ErrHoldNotFound);
      }
      RemoveByBooking(holds, i);
      ApplyKeepsValid(State(), ReleaseOp(bookingId));
      holds := holds[..i] + holds[i + 1..];
      return None;
    }

    method CollectExpired(now: Instant) returns (collected: nat)
      requires Valid()
      modifies this`holds
      ensures Valid()
      ensures Apply(old(State()), CollectOp(now)) == Ok(Applied(State(), Collected(collected)))
      ensures forall h :: h in holds <==>
                h in old(holds) && !(h.status == TemporaryHold && h.expiredAt.Some? && h.expiredAt.value < now)
      ensures collected == |old(holds)| - |holds|
    {
      hide Apply, ByBooking, Filtered;
      var remained: seq<Hold> := [];
      FilterNothing(now);
      collected := 0;
      var i := 0;
      ApplyKeepsValid(State(), CollectOp(now));
      while i < |holds|
        invariant holds == old(holds) && 0 <= i <= |holds| && collected + |remained| == i
        invariant Filtered(holds[..i], remained, now)
        invariant forall h :: h in remained <==>
                    h in holds[..i] && !(h.status == TemporaryHold && h.expiredAt.Some? && h.expiredAt.value < now)
      {
        assert holds[..i + 1] == holds[..i] + [holds[i]];
        FilterOneMore(holds[..i], remained, holds[i], now);
        if Expired(holds[i], now) {
          collected := collected + 1;
        } else {
          remained := remained + [holds[i]];
        }
        i := i + 1;
      }
      assert holds[..i] == holds;
      FilteredIsCollected(State(), holds, remained, now);
      holds := remained;
    }

    method ChangeQuantity(n: int) returns (err: Option<InventoryError>)
      requires Valid()
      modifies this`quantityAvailable
      ensures Valid()
      ensures match Apply(old(State()), ChangeQuantityOp(n))
              case Ok(a) => State() == a.state && err == None
              case Err(e) => err == Some(e) && quantityAvailable == old(quantityAvailable)
      ensures err == if n < 0 then Some(ErrInvalidQuantity)
                     else if exists i :: 0 <= i < |holds| && n < holds[i].slotNo then Some(ErrQuantityBelowHolds)
                     else None
      ensures quantityAvailable == if err == None then n else old(quantityAvailable)
    {
      if n < 0 {
        return Some(ErrInvalidQuantity);
      }
      ApplyKeepsValid(State(), ChangeQuantityOp(n));
      var max := MaxSlotNo();
      if n < max {
        assert max in State().Slots();
        return Some(ErrQuantityBelowHolds);
      }
      quantityAvailable := n;
      return None;
    }

    method ChangeFee(f: nat)
      requires Valid()
      modifies this`fee
      ensures Valid()
      ensures Apply(old(State()), ChangeFeeOp(f)) == Ok(Applied(State(), Done))
      ensures fee == f
    {
      fee := f;
    }

    method Close() returns (err: Option<InventoryError>)
      requires Valid()
      modifies this`isClosed
      ensures Valid()
      ensures match Apply(old(State()), CloseOp)
              case Ok(a) => State() == a.state && err == None
              case Err(e) => err == Some(e) && isClosed == old(isClosed)
      ensures isClosed && err == if old(isClosed) then Some(ErrAlreadyClosed) else None
    {
      if isClosed {
        return Some(ErrAlreadyClosed);
      }
      isClosed := true;
      return None;
    }

    method Reopen() returns (err: Option<InventoryError>)
      requires Valid()
      modifies this`isClosed
      ensures Valid()
      ensures match Apply(old(State()), ReopenOp)
              case Ok(a) => State() == a.state && err == None
              case Err(e) => err == Some(e) && isClosed == old(isClosed)
      ensures !isClosed && err == if old(isClosed) then None else Some(ErrNotClosed)
    {
      if !isClosed {
        return Some(ErrNotClosed);
      }
      isClosed := false;
      return None;
    }
  }
}
