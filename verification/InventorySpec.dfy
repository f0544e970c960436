/**
 * What one inventory (a room type on a date) means, and what each operation of
 * `server/internal/inventory/domain/inventory.go` does to it, independent of how the holds are laid out in memory.
 * The class in Inventory.dfy and the tables in HoldTables.dfy are proved against these functions.
 */
module InventorySpec {
  import opened Common

  datatype HoldStatus = TemporaryHold | Confirmed | ProcessingPayment

  datatype Hold = Hold(id: Uuid, bookingId: Uuid, slotNo: int, status: HoldStatus, expiredAt: Option<Instant>)

  datatype InventoryError =
    | ErrInvalidQuantity | ErrQuantityBelowHolds | ErrSoldOut | ErrClosed | ErrAlreadyClosed | ErrNotClosed
    | ErrDuplicatedHold | ErrInvalidExpiration | ErrHoldNotFound | ErrInvalidTransition | ErrMinusFee

  /** The holds are keyed by booking: a booking holds at most one slot of an inventory. */
  datatype InventoryState = InventoryState(holds: map<Uuid, Hold>, fee: int, quantity: int, isClosed: bool) {

    function Slots(): set<int> {
      set b | b in holds :: holds[b].slotNo
    }

    /** The invariant every operation keeps. */
    ghost predicate Valid() {
      && quantity >= 0 && fee >= 0
      && (forall b :: b in holds ==> holds[b].bookingId == b && 1 <= holds[b].slotNo <= quantity)
      && (forall b :: b in holds ==> (holds[b].expiredAt.Some? <==> holds[b].status == TemporaryHold))
      && (forall a, b :: a in holds && b in holds && a != b ==> holds[a].slotNo != holds[b].slotNo)
    }

    ghost predicate DistinctIds() {
      forall a, b :: a in holds && b in holds && a != b ==> holds[a].id != holds[b].id
    }

    /** n is the lowest slot number in 1..quantity that no hold uses. */
    ghost predicate LeastVacant(n: int) {
      && 1 <= n <= quantity && n !in Slots()
      && forall m :: 1 <= m < n ==> m in Slots()
    }

    /** n is the highest slot number in use, 0 when there is no hold. */
    ghost predicate IsMaxSlot(n: int) {
      && (forall b :: b in holds ==> holds[b].slotNo <= n)
      && (n == 0 || n in Slots())
    }
  }

  predicate Expired(h: Hold, now: Instant) {
    h.status == TemporaryHold && h.expiredAt.Some? && h.expiredAt.value < now
  }

  function FirstFree(used: set<int>, from: int, quantity: int): (r: Option<int>)
    ensures r.Some? ==> from <= r.value <= quantity && r.value !in used && forall m :: from <= m < r.value ==> m in used
    ensures r.None? ==> forall m :: from <= m <= quantity ==> m in used
    decreases quantity - from
  {
    if from > quantity then None
    else if from !in used then Some(from)
    else FirstFree(used, from + 1, quantity)
  }

  // ---- the operations ----

  function Register(quantity: int, fee: int): Result<InventoryState, InventoryError> {
    if fee < 0 then Err(ErrMinusFee)
    else if quantity < 0 then Err(ErrInvalidQuantity)
    else Ok(InventoryState(map[], fee, quantity, false))
  }

  datatype Op =
    | HoldOp(holdId: Uuid, bookingId: Uuid, expiredAt: Instant, now: Instant)
    | StartPaymentOp(bookingId: Uuid)
    | ConfirmOp(bookingId: Uuid)
    | ReleaseOp(bookingId: Uuid)
    | CollectOp(now: Instant)
    | ChangeQuantityOp(n: int)
    | ChangeFeeOp(amount: int)
    | CloseOp
    | ReopenOp

  datatype Reply = Done | Held(slotNo: int, feeAmount: int) | Collected(count: nat)

  datatype Applied = Applied(state: InventoryState, reply: Reply)

  function NewHold(op: Op, slotNo: int): Hold
    requires op.HoldOp?
  {
    Hold(op.holdId, op.bookingId, slotNo, TemporaryHold, Some(op.expiredAt))
  }

  function ExpiredBookings(s: InventoryState, now: Instant): set<Uuid> {
    set b | b in s.holds && Expired(s.holds[b], now)
  }

  function WithStatus(s: InventoryState, b: Uuid, status: HoldStatus): InventoryState
    requires b in s.holds
  {
    s.(holds := s.holds[b := s.holds[b].(status := status, expiredAt := None)])
  }

  function Apply(s: InventoryState, op: Op): Result<Applied, InventoryError> {
    match op
    case HoldOp(_, b, expiredAt, now) =>
      if s.isClosed then Err(ErrClosed)
      else if !(expiredAt > now) then Err(ErrInvalidExpiration)
      else if b in s.holds then Err(ErrDuplicatedHold)
      else (
        match FirstFree(s.Slots(), 1, s.quantity)
        case None => Err(ErrSoldOut)
        case Some(n) => Ok(Applied(s.(holds := s.holds[b := NewHold(op, n)]), Held(n, s.fee)))
      )
    case StartPaymentOp(b) =>
      if b !in s.holds then Err(ErrHoldNotFound)
      else if s.holds[b].status != TemporaryHold then Err(ErrInvalidTransition)
      else Ok(Applied(WithStatus(s, b, ProcessingPayment), Done))
    case ConfirmOp(b) =>
      if b !in s.holds then Err(ErrHoldNotFound)
      else if s.holds[b].status == Confirmed then Ok(Applied(s, Done))
      else if s.holds[b].status != ProcessingPayment then Err(ErrInvalidTransition)
      else Ok(Applied(WithStatus(s, b, Confirmed), Done))
    case ReleaseOp(b) =>
      if b !in s.holds then Err(ErrHoldNotFound)
      else Ok(Applied(s.(holds := s.holds - {b}), Done))
    case CollectOp(now) =>
      Ok(Applied(s.(holds := s.holds - ExpiredBookings(s, now)), Collected(|ExpiredBookings(s, now)|)))
    case ChangeQuantityOp(n) =>
      if n < 0 then Err(ErrInvalidQuantity)
      else if exists b | b in s.holds :: n < s.holds[b].slotNo then Err(ErrQuantityBelowHolds)
      else Ok(Applied(s.(quantity := n), Done))
    case ChangeFeeOp(amount) =>
      if amount < 0 then Err(ErrMinusFee) else Ok(Applied(s.(fee := amount), Done))
    case CloseOp =>
      if s.isClosed then Err(ErrAlreadyClosed) else Ok(Applied(s.(isClosed := true), Done))
    case ReopenOp =>
      if !s.isClosed then Err(ErrNotClosed) else Ok(Applied(s.(isClosed := false), Done))
  }

  // ---- the invariant over every run ----

  lemma ApplyKeepsValid(s: InventoryState, op: Op)
    requires s.Valid()
    ensures Apply(s, op).Ok? ==> Apply(s, op).value.state.Valid()
  {
    match op
    case HoldOp(_, b, _, _) =>
      if Apply(s, op).Ok? { AddingKeepsValid(s, NewHold(op, Apply(s, op).value.reply.slotNo)); }
    case StartPaymentOp(b) => if b in s.holds { StatusKeepsValid(s, b, ProcessingPayment); }
    case ConfirmOp(b) => if b in s.holds { StatusKeepsValid(s, b, Confirmed); }
    case ReleaseOp(b) => DroppingKeepsValid(s, {b});
    case CollectOp(now) => DroppingKeepsValid(s, ExpiredBookings(s, now));
    case _ =>
  }

  lemma AddingKeepsValid(s: InventoryState, h: Hold)
    requires s.Valid() && 1 <= h.slotNo <= s.quantity && h.slotNo !in s.Slots()
    requires h.expiredAt.Some? <==> h.status == TemporaryHold
    ensures s.(holds := s.holds[h.bookingId := h]).Valid()
  {
    assert forall b :: b in s.holds ==> s.holds[b].slotNo in s.Slots();
  }

  lemma StatusKeepsValid(s: InventoryState, b: Uuid, status: HoldStatus)
    requires s.Valid() && b in s.holds && status != TemporaryHold
    ensures WithStatus(s, b, status).Valid()
  {
  }

  lemma DroppingKeepsValid(s: InventoryState, gone: set<Uuid>)
    requires s.Valid()
    ensures s.(holds := s.holds - gone).Valid()
  {
  }

  /** The holds of all bookings but x are the same in both. */
  ghost predicate LocalChange(s: InventoryState, s': InventoryState, x: Uuid) {
    forall y :: y != x ==> (y in s.holds <==> y in s'.holds) && (y in s.holds ==> s.holds[y] == s'.holds[y])
  }

  lemma ApplyIsLocal(s: InventoryState, op: Op)
    requires op.HoldOp? || op.StartPaymentOp? || op.ConfirmOp? || op.ReleaseOp?
    ensures Apply(s, op).Ok? ==> LocalChange(s, Apply(s, op).value.state, op.bookingId)
  {
  }

  /** A failed operation leaves the aggregate as it was. */
  function Run(s: InventoryState, ops: seq<Op>): InventoryState {
    if ops == [] then s
    else
      var before := Run(s, ops[..|ops| - 1]);
      match Apply(before, ops[|ops| - 1])
      case Ok(a) => a.state
      case Err(_) => before
  }

  /** From Register on, every sequence of calls, failed ones included, keeps the invariant: never oversold. */
  lemma {:induction false} EveryRunStaysValid(quantity: int, fee: int, ops: seq<Op>)
    requires Register(quantity, fee).Ok?
    ensures var s := Run(Register(quantity, fee).value, ops);
            s.Valid() && |s.holds| <= s.quantity
  {
    if ops != [] {
      EveryRunStaysValid(quantity, fee, ops[..|ops| - 1]);
      ApplyKeepsValid(Run(Register(quantity, fee).value, ops[..|ops| - 1]), ops[|ops| - 1]);
    }
    NeverOversold(Run(Register(quantity, fee).value, ops));
  }

  // ---- slots and counts ----

  /** Distinct slots: there are as many slots in use as holds. */
  lemma {:induction false} SlotCount(holds: map<Uuid, Hold>, slots: set<int>)
    requires forall a, b :: a in holds && b in holds && a != b ==> holds[a].slotNo != holds[b].slotNo
    requires slots == set b | b in holds :: holds[b].slotNo
    ensures |slots| == |holds|
    decreases |holds|
  {
    if holds == map[] {
      assert slots == {};
    } else {
      var k :| k in holds;
      var rest := holds - {k};
      var fewer := set b | b in rest :: rest[b].slotNo;
      SlotCount(rest, fewer);
      forall n ensures n in slots <==> n in fewer + {holds[k].slotNo} {
        if n in slots {
          var b :| b in holds && holds[b].slotNo == n;
          assert b == k || (b in rest && rest[b].slotNo == n);
        }
      }
      assert slots == fewer + {holds[k].slotNo};
      assert holds.Keys == rest.Keys + {k};
    }
  }

  lemma NeverOversold(s: InventoryState)
    requires s.Valid()
    ensures |s.holds| <= s.quantity
    ensures |s.holds| == s.quantity <==> s.Slots() == Interval(1, s.quantity + 1)
  {
    SlotCount(s.holds, s.Slots());
    IntervalSize(1, s.quantity + 1);
    SubsetSize(s.Slots(), Interval(1, s.quantity + 1));
  }

  /**
   * The pigeonhole fact behind `vacantSlotNo`, which never compares counts: on an open valid inventory, with a booking
   * that holds nothing yet and an expiry in the future, Hold is refused exactly when the hold count equals the
   * quantity, and otherwise takes the lowest unused slot and touches no other hold.
   */
  lemma HoldIsExact(s: InventoryState, op: Op)
    requires s.Valid() && op.HoldOp? && !s.isClosed && op.expiredAt > op.now && op.bookingId !in s.holds
    ensures Apply(s, op) == Err(ErrSoldOut) <==> |s.holds| == s.quantity
    ensures Apply(s, op).Ok? <==> |s.holds| < s.quantity
    ensures Apply(s, op).Ok? ==>
              var a := Apply(s, op).value;
              && a.reply.Held? && s.LeastVacant(a.reply.slotNo) && a.reply.feeAmount == s.fee
              && a.state == s.(holds := a.state.holds)
              && op.bookingId in a.state.holds && a.state.holds[op.bookingId] == NewHold(op, a.reply.slotNo)
              && a.state.holds - {op.bookingId} == s.holds
  {
    NeverOversold(s);
    if Apply(s, op).Err? {
      assert s.Slots() == Interval(1, s.quantity + 1);
    }
  }

  /** Taking a hold and releasing it again leaves no trace. */
  lemma ReleaseUndoesHold(s: InventoryState, op: Op)
    requires op.HoldOp? && Apply(s, op).Ok?
    ensures Apply(Apply(s, op).value.state, ReleaseOp(op.bookingId)) == Ok(Applied(s, Done))
  {
    assert s.holds[op.bookingId := NewHold(op, Apply(s, op).value.reply.slotNo)] - {op.bookingId} == s.holds;
  }

  /**
   * The guard of ChangeQuantity is exact: n is accepted if and only if the inventory would still be valid with n.
   * That implies n is not below the hold count.
   */
  lemma ChangeQuantityIsExact(s: InventoryState, n: int)
    requires s.Valid()
    ensures Apply(s, ChangeQuantityOp(n)).Ok? <==> s.(quantity := n).Valid()
    ensures Apply(s, ChangeQuantityOp(n)).Ok? ==> |s.holds| <= n
  {
    if Apply(s, ChangeQuantityOp(n)).Ok? {
      NeverOversold(s.(quantity := n));
    }
  }

  /**
   * The error text of ErrQuantityBelowHolds speaks of the number of holds, the code of the highest slot. The two
   * agree for every n if and only if the slots in use have no gap.
   */
  lemma QuantityGuardMatchesItsMessage(s: InventoryState)
    requires s.Valid()
    ensures (forall n :: n >= 0 ==> (Apply(s, ChangeQuantityOp(n)).Ok? <==> |s.holds| <= n))
       <==> s.Slots() == Interval(1, |s.holds| + 1)
  {
    var c := |s.holds|;
    forall n | n >= c && s.Slots() == Interval(1, c + 1) ensures Apply(s, ChangeQuantityOp(n)).Ok? {
      assert forall b :: b in s.holds ==> s.holds[b].slotNo in s.Slots();
    }
    hide Apply, Interval;
    forall n | Apply(s, ChangeQuantityOp(n)).Ok? ensures c <= n {
      ChangeQuantityIsExact(s, n);
    }
    if forall n :: n >= 0 ==> (Apply(s, ChangeQuantityOp(n)).Ok? <==> c <= n) {
      assert Apply(s, ChangeQuantityOp(c)).Ok?;
      ChangeQuantityIsExact(s, c);
      NeverOversold(s.(quantity := c));
      assert s.(quantity := c).Slots() == s.Slots();
    }
  }

  /**
   * A gap makes the converse fail: register two slots, let two bookings take them and release the first. Slot 2, held
   * alone, keeps a quantity of 1 out although only one hold is left.
   */
  lemma GapBlocksQuantity(a: Uuid, b: Uuid, id: Uuid, id': Uuid, fee: nat, now: Instant)
    requires a != b
    ensures var s := Run(Register(2, fee).value,
            [HoldOp(id, a, now + 1, now), HoldOp(id', b, now + 1, now), ReleaseOp(a)]);
            s.Valid() && |s.holds| == 1 && Apply(s, ChangeQuantityOp(1)) == Err(ErrQuantityBelowHolds)
  {
    hide Apply, Run, FirstFree;
    var take, take', give := HoldOp(id, a, now + 1, now), HoldOp(id', b, now + 1, now), ReleaseOp(a);
    var s0 := Register(2, fee).value;
    RunNothing(s0);
    var s1 := HoldTakes(s0, take, 1);
    RunOneMore(s0, [], take);
    assert s1.Slots() == {1} by { assert a in s1.holds; }
    var s2 := HoldTakes(s1, take', 2);
    RunOneMore(s0, [take], take');
    var s3 := s2.(holds := s2.holds - {a});
    assert Apply(s2, give) == Ok(Applied(s3, Done)) by { ReleaseTakes(s2, a); }
    RunOneMore(s0, [take, take'], give);
    assert [take, take'] + [give] == [take, take', give] && [take] + [take'] == [take, take'] && [] + [take] == [take];
    EveryRunStaysValid(2, fee, [take, take', give]);
    assert s3.holds.Keys == {b} && |s3.holds.Keys| == 1 && s3.holds[b].slotNo == 2;
    GuardRefuses(s3, b, 1);
  }

  lemma RunNothing(s: InventoryState)
    ensures Run(s, []) == s
  {
  }

  lemma RunOneMore(s: InventoryState, ops: seq<Op>, op: Op)
    ensures var before := Run(s, ops);
            Run(s, ops + [op]) == match Apply(before, op) case Ok(a) => a.state case Err(_) => before
  {
    hide Apply;
    assert (ops + [op])[..|ops|] == ops;
  }

  lemma HoldTakes(s: InventoryState, op: Op, n: int) returns (s': InventoryState)
    requires op.HoldOp? && !s.isClosed && op.expiredAt > op.now && op.bookingId !in s.holds && s.LeastVacant(n)
    ensures s' == s.(holds := s.holds[op.bookingId := NewHold(op, n)]) &&
            Apply(s, op) == Ok(Applied(s', Held(n, s.fee)))
  {
    s' := s.(holds := s.holds[op.bookingId := NewHold(op, n)]);
    assert FirstFree(s.Slots(), 1, s.quantity) == Some(n);
  }

  lemma ReleaseTakes(s: InventoryState, b: Uuid)
    requires b in s.holds
    ensures Apply(s, ReleaseOp(b)) == Ok(Applied(s.(holds := s.holds - {b}), Done))
  {
  }

  lemma GuardRefuses(s: InventoryState, b: Uuid, n: nat)
    requires b in s.holds && n < s.holds[b].slotNo
    ensures Apply(s, ChangeQuantityOp(n)) == Err(ErrQuantityBelowHolds)
  {
  }

  /**
   * CollectExpired removes exactly the temporary holds whose expiry lies before now, keeps all others as they are, and
   * answers how many it removed.
   */
  lemma CollectIsAFilter(s: InventoryState, now: Instant)
    requires s.Valid()
    ensures var a := Apply(s, CollectOp(now)).value;
            && (forall b :: b in a.state.holds <==>
                  b in s.holds && !(s.holds[b].status == TemporaryHold && s.holds[b].expiredAt.Some?
                                    && s.holds[b].expiredAt.value < now))
            && (forall b :: b in a.state.holds ==> a.state.holds[b] == s.holds[b])
            && a.state == s.(holds := a.state.holds)
            && a.reply == Collected(|s.holds| - |a.state.holds|)
            && (a.reply == Collected(0) ==> a.state == s)
  {
    ExpiredMeans(s, now);
    var gone := ExpiredBookings(s, now);
    hide InventoryState.Valid, Expired, ExpiredBookings;
    KeptCount(s.holds, gone);
    if |gone| == 0 {
      assert gone == {};
    }
  }

  /** A temporary hold has expired when its expiry lies before now; at its very expiry it is still live. */
  lemma ExpiredMeans(s: InventoryState, now: Instant)
    ensures ExpiredBookings(s, now) <= s.holds.Keys
    ensures forall b :: b in ExpiredBookings(s, now) <==>
              b in s.holds && s.holds[b].status == TemporaryHold && s.holds[b].expiredAt.Some?
              && s.holds[b].expiredAt.value < now
  {
  }

  lemma KeptCount(holds: map<Uuid, Hold>, gone: set<Uuid>)
    requires gone <= holds.Keys
    ensures |gone| == |holds| - |holds - gone|
    ensures gone == {} ==> holds - gone == holds
  {
    var kept := holds - gone;
    assert holds.Keys == kept.Keys + gone;
    assert |holds.Keys| == |kept.Keys| + |gone|;
  }

  // ---- what the operator's edits do to the next Hold ----

  /** An accepted quantity is the one the next Hold is measured by, and nothing else changes. */
  lemma QuantityTakesEffect(s: InventoryState, n: int, op: Op)
    requires s.Valid() && Apply(s, ChangeQuantityOp(n)).Ok?
    requires op.HoldOp? && !s.isClosed && op.expiredAt > op.now && op.bookingId !in s.holds
    ensures var s' := Apply(s, ChangeQuantityOp(n)).value.state;
            && (s'.holds, s'.fee, s'.isClosed) == (s.holds, s.fee, s.isClosed)
            && (Apply(s', op).Ok? <==> |s.holds| < n)
            && (Apply(s', op).Err? ==> Apply(s', op).error == ErrSoldOut)
  {
    ChangeQuantityIsExact(s, n);
    hide Apply;
    QuantityIsSet(s, n);
    HoldIsExact(s.(quantity := n), op);
  }

  lemma QuantityIsSet(s: InventoryState, n: int)
    requires Apply(s, ChangeQuantityOp(n)).Ok?
    ensures Apply(s, ChangeQuantityOp(n)) == Ok(Applied(s.(quantity := n), Done))
  {
  }

  /** From an accepted Close until the next Reopen, whatever is called between, every Hold is refused as closed. */
  lemma {:induction false} ClosedUntilReopened(s: InventoryState, ops: seq<Op>, op: Op)
    requires Apply(s, CloseOp).Ok? && op.HoldOp? && forall i :: 0 <= i < |ops| ==> !ops[i].ReopenOp?
    ensures var s' := Apply(s, CloseOp).value.state;
            && (s'.holds, s'.fee, s'.quantity) == (s.holds, s.fee, s.quantity)
            && Run(s', ops).isClosed && Apply(Run(s', ops), op) == Err(ErrClosed)
  {
    if ops != [] {
      ClosedUntilReopened(s, ops[..|ops| - 1], op);
    }
  }

  /** From an accepted Reopen until the next Close, no Hold is refused as closed; it is decided by count as before. */
  lemma {:induction false} OpenUntilClosed(s: InventoryState, ops: seq<Op>, op: Op)
    requires Apply(s, ReopenOp).Ok? && op.HoldOp? && forall i :: 0 <= i < |ops| ==> !ops[i].CloseOp?
    ensures var s' := Apply(s, ReopenOp).value.state;
            && (s'.holds, s'.fee, s'.quantity) == (s.holds, s.fee, s.quantity)
            && !Run(s', ops).isClosed && Apply(Run(s', ops), op) != Err(ErrClosed)
  {
    if ops != [] {
      OpenUntilClosed(s, ops[..|ops| - 1], op);
    }
  }

  /** From ChangeFee on, until the fee is changed again, every successful Hold answers that fee. */
  lemma {:induction false} FeeTakesEffect(s: InventoryState, f: int, ops: seq<Op>, op: Op)
    requires Apply(s, ChangeFeeOp(f)).Ok? && op.HoldOp? && forall i :: 0 <= i < |ops| ==> !ops[i].ChangeFeeOp?
    ensures var s' := Apply(s, ChangeFeeOp(f)).value.state;
            && (s'.holds, s'.quantity, s'.isClosed) == (s.holds, s.quantity, s.isClosed)
            && Run(s', ops).fee == f
            && (Apply(Run(s', ops), op).Ok? ==>
                  Apply(Run(s', ops), op).value.reply.Held? && Apply(Run(s', ops), op).value.reply.feeAmount == f)
  {
    if ops != [] {
      FeeTakesEffect(s, f, ops[..|ops| - 1], op);
    }
  }
}
