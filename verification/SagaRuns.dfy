/** A process that runs alone: the structured programs of Service.dfy are runs of the small-step processes. */
module SagaRuns {
  import opened Common
  import opened Transactions
  import opened Saga
  import opened SagaInvariant
  import opened SagaSafety
  import I = InventorySpec
  import B = BookingSpec

  /** An inventory whose row lock cannot be had rolls the transaction back. */
  function Ends(busy: bool): Env {
    Env(if busy then Abort else Commit, 0, [], [])
  }

  /** How a transaction on a booking row ends. */
  function RowEnds(o: Outcome): Env {
    Env(o, 0, [], [])
  }

  /** The process after the given outcomes of its steps. */
  function Execute(db: Db, p: Proc, es: seq<Env>): Next {
    if es == [] then Next(db, p)
    else
      var n := Execute(db, p, es[..|es| - 1]);
      Advance(n.db, n.proc, es[|es| - 1])
  }

  lemma OneMore(db: Db, p: Proc, es: seq<Env>, e: Env)
    ensures var n := Execute(db, p, es); Execute(db, p, es + [e]) == Advance(n.db, n.proc, e)
  {
    assert (es + [e])[..|es|] == es;
  }

  /** The world in which nothing else runs. */
  function Alone(db: Db, started: map<Uuid, Instant>, p: Proc): World {
    World(db, map[0 := p], started)
  }

  ghost predicate Quiet(db: Db, started: map<Uuid, Instant>) {
    Inv(Alone(db, started, Finished))
  }

  ghost predicate ListingsOk(db: Db, p: Proc, es: seq<Env>) {
    forall i :: 0 <= i < |es| ==> var n := Execute(db, p, es[..i]); ListingOk(n.db, n.proc, es[i])
  }

  lemma AloneSteps(db: Db, p: Proc, e: Env, started: map<Uuid, Instant>)
    requires Inv(Alone(db, started, p))
    requires ListingOk(db, p, e)
    ensures var n := Advance(db, p, e); Inv(Alone(n.db, started, n.proc))
  {
    hide Advance, Inv;
    var w, n := Alone(db, started, p), Advance(db, p, e);
    assert MayStep(w, 0, e);
    ProcessStep(w, 0, e);
    assert w.(db := n.db, procs := w.procs[0 := n.proc]) == Alone(n.db, started, n.proc);
  }

  lemma ListingsOkInit(db: Db, p: Proc, es: seq<Env>)
    requires ListingsOk(db, p, es) && es != []
    ensures ListingsOk(db, p, es[..|es| - 1])
  {
    var init := es[..|es| - 1];
    forall i | 0 <= i < |init| ensures init[..i] == es[..i] && init[i] == es[i] {
    }
  }

  lemma LastListingOk(db: Db, p: Proc, es: seq<Env>)
    requires ListingsOk(db, p, es) && es != []
    ensures var n := Execute(db, p, es[..|es| - 1]); ListingOk(n.db, n.proc, es[|es| - 1])
  {
  }

  /** A process running alone keeps the invariant to its end. */
  lemma {:induction false} AloneKeepsInv(db: Db, p: Proc, es: seq<Env>, started: map<Uuid, Instant>)
    requires Inv(Alone(db, started, p)) && ListingsOk(db, p, es)
    ensures var n := Execute(db, p, es); Inv(Alone(n.db, started, n.proc))
  {
    hide Inv, Advance, ListingsOk;
    if es != [] {
      var init := es[..|es| - 1];
      assert ListingOk(Execute(db, p, init).db, Execute(db, p, init).proc, es[|init|]) by {
        LastListingOk(db, p, es);
      }
      ListingsOkInit(db, p, es);
      AloneKeepsInv(db, p, init, started);
      var n := Execute(db, p, init);
      AloneSteps(n.db, n.proc, es[|init|], started);
    }
  }

  lemma QuietFacts(db: Db, started: map<Uuid, Instant>)
    requires Quiet(db, started)
    ensures DbOk(db) && ExpiriesOk(db, started)
  {
  }

  /** Whatever a reachable world's processes were doing: once they have all stopped, its database is quiet. */
  lemma StoppedWorldIsQuiet(w: World)
    requires Inv(w)
    ensures Quiet(w.db, w.started)
  {
  }

  lemma {:induction false} Compose(db: Db, p: Proc, es: seq<Env>, fs: seq<Env>)
    ensures var n := Execute(db, p, es); Execute(db, p, es + fs) == Execute(n.db, n.proc, fs)
    decreases |fs|
  {
    if fs == [] {
      assert es + fs == es;
    } else {
      var init := fs[..|fs| - 1];
      Compose(db, p, es, init);
      assert (es + fs)[..|es + fs| - 1] == es + init;
      assert (es + fs)[|es + fs| - 1] == fs[|init|];
    }
  }

  lemma StepsDoNotList(db: Db, p: Proc, e: Env)
    ensures var q := Advance(db, p, e).proc; !q.ExpireList? && !q.CollectList?
  {
  }

  /** Only the very first step of a process can be a listing. */
  lemma {:induction false} OnlyFirstLists(db: Db, p: Proc, es: seq<Env>)
    requires es != [] || !(p.ExpireList? || p.CollectList?)
    ensures var q := Execute(db, p, es).proc; !q.ExpireList? && !q.CollectList?
  {
    hide Advance;
    if es != [] {
      var init := es[..|es| - 1];
      if |es| > 1 {
        OnlyFirstLists(db, p, init);
      }
      var n := Execute(db, p, init);
      StepsDoNotList(n.db, n.proc, es[|init|]);
    }
  }

  lemma FirstListingSuffices(db: Db, p: Proc, es: seq<Env>)
    requires es != [] ==> ListingOk(db, p, es[0])
    ensures ListingsOk(db, p, es)
  {
    forall i | 0 < i < |es| ensures var q := Execute(db, p, es[..i]).proc; !q.ExpireList? && !q.CollectList? {
      OnlyFirstLists(db, p, es[..i]);
    }
    assert es != [] ==> es[..0] == [];
  }

  /** An operation that is not Book can begin on a quiet database, and leaves it quiet wherever it stops. */
  lemma StaysQuiet(db: Db, p: Proc, es: seq<Env>, started: map<Uuid, Instant>)
    requires Quiet(db, started) && !HasBooking(p)
    requires es != [] ==> ListingOk(db, p, es[0])
    ensures Quiet(Execute(db, p, es).db, started)
  {
    assert ProcOk(db, started, p);
    assert Inv(Alone(db, started, p));
    FirstListingSuffices(db, p, es);
    AloneKeepsInv(db, p, es, started);
    var n := Execute(db, p, es);
    StoppedWorldIsQuiet(Alone(n.db, started, n.proc));
  }

  /** So does Book, whose booking takes a fresh identifier. */
  lemma BookStaysQuiet(db: Db, b: B.Booking, now: Instant, es: seq<Env>, started: map<Uuid, Instant>)
    requires Quiet(db, started) && b.id == db.nextUuid && b.Valid() && b.status == B.TemporaryHold
    ensures var db' := db.(nextUuid := b.id + 1); Quiet(Execute(db', BookSave(b, now), es).db, started[b.id := now])
  {
    var db' := db.(nextUuid := b.id + 1);
    BookBegins(db, b, now, started);
    FirstListingSuffices(db', BookSave(b, now), es);
    AloneKeepsInv(db', BookSave(b, now), es, started[b.id := now]);
    var n := Execute(db', BookSave(b, now), es);
    StoppedWorldIsQuiet(Alone(n.db, started[b.id := now], n.proc));
  }

  lemma BookBegins(db: Db, b: B.Booking, now: Instant, started: map<Uuid, Instant>)
    requires Quiet(db, started) && b.id == db.nextUuid && b.Valid() && b.status == B.TemporaryHold
    ensures Inv(Alone(db.(nextUuid := b.id + 1), started[b.id := now], BookSave(b, now)))
  {
    var db' := db.(nextUuid := b.id + 1);
    FreshIdKeepsDb(Alone(db, started, Finished), b.id, now);
    assert ProcOk(db', started[b.id := now], BookSave(b, now));
  }

  // ---- how the listings and the collecting loop run ----

  lemma ExpireLists(db: Db, now: Instant, ids: seq<Uuid>, o: Outcome)
    ensures Execute(db, ExpireList(now), [Env(o, 0, ids, [])]) ==
            Next(db, if o == Commit then CancelNext(ids, now) else Finished)
  {
    OneMore(db, ExpireList(now), [], Env(o, 0, ids, []));
    assert [] + [Env(o, 0, ids, [])] == [Env(o, 0, ids, [])];
  }

  lemma CollectLists(db: Db, now: Instant, keys: seq<InventoryId>, o: Outcome)
    ensures Execute(db, CollectList(now), [Env(o, 0, [], keys)]) ==
            Next(db, if o == Commit then CollectLoop(keys, now) else Finished)
  {
    OneMore(db, CollectList(now), [], Env(o, 0, [], keys));
    assert [] + [Env(o, 0, [], keys)] == [Env(o, 0, [], keys)];
  }

  lemma CollectGoesOn(db0: Db, p0: Proc, es: seq<Env>, db: Db, keys: seq<InventoryId>, now: Instant, o: Outcome)
    requires Execute(db0, p0, es) == Next(db, CollectLoop(keys, now))
    requires keys != [] ==> Mutate(db, keys[0], I.CollectOp(now)).Ok?
    ensures Execute(db0, p0, es + [RowEnds(o)]) ==
            if keys == [] then Next(db, Finished)
            else Next(if o == Abort then db else Mutate(db, keys[0], I.CollectOp(now)).value.db,
                      if o == Commit then CollectLoop(keys[1..], now) else Finished)
  {
    OneMore(db0, p0, es, RowEnds(o));
  }

  lemma CancelReleases(db0: Db, p0: Proc, es: seq<Env>, db: Db, b: B.Booking, i: int, now: Instant, rest: seq<Uuid>,
      e: Env)
    requires Execute(db0, p0, es) == Next(db, CancelRelease(b, i, now, rest))
    ensures Execute(db0, p0, es + [e]) ==
            if i < b.period.Nights()
            then Next(Call(db, b.Night(i), I.ReleaseOp(b.id), e.outcome).0,
                      if ReleaseAnswered(db, b.Night(i), b.id, e.outcome) then CancelRelease(b, i + 1, now, rest)
                      else CancelNext(rest, now))
            else Next(db, CancelNext(rest, now))
  {
    OneMore(db0, p0, es, e);
  }

  // ---- how Confirm runs ----

  function Passing(starting: bool, b: B.Booking, i: int): Proc {
    if starting then ConfirmPay(b, i) else ConfirmSlots(b, i)
  }

  function PassOp(starting: bool, b: Uuid): I.Op {
    if starting then I.StartPaymentOp(b) else I.ConfirmOp(b)
  }

  lemma ConfirmMoves(db0: Db, p0: Proc, es: seq<Env>, db: Db, starting: bool, b: B.Booking, i: int, busy: bool)
    requires Execute(db0, p0, es) == Next(db, Passing(starting, b, i)) && i < b.period.Nights()
    ensures var r := Mutate(db, b.Night(i), PassOp(starting, b.id));
            Execute(db0, p0, es + [Ends(busy)]) ==
            if !busy && r.Ok? then Next(r.value.db, Passing(starting, b, i + 1)) else Next(db, Finished)
  {
    OneMore(db0, p0, es, Ends(busy));
  }

  lemma ConfirmTurns(db0: Db, p0: Proc, es: seq<Env>, db: Db, b: B.Booking)
    requires Execute(db0, p0, es) == Next(db, ConfirmPay(b, b.period.Nights()))
    ensures Execute(db0, p0, es + [Ends(false)]) == Next(db, ConfirmSlots(b, 0))
  {
    OneMore(db0, p0, es, Ends(false));
  }

  lemma ConfirmEnds(db0: Db, p0: Proc, es: seq<Env>, db: Db, b: B.Booking, o: Outcome)
    requires Execute(db0, p0, es) == Next(db, ConfirmSlots(b, b.period.Nights()))
    ensures var r := UpdateBooking(db, b.id, B.ConfirmCall);
            Execute(db0, p0, es + [RowEnds(o)]) == Next(if r.Ok? && o != Abort then r.value else db, Finished)
  {
    OneMore(db0, p0, es, RowEnds(o));
  }

  lemma ConfirmStarts(db: Db, id: Uuid, o: Outcome)
    ensures var r := UpdateBooking(db, id, B.StartPaymentCall);
            Execute(db, ConfirmStart(id), [RowEnds(o)]) ==
            if r.Ok? && o == Commit then Next(r.value, ConfirmPay(r.value.bookings[id].booking, 0))
            else Next(if r.Ok? && o != Abort then r.value else db, Finished)
  {
    OneMore(db, ConfirmStart(id), [], RowEnds(o));
    assert [] + [RowEnds(o)] == [RowEnds(o)];
  }

  // ---- how Book runs ----

  lemma BookSaves(db: Db, b: B.Booking, now: Instant, at: Instant, o: Outcome)
    ensures Execute(db, BookSave(b, now), [Env(o, at, [], [])]) ==
            Next(if o == Abort then db else SaveBooking(db, b, at), if o == Commit then BookHold(b, now, 0, 0)
                else Finished)
  {
    OneMore(db, BookSave(b, now), [], Env(o, at, [], []));
    assert [] + [Env(o, at, [], [])] == [Env(o, at, [], [])];
  }

  /** Hold on the next night: on to the following one, or into compensation. */
  lemma BookHolds(db0: Db, p0: Proc, es: seq<Env>, db: Db, b: B.Booking, now: Instant, i: int, total: int, e: Env)
    requires Execute(db0, p0, es) == Next(db, BookHold(b, now, i, total)) && i < b.period.Nights()
    requires e.outcome == Commit || e.outcome == Abort
    ensures var r := Mutate(db, b.Night(i), HoldNight(b, now, db.nextUuid));
            Execute(db0, p0, es + [e]) ==
            if e.outcome == Commit && r.Ok? && r.value.reply.Held?
            then Next(r.value.db.(nextUuid := db.nextUuid + 1),
                BookHold(b, now, i + 1, total + r.value.reply.feeAmount))
            else Next((if e.outcome == Commit && r.Ok? then r.value.db else db).(nextUuid := db.nextUuid + 1),
                      BookRelease(b, now, i, 0))
  {
    hide I.Apply, Execute;
    OneMore(db0, p0, es, e);
  }

  /** What Book saves last: the booking with its total, or as Cancelled. */
  function LastSaved(p: Proc): B.Booking
    requires p.BookHold? || p.BookRelease?
  {
    if p.BookHold? then p.b.(totalFee := p.total) else B.Cancel(p.b, B.Expired, p.now)
  }

  lemma BookEnds(db0: Db, p0: Proc, es: seq<Env>, db: Db, p: Proc, e: Env)
    requires Execute(db0, p0, es) == Next(db, p)
    requires (p.BookHold? && p.i == p.b.period.Nights() && B.FixTotalFee(p.b, p.total).Ok?)
             || (p.BookRelease? && p.j == p.held)
    ensures Execute(db0, p0, es + [e]) ==
            Next(if e.outcome == Abort then db else SaveBooking(db, LastSaved(p), e.at), Finished)
  {
    OneMore(db0, p0, es, e);
  }

  lemma BookGivesBack(db0: Db, p0: Proc, es: seq<Env>, db: Db, b: B.Booking, now: Instant, held: int, j: int, e: Env)
    requires Execute(db0, p0, es) == Next(db, BookRelease(b, now, held, j)) && j < held
    ensures Execute(db0, p0, es + [e]) ==
            Next(Call(db, b.Night(j), I.ReleaseOp(b.id), e.outcome).0, BookRelease(b, now, held, j + 1))
  {
    OneMore(db0, p0, es, e);
  }

  /** Identifiers may be used up for other purposes at any time. */
  lemma MoreIds(db: Db, n: nat, started: map<Uuid, Instant>)
    requires Quiet(db, started) && n >= db.nextUuid
    ensures Quiet(db.(nextUuid := n), started)
  {
    var db' := db.(nextUuid := n);
    assert forall k, x :: db'.HasHold(k, x) <==> db.HasHold(k, x);
  }
}
