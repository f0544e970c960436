/** What a booking is charged, over every run: the fees its Holds were answered with, if Book's last save was kept. */
module Fees {
  import opened Common
  import opened Transactions
  import opened Saga
  import opened SagaInvariant
  import opened SagaSafety
  import I = InventorySpec
  import B = BookingSpec

  /** One night held, and the fee on sale at that moment. */
  datatype Charge = Charge(night: InventoryId, fee: int)

  function Sum(charges: seq<Charge>): int {
    if charges == [] then 0 else Sum(charges[..|charges| - 1]) + charges[|charges| - 1].fee
  }

  lemma SumOneMore(charges: seq<Charge>, c: Charge)
    ensures Sum(charges + [c]) == Sum(charges) + c.fee
  {
    assert (charges + [c])[..|charges|] == charges;
  }

  /** What the step charges to x: a Hold of its Book that succeeds and is seen to. */
  function StepCharges(w: World, a: Action, x: Uuid): seq<Charge> {
    if a.Step? && a.pid in w.procs && w.procs[a.pid].BookHold? && w.procs[a.pid].b.id == x then
      HoldCharges(w.db, w.procs[a.pid], a.env)
    else []
  }

  function HoldCharges(db: Db, p: Proc, e: Env): seq<Charge>
    requires p.BookHold?
  {
    var k := p.b.Night(p.i);
    if p.i < p.b.period.Nights() && e.outcome == Commit && Mutate(db, k, HoldNight(p.b, p.now, db.nextUuid)).Ok?
    then [Charge(k, db.inventories[k].fee)] else []
  }

  /** All that x has been charged in the first n steps. */
  ghost function Charged(ws: seq<World>, actions: seq<Action>, n: nat, x: Uuid): seq<Charge>
    requires n <= |actions| < |ws|
  {
    if n == 0 then [] else Charged(ws, actions, n - 1, x) + StepCharges(ws[n - 1], actions[n - 1], x)
  }

  /** The step is the last save of x's successful Book, and it is not rolled back. */
  predicate Settles(w: World, a: Action, x: Uuid) {
    && a.Step? && a.pid in w.procs && a.env.outcome != Abort
    && var p := w.procs[a.pid]; p.BookHold? && p.b.id == x && p.i == p.b.period.Nights()
  }

  ghost predicate Settled(ws: seq<World>, actions: seq<Action>, n: nat, x: Uuid)
    requires n <= |actions| < |ws|
  {
    n > 0 && (Settled(ws, actions, n - 1, x) || Settles(ws[n - 1], actions[n - 1], x))
  }

  // ---- the invariant ----

  /** The nights of b's stay before night i, each once, in order. */
  ghost predicate FirstNightsCharged(charges: seq<Charge>, b: B.Booking, i: int) {
    |charges| == i && forall j :: 0 <= j < i ==> charges[j].night == b.Night(j)
  }

  /** What a Book knows of its charges. */
  ghost predicate BookKnows(p: Proc, charges: seq<Charge>, settled: bool)
    requires IsBook(p)
  {
    && p.b.totalFee == 0 && !settled
    && (p.BookSave? ==> charges == [])
    && (p.BookHold? ==> FirstNightsCharged(charges, p.b, p.i) && p.total == Sum(charges))
  }

  /** What a stored booking shows of its charges. */
  ghost predicate RowShows(b: B.Booking, charges: seq<Charge>, settled: bool) {
    && b.totalFee == (if settled then Sum(charges) else 0)
    && (settled ==> FirstNightsCharged(charges, b, b.period.Nights()))
  }

  ghost predicate BooksKnow(ws: seq<World>, actions: seq<Action>, n: nat, procs: map<nat, Proc>)
    requires n <= |actions| < |ws|
  {
    forall pid :: pid in procs && IsBook(procs[pid]) ==>
      BookKnows(procs[pid], Charged(ws, actions, n, procs[pid].b.id), Settled(ws, actions, n, procs[pid].b.id))
  }

  ghost predicate RowsShow(ws: seq<World>, actions: seq<Action>, n: nat, db: Db)
    requires n <= |actions| < |ws|
  {
    forall x :: x in db.bookings ==>
      RowShows(db.bookings[x].booking, Charged(ws, actions, n, x), Settled(ws, actions, n, x))
  }

  /** Nothing was charged to an identifier that has not been handed out. */
  ghost predicate NewAreUncharged(ws: seq<World>, actions: seq<Action>, n: nat, next: Uuid)
    requires n <= |actions| < |ws|
  {
    forall x :: x >= next ==> Charged(ws, actions, n, x) == [] && !Settled(ws, actions, n, x)
  }

  ghost predicate FeesOk(ws: seq<World>, actions: seq<Action>, n: nat)
    requires n <= |actions| < |ws|
  {
    && BooksKnow(ws, actions, n, ws[n].procs) && RowsShow(ws, actions, n, ws[n].db)
    && NewAreUncharged(ws, actions, n, ws[n].db.nextUuid)
  }

  // ---- one step ----

  /** Rows keep their total and stay unless a Book writes them. */
  lemma OthersKeepTotals(db: Db, p: Proc, e: Env, x: Uuid)
    requires !IsBook(p) || p.b.id != x
    ensures var db' := Advance(db, p, e).db;
            && (x in db'.bookings <==> x in db.bookings)
            && (x in db.bookings ==>
                  && db'.bookings[x].booking.totalFee == db.bookings[x].booking.totalFee
                  && db'.bookings[x].booking.SamePlan(db.bookings[x].booking))
  {
    hide I.Apply;
  }

  /** A Book's own step, as far as its row, its total and its next state go. */
  lemma BookStepFees(w: World, pid: nat, e: Env, charges: seq<Charge>)
    requires Inv(w) && pid in w.procs && IsBook(w.procs[pid]) && BookKnows(w.procs[pid], charges, false)
    requires var x := w.procs[pid].b.id;
             x in w.db.bookings ==> RowShows(w.db.bookings[x].booking, charges, false)
    ensures var p, n := w.procs[pid], Advance(w.db, w.procs[pid], e);
            var charges' := charges + StepCharges(w, Step(pid, e), p.b.id);
            var settled := Settles(w, Step(pid, e), p.b.id);
            && (p.b.id in n.db.bookings ==> RowShows(n.db.bookings[p.b.id].booking, charges', settled))
            && (IsBook(n.proc) ==> n.proc.b == p.b && BookKnows(n.proc, charges', settled))
  {
    var p := w.procs[pid];
    assert ProcOk(w.db, w.started, p);
    assert charges + [] == charges;
    hide I.Apply, Inv, DbOk, B.Booking.Valid;
    if p.BookHold? && p.i < p.b.period.Nights() {
      HoldIsCharged(w.db, p, e, charges);
    } else if p.BookHold? {
      LastSaveSettles(w.db, p, e, charges);
    } else {
      BookChargesNothing(w.db, w.started, p, e, charges);
    }
  }

  lemma LastSaveSettles(db: Db, p: Proc, e: Env, charges: seq<Charge>)
    requires p.BookHold? && p.i == p.b.period.Nights() && p.total >= 0 && Saved(db, p.b) && BookKnows(p, charges, false)
    requires db.bookings[p.b.id].booking.totalFee == 0
    ensures var n := Advance(db, p, e);
            && n.proc == Finished && p.b.id in n.db.bookings
            && RowShows(n.db.bookings[p.b.id].booking, charges, e.outcome != Abort)
  {
    var was := db.bookings[p.b.id].booking;
    assert forall j :: was.Night(j) == p.b.Night(j);
  }

  lemma BookChargesNothing(db: Db, started: map<Uuid, Instant>, p: Proc, e: Env, charges: seq<Charge>)
    requires (p.BookSave? || p.BookRelease?) && ProcOk(db, started, p) && BookKnows(p, charges, false)
    requires p.b.id in db.bookings ==> db.bookings[p.b.id].booking.totalFee == 0
    ensures var n := Advance(db, p, e);
            && (p.b.id in n.db.bookings ==> RowShows(n.db.bookings[p.b.id].booking, charges, false))
            && (IsBook(n.proc) ==> n.proc.b == p.b && BookKnows(n.proc, charges, false))
  {
    hide I.Apply;
  }

  lemma HoldIsCharged(db: Db, p: Proc, e: Env, charges: seq<Charge>)
    requires p.BookHold? && 0 <= p.i < p.b.period.Nights() && BookKnows(p, charges, false)
    ensures var n := Advance(db, p, e);
            && n.db.bookings == db.bookings && IsBook(n.proc) && n.proc.b == p.b
            && BookKnows(n.proc, charges + HoldCharges(db, p, e), false)
  {
    var k := p.b.Night(p.i);
    SumOneMore(charges, Charge(k, if k in db.inventories then db.inventories[k].fee else 0));
    assert charges + [] == charges;
  }

  lemma StepKeepsFees(ws: seq<World>, actions: seq<Action>, n: nat)
    requires n < |actions| < |ws| && Inv(ws[n]) && Transits(ws[n], actions[n], ws[n + 1]) && FeesOk(ws, actions, n)
    requires actions[n].Step?
    ensures FeesOk(ws, actions, n + 1)
  {
    var w, a, w' := ws[n], actions[n], ws[n + 1];
    var p := w.procs[a.pid];
    var next := Advance(w.db, p, a.env);
    assert w' == Stepped(w, a.pid, a.env);
    StepFacts(w, a.pid, a.env);
    hide Advance, Transits, Inv, BookKnows, RowShows, Settles, StepCharges, ListingOk, CallersWait, Charged, Settled;
    var m, procs', db' := n + 1, w'.procs, w'.db;
    if IsBook(p) {
      OneStepMore(ws, actions, n, p.b.id);
      Unsettled(p, Charged(ws, actions, n, p.b.id), Settled(ws, actions, n, p.b.id));
      BookStepFees(w, a.pid, a.env, Charged(ws, actions, n, p.b.id));
    }
    forall q | q in procs' && IsBook(procs'[q])
      ensures BookKnows(procs'[q], Charged(ws, actions, m, procs'[q].b.id), Settled(ws, actions, m, procs'[q].b.id))
    {
      if q != a.pid {
        assert procs'[q] == w.procs[q];
        NothingElseCharged(ws, actions, n, procs'[q].b.id);
      }
    }
    assert BooksKnow(ws, actions, m, procs');
    forall x | x in db'.bookings
      ensures RowShows(db'.bookings[x].booking, Charged(ws, actions, m, x), Settled(ws, actions, m, x))
    {
      if !IsBook(p) || p.b.id != x {
        NothingElseCharged(ws, actions, n, x);
        OthersKeepTotals(w.db, p, a.env, x);
        SameRowShows(w.db.bookings[x].booking, db'.bookings[x].booking, Charged(ws, actions, n, x),
            Settled(ws, actions, n, x));
      }
    }
    assert RowsShow(ws, actions, m, db');
    forall x | x >= db'.nextUuid ensures Charged(ws, actions, m, x) == [] && !Settled(ws, actions, m, x) {
      NothingElseCharged(ws, actions, n, x);
    }
    assert NewAreUncharged(ws, actions, m, db'.nextUuid);
  }

  lemma Unsettled(p: Proc, charges: seq<Charge>, settled: bool)
    requires IsBook(p) && BookKnows(p, charges, settled)
    ensures !settled
  {
  }

  lemma SameRowShows(b: B.Booking, b': B.Booking, charges: seq<Charge>, settled: bool)
    requires RowShows(b, charges, settled) && b'.totalFee == b.totalFee && b'.SamePlan(b)
    ensures RowShows(b', charges, settled)
  {
    assert forall j :: b'.Night(j) == b.Night(j);
  }

  lemma StepFacts(w: World, pid: nat, e: Env)
    requires Inv(w) && pid in w.procs
    ensures var p, next := w.procs[pid], Advance(w.db, w.procs[pid], e);
            && w.db.nextUuid <= next.db.nextUuid
            && (IsBook(next.proc) ==> IsBook(p) && next.proc.b == p.b)
            && (IsBook(p) ==> p.b.id < w.db.nextUuid)
            && (forall q :: q in w.procs && q != pid && IsBook(w.procs[q]) && IsBook(p) ==> w.procs[q].b.id != p.b.id)
  {
    hide I.Apply;
    assert ProcOk(w.db, w.started, w.procs[pid]);
  }

  lemma QuietActionKeepsFees(ws: seq<World>, actions: seq<Action>, n: nat)
    requires n < |actions| < |ws| && Transits(ws[n], actions[n], ws[n + 1]) && FeesOk(ws, actions, n)
    requires !actions[n].Step?
    ensures FeesOk(ws, actions, n + 1)
  {
    QuietAction(ws[n], actions[n], ws[n + 1]);
    hide Charged, Settled, Transits, RowShows;
    var m, procs', db' := n + 1, ws[n + 1].procs, ws[n + 1].db;
    forall pid | pid in procs' && IsBook(procs'[pid])
      ensures BookKnows(procs'[pid], Charged(ws, actions, m, procs'[pid].b.id),
              Settled(ws, actions, m, procs'[pid].b.id))
    {
      NothingCharged(ws, actions, n, procs'[pid].b.id);
    }
    assert BooksKnow(ws, actions, m, procs');
    forall x | x in db'.bookings
      ensures RowShows(db'.bookings[x].booking, Charged(ws, actions, m, x), Settled(ws, actions, m, x))
    {
      NothingCharged(ws, actions, n, x);
    }
    assert RowsShow(ws, actions, m, db');
    forall x | x >= db'.nextUuid ensures Charged(ws, actions, m, x) == [] && !Settled(ws, actions, m, x) {
      NothingCharged(ws, actions, n, x);
    }
    assert NewAreUncharged(ws, actions, m, db'.nextUuid);
  }

  lemma NothingCharged(ws: seq<World>, actions: seq<Action>, n: nat, x: Uuid)
    requires n < |actions| < |ws| && !actions[n].Step?
    ensures Charged(ws, actions, n + 1, x) == Charged(ws, actions, n, x)
    ensures Settled(ws, actions, n + 1, x) <==> Settled(ws, actions, n, x)
  {
    assert Charged(ws, actions, n, x) + [] == Charged(ws, actions, n, x);
  }

  lemma OneStepMore(ws: seq<World>, actions: seq<Action>, n: nat, x: Uuid)
    requires n < |actions| < |ws|
    ensures Charged(ws, actions, n + 1, x) == Charged(ws, actions, n, x) + StepCharges(ws[n], actions[n], x)
    ensures Settled(ws, actions, n + 1, x) <==> Settled(ws, actions, n, x) || Settles(ws[n], actions[n], x)
  {
  }

  /** A step charges and settles nothing but the booking of its Book. */
  lemma NothingElseCharged(ws: seq<World>, actions: seq<Action>, n: nat, x: Uuid)
    requires n < |actions| < |ws| && actions[n].Step? && actions[n].pid in ws[n].procs
    requires var p := ws[n].procs[actions[n].pid]; !IsBook(p) || p.b.id != x
    ensures Charged(ws, actions, n + 1, x) == Charged(ws, actions, n, x)
    ensures Settled(ws, actions, n + 1, x) <==> Settled(ws, actions, n, x)
  {
    assert Charged(ws, actions, n, x) + [] == Charged(ws, actions, n, x);
  }

  lemma QuietAction(w: World, a: Action, w': World)
    requires Transits(w, a, w') && !a.Step?
    ensures w'.db.bookings == w.db.bookings && w.db.nextUuid <= w'.db.nextUuid
    ensures forall pid :: pid in w'.procs && IsBook(w'.procs[pid]) ==>
              || (pid in w.procs && w'.procs[pid] == w.procs[pid])
              || (w'.procs[pid].BookSave? && w'.procs[pid].b.id == w.db.nextUuid && w'.procs[pid].b.totalFee == 0)
  {
    hide I.Apply;
  }

  lemma {:induction false} EveryRunIsCharged(ws: seq<World>, actions: seq<Action>, n: nat)
    requires IsRun(ws, actions) && n < |ws|
    ensures FeesOk(ws, actions, n)
  {
    hide Transits, Inv, FeesOk;
    if n == 0 {
      NothingChargedYet(ws, actions);
    } else {
      EveryRunIsCharged(ws, actions, n - 1);
      EveryReachableStateIsOk(ws, actions, n - 1);
      if actions[n - 1].Step? {
        StepKeepsFees(ws, actions, n - 1);
      } else {
        QuietActionKeepsFees(ws, actions, n - 1);
      }
    }
  }

  lemma NothingChargedYet(ws: seq<World>, actions: seq<Action>)
    requires 0 <= |actions| < |ws| && Initial(ws[0])
    ensures FeesOk(ws, actions, 0)
  {
  }

  // ---- the result ----

  /**
   * Over every run, for every stored booking: if Book's last save was not rolled back, every night of the stay was
   * charged once, in order, at the fee on sale when it was held, and the total is the sum of these fees; otherwise the
   * total is 0. So a booking, Confirmed or not, carries the sum of its charges if and only if that save was kept or the
   * charges come to nothing.
   */
  lemma TotalIsWhatWasCharged(ws: seq<World>, actions: seq<Action>, n: nat, x: Uuid)
    requires IsRun(ws, actions) && n < |ws| && x in ws[n].db.bookings
    ensures var b, charges := ws[n].db.bookings[x].booking, Charged(ws, actions, n, x);
            if Settled(ws, actions, n, x)
            then b.totalFee == Sum(charges) && FirstNightsCharged(charges, b, b.period.Nights())
            else b.totalFee == 0
    ensures var b, charges := ws[n].db.bookings[x].booking, Charged(ws, actions, n, x);
            b.totalFee == Sum(charges) <==> Settled(ws, actions, n, x) || Sum(charges) == 0
  {
    EveryRunIsCharged(ws, actions, n);
  }
}
