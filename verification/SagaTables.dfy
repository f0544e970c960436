/**
 * The saga works on inventories as values. Here its databases are tied to the tables: the inventories of every
 * reachable state are what a serial log of whole inventory transactions yields, and rows exist that represent them.
 */
module SagaTables {
  import opened Common
  import opened HoldTables
  import opened Transactions
  import opened Saga
  import opened SagaInvariant
  import opened SagaSafety
  import L = LockProtocol
  import P = LockProof
  import R = SerialRuns
  import I = InventorySpec

  /** Hold identifiers are a key over all inventories, and each was handed out. */
  ghost predicate IdsOk(db: Db) {
    && (forall k, x :: db.HasHold(k, x) ==> db.HoldOf(k, x).id < db.nextUuid)
    && (forall k, x, k', x' :: db.HasHold(k, x) && db.HasHold(k', x') && db.HoldOf(k, x).id == db.HoldOf(k', x').id ==>
          k == k' && x == x')
  }

  /** Every hold after is one from before with its identifier, or the one that was given the next identifier. */
  ghost predicate IdsFollow(db: Db, db': Db, k: InventoryId, x: Uuid) {
    && db.nextUuid <= db'.nextUuid
    && forall k', x' :: db'.HasHold(k', x') ==>
         if db.HasHold(k', x') then db'.HoldOf(k', x').id == db.HoldOf(k', x').id
         else k' == k && x' == x && db'.HoldOf(k', x').id == db.nextUuid && db.nextUuid < db'.nextUuid
  }

  lemma IdsStayOk(db: Db, db': Db, k: InventoryId, x: Uuid)
    requires IdsOk(db) && IdsFollow(db, db', k, x)
    ensures IdsOk(db')
  {
  }

  /** An inventory transaction that is not a Hold keeps every identifier. */
  lemma CallFollows(db: Db, k: InventoryId, op: I.Op, o: Outcome, next: Uuid)
    requires next >= db.nextUuid && (op.HoldOp? ==> op.holdId == db.nextUuid < next)
    ensures IdsFollow(db, Call(db, k, op, o).0.(nextUuid := next), k, if op.HoldOp? then op.bookingId else 0)
  {
  }

  lemma RowsKeepIds(db: Db, db': Db)
    requires IdsOk(db) && db'.inventories == db.inventories && db.nextUuid <= db'.nextUuid
    ensures IdsOk(db')
  {
    assert forall k, x :: db'.HasHold(k, x) <==> db.HasHold(k, x);
    assert forall k, x :: db'.HasHold(k, x) ==> db'.HoldOf(k, x) == db.HoldOf(k, x);
  }

  lemma CallKeepsIds(db: Db, k: InventoryId, op: I.Op, o: Outcome, next: Uuid)
    requires IdsOk(db) && next >= db.nextUuid && (op.HoldOp? ==> op.holdId == db.nextUuid < next)
    ensures IdsOk(Call(db, k, op, o).0.(nextUuid := next))
    ensures next == db.nextUuid ==> IdsOk(Call(db, k, op, o).0)
  {
    CallFollows(db, k, op, o, next);
    IdsStayOk(db, Call(db, k, op, o).0.(nextUuid := next), k, if op.HoldOp? then op.bookingId else 0);
  }

  /** At most one inventory changes in a step, and it changes by one whole transaction. */
  function EntryOf(w: World, a: Action): seq<L.Entry> {
    match a
    case Register(k, quantity, fee) => [L.Registered(k, quantity, fee)]
    case Edit(k, op) => Logged(w.db, k, op, Commit)
    case Step(pid, e) => if pid in w.procs then CallOf(w.db, w.procs[pid], e) else []
    case _ => []
  }

  function Logged(db: Db, k: InventoryId, op: I.Op, o: Outcome): seq<L.Entry> {
    match Mutate(db, k, op)
    case Ok(m) => if o == Abort then [] else [L.Ran(k, op, m.reply)]
    case Err(_) => []
  }

  function CallOf(db: Db, p: Proc, e: Env): seq<L.Entry> {
    match p
    case BookHold(b, now, i, _) =>
      if i < b.period.Nights() then Logged(db, b.Night(i), HoldNight(b, now, db.nextUuid), e.outcome) else []
    case BookRelease(b, _, held, j) => if j < held then Logged(db, b.Night(j), I.ReleaseOp(b.id), e.outcome) else []
    case ConfirmPay(b, i) =>
      if i < b.period.Nights() then Logged(db, b.Night(i), I.StartPaymentOp(b.id), e.outcome) else []
    case ConfirmSlots(b, i) =>
      if i < b.period.Nights() then Logged(db, b.Night(i), I.ConfirmOp(b.id), e.outcome) else []
    case CancelRelease(b, i, _, _) =>
      if i < b.period.Nights() then Logged(db, b.Night(i), I.ReleaseOp(b.id), e.outcome) else []
    case CollectLoop(keys, now) => if keys == [] then [] else Logged(db, keys[0], I.CollectOp(now), e.outcome)
    case _ => []
  }

  /** One more log entry, if any, and the inventories it yields. */
  ghost predicate Explains(abs: map<InventoryId, I.InventoryState>, entry: seq<L.Entry>,
                              abs': map<InventoryId, I.InventoryState>)
  {
    || (entry == [] && abs' == abs)
    || (|entry| == 1 && L.Succeeds(abs, entry[0]) && abs' == L.AfterEntry(abs, entry[0]))
  }

  lemma CallIsLogged(db: Db, k: InventoryId, op: I.Op, o: Outcome)
    ensures Explains(db.inventories, Logged(db, k, op, o), Call(db, k, op, o).0.inventories)
  {
  }

  lemma StepIsLogged(w: World, a: Action, w': World)
    requires Transits(w, a, w')
    ensures Explains(w.db.inventories, EntryOf(w, a), w'.db.inventories)
  {
    hide Explains, L.Succeeds, L.AfterEntry;
    match a
    case Register(k, quantity, fee) => RegisterIsLogged(w.db.inventories, k, quantity, fee);
    case Edit(k, op) => CallIsLogged(w.db, k, op, Commit);
    case Step(pid, e) => ProcessIsLogged(w.db, w.procs[pid], e);
    case _ => NothingIsLogged(w.db.inventories);
  }

  lemma RegisterIsLogged(abs: map<InventoryId, I.InventoryState>, k: InventoryId, quantity: int, fee: int)
    requires k !in abs && I.Register(quantity, fee).Ok?
    ensures Explains(abs, [L.Registered(k, quantity, fee)], abs[k := I.Register(quantity, fee).value])
  {
  }

  lemma NothingIsLogged(abs: map<InventoryId, I.InventoryState>)
    ensures Explains(abs, [], abs)
  {
  }

  lemma ProcessIsLogged(db: Db, p: Proc, e: Env)
    ensures Explains(db.inventories, CallOf(db, p, e), Advance(db, p, e).db.inventories)
  {
  }

  lemma ProcessKeepsIds(db: Db, p: Proc, e: Env)
    requires IdsOk(db)
    ensures IdsOk(Advance(db, p, e).db)
  {
    hide Mutate, Call;
    var db' := Advance(db, p, e).db;
    match p
    case BookHold(b, now, i, _) =>
      if i < b.period.Nights() {
        CallKeepsIds(db, b.Night(i), HoldNight(b, now, db.nextUuid), e.outcome, db.nextUuid + 1);
      } else {
        RowsKeepIds(db, db');
      }
    case BookRelease(b, _, held, j) =>
      if j < held {
        CallKeepsIds(db, b.Night(j), I.ReleaseOp(b.id), e.outcome, db.nextUuid);
      } else {
        RowsKeepIds(db, db');
      }
    case ConfirmPay(b, i) =>
      if i < b.period.Nights() { CallKeepsIds(db, b.Night(i), I.StartPaymentOp(b.id), e.outcome, db.nextUuid); }
    case ConfirmSlots(b, i) =>
      if i < b.period.Nights() { CallKeepsIds(db, b.Night(i), I.ConfirmOp(b.id), e.outcome, db.nextUuid); }
      else { RowsKeepIds(db, db'); }
    case CancelRelease(b, i, _, _) =>
      if i < b.period.Nights() { CallKeepsIds(db, b.Night(i), I.ReleaseOp(b.id), e.outcome, db.nextUuid); }
    case CollectLoop(keys, now) =>
      if keys != [] { CallKeepsIds(db, keys[0], I.CollectOp(now), e.outcome, db.nextUuid); }
    case _ => RowsKeepIds(db, db');
  }

  lemma ActionKeepsIds(w: World, a: Action, w': World)
    requires IdsOk(w.db) && Transits(w, a, w')
    ensures IdsOk(w'.db)
  {
    match a
    case Register(k, quantity, fee) =>
      assert forall k', x :: w'.db.HasHold(k', x) ==> w.db.HasHold(k', x) && w'.db.HoldOf(k', x) == w.db.HoldOf(k', x);
    case Edit(k, op) => CallKeepsIds(w.db, k, op, Commit, w.db.nextUuid);
    case Step(pid, e) => ProcessKeepsIds(w.db, w.procs[pid], e);
    case _ => RowsKeepIds(w.db, w'.db);
  }

  /** The inventory transactions of a run, in commit order. */
  ghost function LogOf(ws: seq<World>, actions: seq<Action>, n: nat): seq<L.Entry>
    requires n <= |actions| < |ws|
  {
    if n == 0 then [] else LogOf(ws, actions, n - 1) + EntryOf(ws[n - 1], actions[n - 1])
  }

  lemma LogOneMore(log: seq<L.Entry>, entry: seq<L.Entry>, abs': map<InventoryId, I.InventoryState>)
    requires L.Explained(log) && Explains(L.Replay(log), entry, abs')
    ensures L.Explained(log + entry) && L.Replay(log + entry) == abs'
  {
    hide L.AfterEntry, L.Succeeds;
    if entry == [] {
      assert log + entry == log;
    } else {
      assert (log + entry)[..|log|] == log;
      forall i | 0 <= i < |log + entry| ensures L.Succeeds(L.Replay((log + entry)[..i]), (log + entry)[i]) {
        assert i < |log| ==> (log + entry)[..i] == log[..i];
      }
    }
  }

  /**
   * In every reachable state the inventories are the replay of the transactions so far, each of which succeeds in it.
   */
  lemma {:induction false} InventoriesAreTheirLog(ws: seq<World>, actions: seq<Action>, n: nat)
    requires IsRun(ws, actions) && n < |ws|
    ensures IdsOk(ws[n].db)
    ensures L.Explained(LogOf(ws, actions, n)) && L.Replay(LogOf(ws, actions, n)) == ws[n].db.inventories
  {
    hide Transits, IdsOk, EntryOf, Explains;
    if n == 0 {
      NoIdsYet(ws[0].db);
    } else {
      InventoriesAreTheirLog(ws, actions, n - 1);
      ActionKeepsIds(ws[n - 1], actions[n - 1], ws[n]);
      StepIsLogged(ws[n - 1], actions[n - 1], ws[n]);
      LogOneMore(LogOf(ws, actions, n - 1), EntryOf(ws[n - 1], actions[n - 1]), ws[n].db.inventories);
    }
  }

  lemma NoIdsYet(db: Db)
    requires db.inventories == map[]
    ensures IdsOk(db)
  {
  }

  // ---- the rows ----

  function HoldIds(db: Db): set<Uuid> {
    set k, x | k in db.inventories && x in db.inventories[k].holds :: db.inventories[k].holds[x].id
  }

  ghost function HoldRowAt(db: Db, id: Uuid): HoldRow
    requires id in HoldIds(db)
  {
    var k, x :| k in db.inventories && x in db.inventories[k].holds && db.inventories[k].holds[x].id == id;
    HoldRowOf(k, db.inventories[k].holds[x])
  }

  ghost function TablesOf(db: Db): Tables {
    Tables(map k | k in db.inventories :: RowOf(db.inventories[k]), map id | id in HoldIds(db) :: HoldRowAt(db, id))
  }

  lemma RowOfHold(db: Db, k: InventoryId, x: Uuid)
    requires IdsOk(db) && InventoriesOk(db) && db.HasHold(k, x)
    ensures var h := db.HoldOf(k, x); h.id in TablesOf(db).holds && TablesOf(db).holds[h.id] == HoldRowOf(k, h)
  {
    var id := db.HoldOf(k, x).id;
    assert id in HoldIds(db);
    var k', x' :| k' in db.inventories && x' in db.inventories[k'].holds && db.inventories[k'].holds[x'].id == id
                  && HoldRowAt(db, id) == HoldRowOf(k', db.inventories[k'].holds[x']);
    assert db.HasHold(k', x');
  }

  lemma HoldOfRow(db: Db, id: Uuid) returns (k: InventoryId, x: Uuid)
    requires IdsOk(db) && InventoriesOk(db) && id in TablesOf(db).holds
    ensures db.HasHold(k, x) && db.HoldOf(k, x).id == id && TablesOf(db).holds[id] == HoldRowOf(k, db.HoldOf(k, x))
  {
    k, x :| k in db.inventories && x in db.inventories[k].holds && db.inventories[k].holds[x].id == id;
    RowOfHold(db, k, x);
  }

  lemma TablesRepresent(db: Db)
    requires IdsOk(db) && InventoriesOk(db)
    ensures L.RepresentsAll(TablesOf(db), db.inventories)
  {
    hide IdsOk, HoldIds, HoldRowAt, Represents;
    var t := TablesOf(db);
    forall a, b | a in t.holds && b in t.holds && a != b && t.holds[a].key == t.holds[b].key
      ensures t.holds[a].slotNo != t.holds[b].slotNo
    {
      var k, x := HoldOfRow(db, a);
      var k', x' := HoldOfRow(db, b);
    }
    forall a | a in t.holds ensures t.holds[a].slotNo >= 1 && t.holds[a].key in t.inventories {
      var k, x := HoldOfRow(db, a);
    }
    forall k | k in db.inventories ensures Represents(t, k, db.inventories[k]) {
      InventoryIsRepresented(db, k);
    }
  }

  lemma InventoryIsRepresented(db: Db, k: InventoryId)
    requires IdsOk(db) && InventoriesOk(db) && k in db.inventories
    ensures Represents(TablesOf(db), k, db.inventories[k])
  {
    hide IdsOk, HoldIds, HoldRowAt;
    var t, s := TablesOf(db), db.inventories[k];
    forall id | HasRow(t, k, id)
      ensures t.holds[id].bookingId in s.holds && s.holds[t.holds[id].bookingId] == ToHold(id, t.holds[id])
    {
      var k', x := HoldOfRow(db, id);
    }
    forall b | b in s.holds ensures HasRow(t, k, s.holds[b].id) && t.holds[s.holds[b].id].bookingId == b {
      assert db.HasHold(k, b);
      RowOfHold(db, k, b);
    }
  }

  /**
   * From processes to rows: every reachable state of the saga has tables that represent all its inventories, within all
   * constraints; and when statement-level transactions, however interleaved, commit the same inventory transactions in
   * the same order, the committed tables are exactly these.
   */
  lemma SagaStatesAreTables(ws: seq<World>, actions: seq<Action>, n: nat, syss: seq<L.Sys>, statements: seq<L.Action>,
      i: nat)
    requires IsRun(ws, actions) && n < |ws|
    requires L.IsRun(syss, statements) && i < |syss| && syss[i].log == LogOf(ws, actions, n)
    ensures L.RepresentsAll(TablesOf(ws[n].db), ws[n].db.inventories) && syss[i].committed == TablesOf(ws[n].db)
  {
    ReachableStateHasTables(ws, actions, n);
    InventoriesAreTheirLog(ws, actions, n);
    P.InterleavingIsSerial(syss, statements, i, TablesOf(ws[n].db));
  }

  lemma ReachableStateHasTables(ws: seq<World>, actions: seq<Action>, n: nat)
    requires IsRun(ws, actions) && n < |ws|
    ensures L.RepresentsAll(TablesOf(ws[n].db), ws[n].db.inventories)
  {
    EveryReachableStateIsOk(ws, actions, n);
    InventoriesAreTheirLog(ws, actions, n);
    TablesRepresent(ws[n].db);
  }

  // ---- every run of the saga is a run of statements ----

  /** The hold identifiers of a step are ones it takes from the counter. */
  lemma StepTakesItsIds(w: World, a: Action, w': World)
    requires Transits(w, a, w')
    ensures w.db.nextUuid <= w'.db.nextUuid
    ensures forall id :: EntryOf(w, a) != [] && id in R.EntryIds(EntryOf(w, a)[0]) ==>
            w.db.nextUuid <= id < w'.db.nextUuid
  {
  }

  /**
   * Whatever the saga does, transactions run statement by statement can do: for every run and every point of it there
   * is a run of statements, with one transaction after the other, that commits the same inventory transactions in
   * the same order.
   */
  lemma {:induction false} StatementsFollow(ws: seq<World>, actions: seq<Action>, n: nat) returns (sys: L.Sys)
    requires IsRun(ws, actions) && n < |ws|
    ensures R.Reachable(sys) && R.Idle(sys) && sys.log == LogOf(ws, actions, n)
    ensures forall id :: id in sys.used ==> id < ws[n].db.nextUuid
  {
    hide Transits, EntryOf, Explains, R.Reachable, IdsOk;
    if n == 0 {
      R.StartIsReachable();
      sys := L.Sys(Tables(map[], map[]), map[], map[], {}, []);
    } else {
      var before := StatementsFollow(ws, actions, n - 1);
      var entry := EntryOf(ws[n - 1], actions[n - 1]);
      StepTakesItsIds(ws[n - 1], actions[n - 1], ws[n]);
      InventoriesAreTheirLog(ws, actions, n - 1);
      StepIsLogged(ws[n - 1], actions[n - 1], ws[n]);
      EntrySucceeds(ws[n - 1].db.inventories, entry, ws[n].db.inventories);
      sys := before;
      if entry != [] {
        sys := R.RunsEntry(before, entry[0]);
      }
    }
  }

  lemma EntrySucceeds(abs: map<InventoryId, I.InventoryState>, entry: seq<L.Entry>,
                      abs': map<InventoryId, I.InventoryState>)
    requires Explains(abs, entry, abs')
    ensures entry != [] ==> entry == [entry[0]] && L.Succeeds(abs, entry[0])
  {
  }

  /** And the tables it leaves are those of the saga's state. */
  lemma EverySagaRunIsARunOfStatements(ws: seq<World>, actions: seq<Action>, n: nat)
    requires IsRun(ws, actions) && n < |ws|
    ensures exists syss: seq<L.Sys>, statements: seq<L.Action> ::
              && L.IsRun(syss, statements) && R.OneAtATime(syss)
              && syss[|statements|].log == LogOf(ws, actions, n)
              && syss[|statements|].committed == TablesOf(ws[n].db)
              && L.RepresentsAll(syss[|statements|].committed, ws[n].db.inventories)
  {
    hide Transits, L.Step, L.RepresentsAll, LogOf, TablesOf, R.OneAtATime;
    var sys := StatementsFollow(ws, actions, n);
    var syss: seq<L.Sys>, statements: seq<L.Action> :|
      L.IsRun(syss, statements) && R.OneAtATime(syss) && syss[|statements|] == sys;
    SagaStatesAreTables(ws, actions, n, syss, statements, |statements|);
  }
}
