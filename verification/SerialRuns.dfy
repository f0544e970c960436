/** Whole transactions are possible: any inventory transaction can run from its first statement to its commit, alone. */
module SerialRuns {
  import opened Common
  import opened I = InventorySpec
  import opened HoldTables
  import opened SaveProof
  import opened LockProtocol
  import opened LockProof

  /** Never more than one transaction is under way. */
  ghost predicate OneAtATime(syss: seq<Sys>) {
    forall i :: 0 <= i < |syss| ==> |syss[i].txs| <= 1
  }

  /** Some run of statements, with one transaction after the other, ends in this system. */
  ghost predicate Reachable(sys: Sys) {
    exists syss: seq<Sys>, actions: seq<Action> ::
      IsRun(syss, actions) && OneAtATime(syss) && syss[|actions|] == sys
  }

  lemma ReachableIsOk(sys: Sys)
    requires Reachable(sys)
    ensures SysOk(sys)
  {
    hide SysOk, Step;
    var syss: seq<Sys>, actions: seq<Action> :|
      IsRun(syss, actions) && OneAtATime(syss) && syss[|actions|] == sys;
    EveryReachableSysIsOk(syss, actions, |actions|);
  }

  lemma StartIsReachable()
    ensures Reachable(Sys(Tables(map[], map[]), map[], map[], {}, []))
  {
    var syss := [Sys(Tables(map[], map[]), map[], map[], {}, [])];
    assert IsRun(syss, []) && OneAtATime(syss);
  }

  lemma OneStepFurther(sys: Sys, a: Action, sys': Sys)
    requires Reachable(sys) && Step(sys, a, sys') && |sys'.txs| <= 1
    ensures Reachable(sys')
  {
    hide Step;
    var syss: seq<Sys>, actions: seq<Action> :|
      IsRun(syss, actions) && OneAtATime(syss) && syss[|actions|] == sys;
    assert IsRun(syss + [sys'], actions + [a]) by {
      forall i | 0 <= i < |actions + [a]| ensures Step((syss + [sys'])[i], (actions + [a])[i], (syss + [sys'])[i + 1]) {
        assert i < |actions| ==> Step(syss[i], actions[i], syss[i + 1]);
      }
    }
    assert OneAtATime(syss + [sys']);
    assert (syss + [sys'])[|actions + [a]|] == sys';
  }

  /** No transaction is running. */
  predicate Idle(sys: Sys) {
    sys.txs == map[] && sys.locks == map[]
  }

  /** The system in which one transaction runs on its own and holds its lock. */
  function With(sys: Sys, tx: Tx): Sys {
    sys.(txs := map[0 := tx], locks := map[tx.key := 0])
  }

  // ---- listings exist ----

  lemma {:induction false} SetAsList(s: set<Uuid>) returns (xs: seq<Uuid>)
    ensures forall x :: x in xs <==> x in s
    ensures forall i, j :: 0 <= i < j < |xs| ==> xs[i] != xs[j]
    decreases |s|
  {
    xs := [];
    if s != {} {
      var x :| x in s;
      var rest := SetAsList(s - {x});
      xs := [x] + rest;
    }
  }

  lemma RowsListed(t: Tables, k: InventoryId) returns (ids: seq<Uuid>)
    ensures ListsRows(ids, t, k)
  {
    ids := SetAsList(set id | id in t.holds && HasRow(t, k, id));
  }

  lemma HoldsListed(s: InventoryState) returns (holds: seq<Hold>)
    requires s.Valid() && s.DistinctIds()
    ensures Lists(holds, s)
  {
    var xs := SetAsList(s.holds.Keys);
    holds := seq(|xs|, i requires 0 <= i < |xs| => assert xs[i] in xs; s.holds[xs[i]]);
    forall b | b in s.holds ensures s.holds[b] in holds {
      var i :| 0 <= i < |xs| && xs[i] == b;
      assert holds[i] == s.holds[b];
    }
    forall i | 0 <= i < |xs| ensures xs[i] in s.holds && holds[i] == s.holds[xs[i]] {
      assert xs[i] in xs;
    }
  }

  // ---- one transaction from begin to commit ----

  lemma BeginsAndLocks(sys: Sys, k: InventoryId, op: Op)
    requires Reachable(sys) && Idle(sys) && k in sys.committed.inventories && HoldIds(op) !! sys.used
    ensures Reachable(With(sys.(used := sys.used + HoldIds(op)), Tx(k, op, GotRow(sys.committed.inventories[k]))))
  {
    var begun := sys.(txs := map[0 := Tx(k, op, Begun)], used := sys.used + HoldIds(op));
    assert begun.txs == sys.txs[0 := Tx(k, op, Begun)];
    OneStepFurther(sys, Begin(0, k, op), begun);
    var row := sys.committed.inventories[k];
    var locked := With(sys.(used := sys.used + HoldIds(op)), Tx(k, op, GotRow(row)));
    assert locked.txs == begun.txs[0 := begun.txs[0].(pc := GotRow(row))] && locked.locks == begun.locks[k := 0];
    OneStepFurther(begun, Lock(0), locked);
  }

  /** A step that changes only the program counter of the one transaction. */
  lemma MovesOn(sys: Sys, tx: Tx, a: Action, pc: Pc)
    requires Reachable(With(sys, tx))
    requires Step(With(sys, tx), a, With(sys, tx).(txs := With(sys, tx).txs[0 := tx.(pc := pc)]))
    ensures Reachable(With(sys, tx.(pc := pc)))
  {
    hide Step;
    assert With(sys, tx).(txs := With(sys, tx).txs[0 := tx.(pc := pc)]) == With(sys, tx.(pc := pc));
    OneStepFurther(With(sys, tx), a, With(sys, tx.(pc := pc)));
  }

  lemma Loads(sys: Sys, k: InventoryId, op: Op, s: InventoryState)
    requires Represents(sys.committed, k, s)
    requires k in sys.committed.inventories
    requires Reachable(With(sys, Tx(k, op, GotRow(sys.committed.inventories[k]))))
    ensures Reachable(With(sys, Tx(k, op, Loaded(s))))
  {
    hide Represents;
    var tx := Tx(k, op, GotRow(sys.committed.inventories[k]));
    assert sys.committed.inventories[k := sys.committed.inventories[k]] == sys.committed.inventories;
    MovesOn(sys, tx, ReadHolds(0, s), Loaded(s));
  }

  lemma Applies(sys: Sys, k: InventoryId, op: Op, s: InventoryState)
    requires Reachable(With(sys, Tx(k, op, Loaded(s)))) && Apply(s, op).Ok?
    ensures var a := Apply(s, op).value;
            Reachable(With(sys, Tx(k, op, if op.CollectOp? && a.reply == Collected(0) then NothingToSave(a.reply)
                                          else RowWritten(a.state, a.reply))))
  {
    hide Apply;
    var a := Apply(s, op).value;
    MovesOn(sys, Tx(k, op, Loaded(s)), ApplyAndWriteRow(0),
            if op.CollectOp? && a.reply == Collected(0) then NothingToSave(a.reply) else RowWritten(a.state, a.reply));
  }

  lemma ListsItsRows(sys: Sys, tx: Tx) returns (existing: seq<Uuid>, holds: seq<Hold>)
    requires tx.pc.RowWritten? && Reachable(With(sys, tx)) && tx.pc.after.Valid() && tx.pc.after.DistinctIds()
    ensures Reachable(With(sys, tx.(pc := Saving(tx.pc.after, tx.pc.reply, existing, holds, 1))))
  {
    hide ListsRows, Lists, View, InventoryState.Valid, InventoryState.DistinctIds;
    existing := RowsListed(View(With(sys, tx), tx), tx.key);
    holds := HoldsListed(tx.pc.after);
    MovesOn(sys, tx, ListRows(0, existing, holds), Saving(tx.pc.after, tx.pc.reply, existing, holds, 1));
  }

  lemma {:induction false} Executes(sys: Sys, tx: Tx, n: nat)
    requires tx.pc.Saving? && Reachable(With(sys, tx))
    requires tx.pc.n <= n <= |SaveStatements(tx.key, tx.pc.after, tx.pc.existing, tx.pc.holds)|
    ensures Reachable(With(sys, tx.(pc := tx.pc.(n := n))))
    decreases n
  {
    hide SaveStatements;
    if tx.pc.n < n {
      Executes(sys, tx, n - 1);
      var tx' := tx.(pc := tx.pc.(n := n - 1));
      MovesOn(sys, tx', NextStatement(0), tx'.pc.(n := n));
      assert tx'.(pc := tx'.pc.(n := n)) == tx.(pc := tx.pc.(n := n));
    }
  }

  lemma Commits(sys: Sys, tx: Tx) returns (sys': Sys)
    requires Idle(sys) && Reachable(With(sys, tx))
    requires tx.pc.NothingToSave? ||
             (tx.pc.Saving? && tx.pc.n == |SaveStatements(tx.key, tx.pc.after, tx.pc.existing, tx.pc.holds)|)
    ensures Reachable(sys') && Idle(sys') && sys'.used == sys.used &&
            sys'.log == sys.log + [Ran(tx.key, tx.op, tx.pc.reply)]
  {
    hide SaveStatements, View;
    var w := With(sys, tx);
    sys' := End(w, 0).(committed := View(w, tx), log := sys.log + [Ran(tx.key, tx.op, tx.pc.reply)]);
    assert map[0 := tx] - {0} == map[] && map[tx.key := 0] - {tx.key} == map[];
    OneStepFurther(w, Commit(0), sys');
  }

  /** What the committed tables say about an inventory that the log knows. */
  lemma CommittedState(sys: Sys, k: InventoryId)
    requires SysOk(sys) && k in Replay(sys.log)
    ensures k in sys.committed.inventories && Represents(sys.committed, k, Replay(sys.log)[k])
    ensures Replay(sys.log)[k].Valid() && sys.committed.holds.Keys <= sys.used
  {
  }

  lemma RunsWhole(sys: Sys, k: InventoryId, op: Op) returns (sys': Sys)
    requires Reachable(sys) && Idle(sys) && HoldIds(op) !! sys.used
    requires k in Replay(sys.log) && Apply(Replay(sys.log)[k], op).Ok?
    ensures Reachable(sys') && Idle(sys') && sys'.used == sys.used + HoldIds(op)
    ensures sys'.log == sys.log + [Ran(k, op, Apply(Replay(sys.log)[k], op).value.reply)]
  {
    hide Apply, Replay, Represents, SysOk, Reachable, SaveStatements, InventoryState.Valid, InventoryState.DistinctIds;
    var s := Replay(sys.log)[k];
    var a := Apply(s, op).value;
    ReachableIsOk(sys);
    CommittedState(sys, k);
    var busy := sys.(used := sys.used + HoldIds(op));
    BeginsAndLocks(sys, k, op);
    Loads(busy, k, op, s);
    Applies(busy, k, op, s);
    if op.CollectOp? && a.reply == Collected(0) {
      sys' := Commits(busy, Tx(k, op, NothingToSave(a.reply)));
    } else {
      ApplyKeepsValid(s, op);
      OperationsAreSavable(sys.committed, k, s, op);
      var tx := Tx(k, op, RowWritten(a.state, a.reply));
      var existing, holds := ListsItsRows(busy, tx);
      var saving := tx.(pc := Saving(a.state, a.reply, existing, holds, 1));
      var all := |SaveStatements(k, a.state, existing, holds)|;
      SomethingToSave(k, a.state, existing, holds);
      Executes(busy, saving, all);
      sys' := Commits(busy, saving.(pc := saving.pc.(n := all)));
    }
  }

  lemma SomethingToSave(k: InventoryId, s: InventoryState, existing: seq<Uuid>, holds: seq<Hold>)
    ensures |SaveStatements(k, s, existing, holds)| >= 1
  {
  }

  // ---- one log entry ----

  function EntryIds(e: Entry): set<Uuid> {
    if e.Ran? then HoldIds(e.op) else {}
  }

  /** Every entry that can come next in the serial run can be made to come next by a run of statements. */
  lemma RunsEntry(sys: Sys, e: Entry) returns (sys': Sys)
    requires Reachable(sys) && Idle(sys) && EntryIds(e) !! sys.used && Succeeds(Replay(sys.log), e)
    ensures Reachable(sys') && Idle(sys') && sys'.used == sys.used + EntryIds(e) && sys'.log == sys.log + [e]
  {
    hide Replay, Reachable;
    match e
    case Ran(k, op, _) => sys' := RunsWhole(sys, k, op);
    case Registered(k, quantity, fee) =>
      ReachableIsOk(sys);
      NotStored(sys, k);
      sys' := sys.(committed := Inserted(sys.committed, k, quantity, fee), log := sys.log + [e]);
      OneStepFurther(sys, Insert(k, quantity, fee), sys');
  }

  lemma NotStored(sys: Sys, k: InventoryId)
    requires SysOk(sys) && k !in Replay(sys.log)
    ensures k !in sys.committed.inventories
  {
  }

  // ---- every interleaving, run serially ----

  /** Hold identifiers in the log, and those of running transactions, were handed out once each. */
  ghost predicate LogIdsOk(sys: Sys) {
    && (forall i :: 0 <= i < |sys.log| ==> EntryIds(sys.log[i]) <= sys.used)
    && (forall i, j :: 0 <= i < j < |sys.log| ==> EntryIds(sys.log[i]) !! EntryIds(sys.log[j]))
    && (forall i, t :: 0 <= i < |sys.log| && t in sys.txs ==> EntryIds(sys.log[i]) !! HoldIds(sys.txs[t].op))
    && (forall t :: t in sys.txs ==> HoldIds(sys.txs[t].op) <= sys.used)
    && (forall t, u :: t in sys.txs && u in sys.txs && t != u ==> HoldIds(sys.txs[t].op) !! HoldIds(sys.txs[u].op))
  }

  /** A step leaves each transaction its operation, begins one, or ends one; only its own operation enters the log. */
  ghost predicate StepShape(sys: Sys, a: Action, sys': Sys) {
    match a
    case Begin(t, key, op) =>
      && t !in sys.txs && HoldIds(op) !! sys.used
      && sys' == sys.(txs := sys.txs[t := Tx(key, op, Begun)], used := sys.used + HoldIds(op))
    case Commit(t) =>
      && t in sys.txs && sys'.used == sys.used && sys'.txs == sys.txs - {t} && |sys'.log| == |sys.log| + 1
      && sys'.log[..|sys.log|] == sys.log && EntryIds(sys'.log[|sys.log|]) == HoldIds(sys.txs[t].op)
    case Insert(_, _, _) =>
      && sys'.used == sys.used && sys'.txs == sys.txs && |sys'.log| == |sys.log| + 1
      && sys'.log[..|sys.log|] == sys.log && EntryIds(sys'.log[|sys.log|]) == {}
    case _ =>
      && sys'.used == sys.used && sys'.log == sys.log && sys'.txs.Keys <= sys.txs.Keys
      && forall t :: t in sys'.txs ==> sys'.txs[t].op == sys.txs[t].op
  }

  lemma StepHasShape(sys: Sys, a: Action, sys': Sys)
    requires Step(sys, a, sys')
    ensures StepShape(sys, a, sys')
  {
    hide Apply, Represents, View, SaveStatements, Lists, ListsRows;
  }

  lemma ShapeKeepsLogIds(sys: Sys, a: Action, sys': Sys)
    requires LogIdsOk(sys) && StepShape(sys, a, sys')
    ensures LogIdsOk(sys')
  {
    if a.Commit? || a.Insert? {
      assert forall i :: 0 <= i < |sys.log| ==> sys'.log[i] == sys'.log[..|sys.log|][i];
    }
  }

  lemma {:induction false} LogIdsStayOk(syss: seq<Sys>, actions: seq<Action>, i: nat)
    requires IsRun(syss, actions) && i < |syss|
    ensures LogIdsOk(syss[i])
  {
    hide Step, LogIdsOk, StepShape;
    if i == 0 {
      NoIdsAtFirst(syss[0]);
    } else {
      LogIdsStayOk(syss, actions, i - 1);
      StepHasShape(syss[i - 1], actions[i - 1], syss[i]);
      ShapeKeepsLogIds(syss[i - 1], actions[i - 1], syss[i]);
    }
  }

  lemma NoIdsAtFirst(sys: Sys)
    requires sys.txs == map[] && sys.log == []
    ensures LogIdsOk(sys)
  {
  }

  /** The identifiers of the first n entries. */
  function IdsUpTo(log: seq<Entry>, n: nat): set<Uuid>
    requires n <= |log|
  {
    if n == 0 then {} else IdsUpTo(log, n - 1) + EntryIds(log[n - 1])
  }

  lemma {:induction false} ComesFromAnEntry(log: seq<Entry>, n: nat, id: Uuid)
    requires n <= |log| && id in IdsUpTo(log, n)
    ensures exists i :: 0 <= i < n && id in EntryIds(log[i])
  {
    if id !in EntryIds(log[n - 1]) {
      ComesFromAnEntry(log, n - 1, id);
    }
  }

  lemma {:induction false} RunsLog(log: seq<Entry>, n: nat) returns (sys: Sys)
    requires Explained(log) && n <= |log|
    requires forall i, j :: 0 <= i < j < |log| ==> EntryIds(log[i]) !! EntryIds(log[j])
    ensures Reachable(sys) && Idle(sys) && sys.log == log[..n] && sys.used == IdsUpTo(log, n)
  {
    hide Reachable, Succeeds, Replay;
    if n == 0 {
      StartIsReachable();
      sys := Sys(Tables(map[], map[]), map[], map[], {}, []);
    } else {
      sys := RunsLog(log, n - 1);
      var before := IdsUpTo(log, n - 1);
      forall id | id in before ensures id !in EntryIds(log[n - 1]) {
        ComesFromAnEntry(log, n - 1, id);
      }
      assert log[..n] == log[..n - 1] + [log[n - 1]];
      sys := RunsEntry(sys, log[n - 1]);
    }
  }

  /**
   * Serialisability with the serial execution as an actual run: whatever any number of transactions did, interleaved
   * statement by statement, there is a run of statements in which never more than one transaction is under way, that
   * commits the same transactions in the same order with the same replies and leaves the very same tables.
   */
  lemma EveryRunHasASerialRun(syss: seq<Sys>, actions: seq<Action>, i: nat)
    requires IsRun(syss, actions) && i < |syss|
    ensures exists serial: seq<Sys>, statements: seq<Action> ::
              && IsRun(serial, statements) && OneAtATime(serial)
              && serial[|statements|].log == syss[i].log && serial[|statements|].committed == syss[i].committed
  {
    hide Step, RepresentsAll, Replay, Explained, OneAtATime;
    InterleavingIsSerial(syss, actions, i, syss[i].committed);
    LogIdsStayOk(syss, actions, i);
    var log := syss[i].log;
    var sys := RunsLog(log, |log|);
    assert log[..|log|] == log;
    var serial: seq<Sys>, statements: seq<Action> :|
      IsRun(serial, statements) && OneAtATime(serial) && serial[|statements|] == sys;
    InterleavingIsSerial(serial, statements, |statements|, syss[i].committed);
  }
}
