/**
 * Under the row lock, every interleaving of statements has the effect of the committed transactions in commit order.
 */
module LockProof {
  import opened Common
  import opened I = InventorySpec
  import opened HoldTables
  import opened SaveProof
  import opened LockProtocol

  // ---- the invariant ----

  /**
   * What a transaction has read is still what is committed, and what it is about to write is the operation applied to
   * it.
   */
  ghost predicate TxOk(tx: Tx, t: Tables, abs: map<InventoryId, InventoryState>, used: set<Uuid>) {
    && (tx.op.HoldOp? ==> tx.op.holdId in used && tx.op.holdId !in t.holds)
    && (tx.pc != Begun ==> tx.key in abs)
    && match tx.pc
       case Begun => true
       case GotRow(row) => row == RowOf(abs[tx.key])
       case Loaded(s) => s == abs[tx.key]
       case NothingToSave(reply) => Apply(abs[tx.key], tx.op) == Ok(Applied(abs[tx.key], reply))
       case RowWritten(after, reply) => Apply(abs[tx.key], tx.op) == Ok(Applied(after, reply))
       case Saving(after, reply, existing, holds, n) =>
         && Apply(abs[tx.key], tx.op) == Ok(Applied(after, reply))
         && ListsRows(existing, t, tx.key) && Lists(holds, after)
         && 1 <= n <= |SaveStatements(tx.key, after, existing, holds)|
  }

  /** A lock belongs to the one transaction that is past its Lock step on that inventory. */
  ghost predicate LocksOk(txs: map<nat, Tx>, locks: map<InventoryId, nat>) {
    && (forall t :: t in txs && txs[t].pc != Begun ==> txs[t].key in locks && locks[txs[t].key] == t)
    && (forall k :: k in locks ==> locks[k] in txs && txs[locks[k]].key == k && txs[locks[k]].pc != Begun)
  }

  /** No two transactions create a hold under the same identifier. */
  ghost predicate FreshHolds(txs: map<nat, Tx>) {
    forall t, u :: t in txs && u in txs && t != u && txs[t].op.HoldOp? && txs[u].op.HoldOp? ==>
      txs[t].op.holdId != txs[u].op.holdId
  }

  ghost predicate SysOk(sys: Sys) {
    && RepresentsAll(sys.committed, Replay(sys.log)) && Explained(sys.log)
    && sys.committed.holds.Keys <= sys.used
    && LocksOk(sys.txs, sys.locks) && FreshHolds(sys.txs)
    && (forall t :: t in sys.txs ==> TxOk(sys.txs[t], sys.committed, Replay(sys.log), sys.used))
  }

  // ---- steps that change only private state ----

  lemma PrivateStep(sys: Sys, t: nat, pc: Pc)
    requires SysOk(sys) && t in sys.txs && sys.txs[t].pc != Begun && pc != Begun
    requires TxOk(sys.txs[t].(pc := pc), sys.committed, Replay(sys.log), sys.used)
    ensures SysOk(sys.(txs := sys.txs[t := sys.txs[t].(pc := pc)]))
  {
    hide TxOk, RepresentsAll, Replay, Explained;
  }

  lemma BeginStep(sys: Sys, t: nat, key: InventoryId, op: Op)
    requires SysOk(sys) && t !in sys.txs && HoldIds(op) !! sys.used
    ensures SysOk(sys.(txs := sys.txs[t := Tx(key, op, Begun)], used := sys.used + HoldIds(op)))
  {
    hide TxOk, RepresentsAll, Replay, Explained;
    var txs, used := sys.txs[t := Tx(key, op, Begun)], sys.used + HoldIds(op);
    forall u | u in txs ensures TxOk(txs[u], sys.committed, Replay(sys.log), used) {
      TxStaysOk(txs[u], sys.committed, Replay(sys.log), sys.used, used);
    }
    forall u | u in sys.txs && op.HoldOp? ensures sys.txs[u].op.HoldOp? ==> sys.txs[u].op.holdId != op.holdId {
      TxStaysOk(sys.txs[u], sys.committed, Replay(sys.log), sys.used, used);
    }
  }

  lemma TxStaysOk(tx: Tx, t: Tables, abs: map<InventoryId, InventoryState>, used: set<Uuid>, used': set<Uuid>)
    requires t.holds.Keys <= used <= used'
    requires TxOk(tx, t, abs, used) || (tx.pc == Begun && HoldIds(tx.op) <= used' - used)
    ensures TxOk(tx, t, abs, used')
    ensures TxOk(tx, t, abs, used) && tx.op.HoldOp? ==> tx.op.holdId in used
  {
    hide Apply, Lists, ListsRows, SaveStatements;
  }

  /** What the invariant says about one transaction and its inventory. */
  lemma TxFacts(sys: Sys, t: nat)
    requires SysOk(sys) && t in sys.txs
    ensures TxOk(sys.txs[t], sys.committed, Replay(sys.log), sys.used)
    ensures sys.txs[t].key in Replay(sys.log) <==> sys.txs[t].key in sys.committed.inventories
    ensures sys.txs[t].key in Replay(sys.log) ==>
              Replay(sys.log)[sys.txs[t].key].Valid() &&
                  Represents(sys.committed, sys.txs[t].key, Replay(sys.log)[sys.txs[t].key])
    ensures Constraints(sys.committed)
  {
  }

  lemma LockInstall(sys: Sys, t: nat, pc: Pc)
    requires SysOk(sys) && t in sys.txs && sys.txs[t].pc == Begun && pc != Begun && sys.txs[t].key !in sys.locks
    requires TxOk(sys.txs[t].(pc := pc), sys.committed, Replay(sys.log), sys.used)
    ensures SysOk(sys.(txs := sys.txs[t := sys.txs[t].(pc := pc)], locks := sys.locks[sys.txs[t].key := t]))
  {
    hide TxOk, RepresentsAll, Replay, Explained;
  }

  lemma LockStep(sys: Sys, t: nat)
    requires SysOk(sys) && t in sys.txs && sys.txs[t].pc == Begun
    requires sys.txs[t].key in sys.committed.inventories && sys.txs[t].key !in sys.locks
    ensures var k := sys.txs[t].key;
            SysOk(sys.(txs := sys.txs[t := sys.txs[t].(pc := GotRow(sys.committed.inventories[k]))],
                       locks := sys.locks[k := t]))
  {
    hide SysOk, Replay;
    TxFacts(sys, t);
    LockInstall(sys, t, GotRow(sys.committed.inventories[sys.txs[t].key]));
  }

  lemma EndStep(sys: Sys, t: nat)
    requires SysOk(sys) && t in sys.txs
    ensures SysOk(End(sys, t))
  {
    hide TxOk, RepresentsAll, Replay, Explained;
  }

  lemma ReadStep(sys: Sys, t: nat, s: InventoryState)
    requires SysOk(sys) && t in sys.txs && sys.txs[t].pc.GotRow?
    requires var tx := sys.txs[t];
             Represents(sys.committed.(inventories := sys.committed.inventories[tx.key := tx.pc.row]), tx.key, s)
    ensures SysOk(sys.(txs := sys.txs[t := sys.txs[t].(pc := Loaded(s))]))
  {
    hide SysOk, Replay, Apply;
    TxFacts(sys, t);
    var tx, abs := sys.txs[t], Replay(sys.log);
    assert sys.committed.inventories[tx.key := tx.pc.row] == sys.committed.inventories;
    RepresentsOnlyOne(sys.committed, tx.key, s, abs[tx.key]);
    PrivateStep(sys, t, Loaded(s));
  }

  lemma ApplyStep(sys: Sys, t: nat)
    requires SysOk(sys) && t in sys.txs && sys.txs[t].pc.Loaded?
    requires Apply(sys.txs[t].pc.before, sys.txs[t].op).Ok?
    ensures var tx := sys.txs[t]; var a := Apply(tx.pc.before, tx.op).value;
            SysOk(sys.(txs := sys.txs[t := tx.(pc := if tx.op.CollectOp? && a.reply == Collected(0)
                                                     then NothingToSave(a.reply) else RowWritten(a.state, a.reply))]))
  {
    hide SysOk, Replay, Apply, Represents, Constraints;
    TxFacts(sys, t);
    var tx := sys.txs[t];
    var a := Apply(tx.pc.before, tx.op).value;
    if tx.op.CollectOp? {
      CollectIsAFilter(tx.pc.before, tx.op.now);
    }
    var pc :=
      if tx.op.CollectOp? && a.reply == Collected(0) then NothingToSave(a.reply) else RowWritten(a.state, a.reply);
    PrivateStep(sys, t, pc);
  }

  lemma ListStep(sys: Sys, t: nat, existing: seq<Uuid>, holds: seq<Hold>)
    requires SysOk(sys) && t in sys.txs && sys.txs[t].pc.RowWritten?
    requires ListsRows(existing, View(sys, sys.txs[t]), sys.txs[t].key) && Lists(holds, sys.txs[t].pc.after)
    ensures var tx := sys.txs[t];
            SysOk(sys.(txs := sys.txs[t := tx.(pc := Saving(tx.pc.after, tx.pc.reply, existing, holds, 1))]))
  {
    hide SysOk, Replay, Apply, Represents, Constraints, ListsRows, Lists;
    TxFacts(sys, t);
    var tx := sys.txs[t];
    ViewAfterRow(sys, t);
    RowsAfterUpsert(sys.committed, tx.key, RowOf(tx.pc.after), existing);
    PrivateStep(sys, t, Saving(tx.pc.after, tx.pc.reply, existing, holds, 1));
  }

  lemma ViewAfterRow(sys: Sys, t: nat)
    requires t in sys.txs && sys.txs[t].pc.RowWritten?
    ensures var tx := sys.txs[t]; View(sys, tx) == Exec(sys.committed, UpsertInventory(tx.key, RowOf(tx.pc.after)))
  {
    var tx := sys.txs[t];
    var u := UpsertInventory(tx.key, RowOf(tx.pc.after));
    assert [u][..0] == [] && ExecAll(sys.committed, []) == sys.committed;
  }

  // ---- commit ----

  /** A transaction that is saving satisfies what Save needs. */
  lemma ReadyToSave(sys: Sys, t: nat)
    requires SysOk(sys) && t in sys.txs && sys.txs[t].pc.Saving?
    ensures var tx := sys.txs[t];
            SaveInput(sys.committed, tx.key, tx.pc.after, tx.pc.existing, tx.pc.holds)
  {
    hide SysOk, Replay, Apply, Represents, Constraints, ListsRows, Lists, Savable;
    TxFacts(sys, t);
    var tx, abs := sys.txs[t], Replay(sys.log);
    ApplyKeepsValid(abs[tx.key], tx.op);
    OperationsAreSavable(sys.committed, tx.key, abs[tx.key], tx.op);
  }

  /** Appending an entry replays one transaction more. */
  lemma ReplayOneMore(log: seq<Entry>, e: Entry)
    requires Explained(log) && Succeeds(Replay(log), e)
    ensures Explained(log + [e]) && Replay(log + [e]) == AfterEntry(Replay(log), e)
  {
    assert (log + [e])[..|log|] == log;
    forall i | 0 <= i < |log| ensures (log + [e])[..i] == log[..i] && (log + [e])[i] == log[i] {
    }
  }

  /** After one inventory of the tables has been replaced, they represent the aggregates with that one replaced. */
  lemma ReplaceOne(t: Tables, t': Tables, abs: map<InventoryId, InventoryState>, k: InventoryId, s: InventoryState)
    requires RepresentsAll(t, abs) && Constraints(t') && SameElsewhere(t, t', k) && Represents(t', k, s) && s.Valid()
    ensures RepresentsAll(t', abs[k := s])
  {
    hide Represents, Constraints, InventoryState.Valid;
    KeyPresent(t', k, s);
    forall k' | k' in abs && k' != k ensures Represents(t', k', abs[k']) {
      OthersUndisturbed(t, t', k, k', abs[k']);
    }
    forall k' ensures k' in t'.inventories <==> k' in abs[k := s] {
    }
  }

  lemma KeyPresent(t: Tables, k: InventoryId, s: InventoryState)
    requires Represents(t, k, s)
    ensures k in t.inventories
  {
  }

  /** Identifiers of holds after a commit: the old ones, and the one the transaction brought. */
  lemma CommittedIds(t: Tables, t': Tables, k: InventoryId, s: InventoryState, op: Op, id: Uuid)
    requires Represents(t, k, s) && Apply(s, op).Ok? && Represents(t', k, Apply(s, op).value.state) &&
             SameElsewhere(t, t', k)
    requires id in t'.holds
    ensures id in t.holds || (op.HoldOp? && id == op.holdId)
  {
    var key := t'.holds[id].key;
    assert HasRow(t', key, id);
    if key != k {
      assert HasRow(t, key, id);
    }
  }

  /** Other transactions work on other inventories, which a commit does not touch. */
  lemma OthersStayOk(tx: Tx, t: Tables, t': Tables, abs: map<InventoryId, InventoryState>, used: set<Uuid>,
      k: InventoryId, s: InventoryState)
    requires TxOk(tx, t, abs, used) && SameElsewhere(t, t', k) && (tx.pc != Begun ==> tx.key != k)
    requires tx.op.HoldOp? ==> tx.op.holdId !in t'.holds
    ensures TxOk(tx, t', abs[k := s], used)
  {
    assert forall id :: tx.key != k ==> (HasRow(t, tx.key, id) <==> HasRow(t', tx.key, id));
  }

  lemma CommitTables(sys: Sys, t: nat)
    requires SysOk(sys) && t in sys.txs && sys.txs[t].pc.Saving?
    requires sys.txs[t].pc.n ==
             |SaveStatements(sys.txs[t].key, sys.txs[t].pc.after, sys.txs[t].pc.existing, sys.txs[t].pc.holds)|
    ensures var tx := sys.txs[t]; var t' := View(sys, tx);
            Constraints(t') && SameElsewhere(sys.committed, t', tx.key) && Represents(t', tx.key, tx.pc.after) &&
                tx.pc.after.Valid()
  {
    var tx := sys.txs[t];
    ReadyToSave(sys, t);
    var ss := SaveStatements(tx.key, tx.pc.after, tx.pc.existing, tx.pc.holds);
    assert ss[..|ss|] == ss;
    assert tx.pc.after.Valid();
    hide SysOk, SaveInput, ExecAll, SaveStatements, Stepwise;
    SaveIsFaithful(sys.committed, tx.key, tx.pc.after, tx.pc.existing, tx.pc.holds);
  }

  /** Replacing the committed tables by t', which differ on tx's inventory only, when transaction t ends. */
  lemma InstallKeepsOk(sys: Sys, t: nat, t': Tables, after: InventoryState, reply: Reply)
    requires SysOk(sys) && t in sys.txs && sys.txs[t].pc != Begun
    requires Apply(Replay(sys.log)[sys.txs[t].key], sys.txs[t].op) == Ok(Applied(after, reply))
    requires Constraints(t') && SameElsewhere(sys.committed, t', sys.txs[t].key) &&
             Represents(t', sys.txs[t].key, after) && after.Valid()
    ensures SysOk(End(sys, t).(committed := t', log := sys.log + [Ran(sys.txs[t].key, sys.txs[t].op, reply)]))
  {
    hide Replay, Apply, Represents, RepresentsAll, Explained, Constraints, SameElsewhere, InventoryState.Valid, TxOk;
    var tx, abs := sys.txs[t], Replay(sys.log);
    var k, e := tx.key, Ran(tx.key, tx.op, reply);
    RanSucceeds(sys, t, after, reply);
    InstallKeepsIds(sys, t, t', after, reply);
    InstallKeepsOthers(sys, t, t', after);
    EndStep(sys, t);
    ReplayOneMore(sys.log, e);
    ReplaceOne(sys.committed, t', abs, k, after);
  }

  lemma RanSucceeds(sys: Sys, t: nat, after: InventoryState, reply: Reply)
    requires SysOk(sys) && t in sys.txs && sys.txs[t].pc != Begun
    requires Apply(Replay(sys.log)[sys.txs[t].key], sys.txs[t].op) == Ok(Applied(after, reply))
    ensures var e := Ran(sys.txs[t].key, sys.txs[t].op, reply);
            Succeeds(Replay(sys.log), e) && AfterEntry(Replay(sys.log), e) == Replay(sys.log)[sys.txs[t].key := after]
  {
    hide SysOk, Replay, Apply, Represents, Constraints;
    TxFacts(sys, t);
  }

  lemma InstallKeepsIds(sys: Sys, t: nat, t': Tables, after: InventoryState, reply: Reply)
    requires SysOk(sys) && t in sys.txs && sys.txs[t].pc != Begun
    requires Apply(Replay(sys.log)[sys.txs[t].key], sys.txs[t].op) == Ok(Applied(after, reply))
    requires SameElsewhere(sys.committed, t', sys.txs[t].key) && Represents(t', sys.txs[t].key, after)
    ensures forall id :: id in t'.holds ==>
              id in sys.used && (id in sys.committed.holds || (sys.txs[t].op.HoldOp? && id == sys.txs[t].op.holdId))
  {
    hide Apply, Represents, SameElsewhere, Replay, Explained, Constraints, RepresentsAll, InventoryState.Valid;
    TxFacts(sys, t);
    var tx, abs := sys.txs[t], Replay(sys.log);
    forall id | id in t'.holds
      ensures id in sys.used && (id in sys.committed.holds || (tx.op.HoldOp? && id == tx.op.holdId))
    {
      CommittedIds(sys.committed, t', tx.key, abs[tx.key], tx.op, id);
    }
  }

  lemma InstallKeepsOthers(sys: Sys, t: nat, t': Tables, after: InventoryState)
    requires SysOk(sys) && t in sys.txs && sys.txs[t].pc != Begun && SameElsewhere(sys.committed, t', sys.txs[t].key)
    requires forall id :: id in t'.holds ==>
             id in sys.committed.holds || (sys.txs[t].op.HoldOp? && id == sys.txs[t].op.holdId)
    ensures forall u :: u in sys.txs && u != t ==>
              TxOk(sys.txs[u], t', Replay(sys.log)[sys.txs[t].key := after], sys.used)
  {
    var k, abs := sys.txs[t].key, Replay(sys.log);
    forall u | u in sys.txs && u != t ensures TxOk(sys.txs[u], t', abs[k := after], sys.used) {
      var tx := sys.txs[u];
      assert TxOk(tx, sys.committed, abs, sys.used);
      assert tx.op.HoldOp? ==> tx.op.holdId !in t'.holds;
      hide TxOk;
      OthersStayOk(tx, sys.committed, t', abs, sys.used, k, after);
    }
  }

  lemma CommitStep(sys: Sys, t: nat, sys': Sys)
    requires SysOk(sys) && Step(sys, Commit(t), sys')
    ensures SysOk(sys')
  {
    hide Apply, Replay, Explained, Constraints, Lists, ListsRows, SaveStatements, InventoryState.Valid;
    var tx, abs := sys.txs[t], Replay(sys.log);
    TxFacts(sys, t);
    if tx.pc.Saving? {
      CommitTables(sys, t);
      InstallKeepsOk(sys, t, View(sys, tx), tx.pc.after, tx.pc.reply);
    } else {
      assert View(sys, tx) == sys.committed;
      assert Represents(sys.committed, tx.key, abs[tx.key]) && abs[tx.key].Valid();
      InstallKeepsOk(sys, t, sys.committed, abs[tx.key], tx.pc.reply);
    }
  }

  lemma InsertStep(sys: Sys, key: InventoryId, quantity: int, fee: int)
    requires SysOk(sys) && key !in sys.committed.inventories && I.Register(quantity, fee).Ok?
    ensures SysOk(sys.(committed := Inserted(sys.committed, key, quantity, fee),
                       log := sys.log + [Registered(key, quantity, fee)]))
  {
    hide Represents, Constraints, Replay, Explained, TxOk, SameElsewhere, InventoryState.Valid;
    var abs, s := Replay(sys.log), I.Register(quantity, fee).value;
    var t := sys.committed;
    var t' := Inserted(t, key, quantity, fee);
    InsertTables(t, key, quantity, fee);
    ReplayOneMore(sys.log, Registered(key, quantity, fee));
    ReplaceOne(t, t', abs, key, s);
    forall u | u in sys.txs ensures TxOk(sys.txs[u], t', abs[key := s], sys.used) {
      TxFacts(sys, u);
      NotBegunIsKnown(sys.txs[u], t, abs, sys.used);
      OthersStayOk(sys.txs[u], t, t', abs, sys.used, key, s);
    }
  }

  lemma NotBegunIsKnown(tx: Tx, t: Tables, abs: map<InventoryId, InventoryState>, used: set<Uuid>)
    requires TxOk(tx, t, abs, used)
    ensures tx.pc != Begun ==> tx.key in abs
    ensures tx.op.HoldOp? ==> tx.op.holdId !in t.holds
  {
  }

  lemma InsertTables(t: Tables, key: InventoryId, quantity: int, fee: int)
    requires Constraints(t) && key !in t.inventories && I.Register(quantity, fee).Ok?
    ensures var t', s := Inserted(t, key, quantity, fee), I.Register(quantity, fee).value;
            Constraints(t') && SameElsewhere(t, t', key) && Represents(t', key, s) && s.Valid()
  {
    var t' := Inserted(t, key, quantity, fee);
    assert forall k, id :: HasRow(t', k, id) <==> HasRow(t, k, id);
  }

  lemma StatementStep(sys: Sys, t: nat)
    requires SysOk(sys) && t in sys.txs && sys.txs[t].pc.Saving?
    requires var tx := sys.txs[t]; tx.pc.n < |SaveStatements(tx.key, tx.pc.after, tx.pc.existing, tx.pc.holds)|
    ensures var tx := sys.txs[t]; SysOk(sys.(txs := sys.txs[t := tx.(pc := tx.pc.(n := tx.pc.n + 1))]))
  {
    hide SysOk, Replay, Apply, Represents, Constraints, ListsRows, Lists, SaveStatements;
    TxFacts(sys, t);
    var tx := sys.txs[t];
    PrivateStep(sys, t, tx.pc.(n := tx.pc.n + 1));
  }

  lemma StepKeepsOk(sys: Sys, a: Action, sys': Sys)
    requires SysOk(sys) && Step(sys, a, sys')
    ensures SysOk(sys')
  {
    hide SysOk, Apply, Represents, View;
    match a
    case Begin(t, key, op) => BeginStep(sys, t, key, op);
    case Lock(t) => LockStep(sys, t);
    case ReadHolds(t, s) => ReadStep(sys, t, s);
    case ApplyAndWriteRow(t) => ApplyStep(sys, t);
    case ListRows(t, existing, holds) => ListStep(sys, t, existing, holds);
    case NextStatement(t) => StatementStep(sys, t);
    case Commit(t) => CommitStep(sys, t, sys');
    case Rollback(t) => EndStep(sys, t);
    case Insert(key, quantity, fee) => InsertStep(sys, key, quantity, fee);
  }

  lemma {:induction false} EveryReachableSysIsOk(syss: seq<Sys>, actions: seq<Action>, i: nat)
    requires IsRun(syss, actions) && i < |syss|
    ensures SysOk(syss[i])
  {
    if i > 0 {
      EveryReachableSysIsOk(syss, actions, i - 1);
      StepKeepsOk(syss[i - 1], actions[i - 1], syss[i]);
    }
  }

  // ---- the results ----

  /**
   * Every interleaving of statements by any number of transactions, some of which roll back at arbitrary points,
   * leaves exactly the tables that running the committed ones whole, in commit order, would leave: the log explains
   * every reply, the tables represent its replay, and any tables that do are these. No update is lost, and a rolled
   * back transaction, which is not in the log, leaves no trace.
   */
  lemma InterleavingIsSerial(syss: seq<Sys>, actions: seq<Action>, i: nat, serial: Tables)
    requires IsRun(syss, actions) && i < |syss|
    ensures Explained(syss[i].log) && RepresentsAll(syss[i].committed, Replay(syss[i].log))
    ensures RepresentsAll(serial, Replay(syss[i].log)) ==> serial == syss[i].committed
  {
    EveryReachableSysIsOk(syss, actions, i);
    if RepresentsAll(serial, Replay(syss[i].log)) {
      TablesAreDetermined(serial, syss[i].committed, Replay(syss[i].log));
    }
  }

  /**
   * Refused transactions are explained as well, although they commit nothing: what a transaction is refused with once
   * it has loaded, or with an unknown inventory before that, is what the serial run would answer at this point.
   */
  lemma RefusalIsSerial(syss: seq<Sys>, actions: seq<Action>, i: nat, t: nat)
    requires IsRun(syss, actions) && i < |syss| && t in syss[i].txs
    ensures var tx, abs := syss[i].txs[t], Replay(syss[i].log);
            && (tx.key in syss[i].committed.inventories <==> tx.key in abs)
            && (tx.pc.Loaded? ==> tx.key in abs && Apply(tx.pc.before, tx.op) == Apply(abs[tx.key], tx.op))
  {
    hide Apply, SysOk, Replay;
    EveryReachableSysIsOk(syss, actions, i);
    TxFacts(syss[i], t);
  }

  /** The next statement of a saving transaction is never refused: the constraints, uq_slot included, hold after it. */
  lemma NoStatementIsRefused(syss: seq<Sys>, actions: seq<Action>, i: nat, t: nat)
    requires IsRun(syss, actions) && i < |syss| && t in syss[i].txs && syss[i].txs[t].pc.Saving?
    ensures var tx := syss[i].txs[t];
            var ss := SaveStatements(tx.key, tx.pc.after, tx.pc.existing, tx.pc.holds);
            forall n :: 0 <= n <= |ss| ==>
              Constraints(ExecAll(syss[i].committed, ss[..n])) &&
                  SameElsewhere(syss[i].committed, ExecAll(syss[i].committed, ss[..n]), tx.key)
  {
    EveryReachableSysIsOk(syss, actions, i);
    ReadyToSave(syss[i], t);
    var tx := syss[i].txs[t];
    SaveIsFaithful(syss[i].committed, tx.key, tx.pc.after, tx.pc.existing, tx.pc.holds);
    var ss := SaveStatements(tx.key, tx.pc.after, tx.pc.existing, tx.pc.holds);
    forall n | 0 <= n <= |ss|
      ensures Constraints(ExecAll(syss[i].committed, ss[..n])) &&
              SameElsewhere(syss[i].committed, ExecAll(syss[i].committed, ss[..n]), tx.key)
    {
      assert PointOk(syss[i].committed, ExecAll(syss[i].committed, ss[..n]), tx.key);
    }
  }

  /**
   * At most one transaction at a time is between its lock and its end on an inventory, and it works on the latest
   * state.
   */
  lemma OneWriterPerInventory(syss: seq<Sys>, actions: seq<Action>, i: nat, t: nat, u: nat)
    requires IsRun(syss, actions) && i < |syss|
    requires t in syss[i].txs && u in syss[i].txs && syss[i].txs[t].key == syss[i].txs[u].key
    requires syss[i].txs[t].pc != Begun && syss[i].txs[u].pc != Begun
    ensures t == u
    ensures syss[i].txs[t].pc.Loaded? ==> Represents(syss[i].committed, syss[i].txs[t].key, syss[i].txs[t].pc.before)
  {
    EveryReachableSysIsOk(syss, actions, i);
    assert TxOk(syss[i].txs[t], syss[i].committed, Replay(syss[i].log), syss[i].used);
  }
}
