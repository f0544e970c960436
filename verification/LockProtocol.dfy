/**
 * The inventory transactions of `mutate` and CollectExpired, interleaved statement by statement under the row lock of
 * `SELECT ... FOR UPDATE`. A transaction's writes are private until it commits; it may roll back at any moment.
 */
module LockProtocol {
  import opened Common
  import opened I = InventorySpec
  import opened HoldTables

  /** What a transaction has done so far. */
  datatype Pc =
    | Begun
    | GotRow(row: InventoryRow)                          // locked; the row as read
    | Loaded(before: InventoryState)                     // holds read, aggregate built
    | NothingToSave(reply: Reply)                        // CollectExpired that found nothing
    | RowWritten(after: InventoryState, reply: Reply)    // applied in memory, row upserted
    | Saving(after: InventoryState, reply: Reply, existing: seq<Uuid>, holds: seq<Hold>, n: nat)

  datatype Tx = Tx(key: InventoryId, op: Op, pc: Pc)

  /** One committed transaction, in commit order. */
  datatype Entry =
    | Ran(key: InventoryId, op: Op, reply: Reply)
    | Registered(key: InventoryId, quantity: int, fee: int)

  /** `used` are the hold identifiers handed out so far: `uuid.New()` never repeats. */
  datatype Sys = Sys(committed: Tables, txs: map<nat, Tx>, locks: map<InventoryId, nat>, used: set<Uuid>,
      log: seq<Entry>)

  function HoldIds(op: Op): set<Uuid> {
    if op.HoldOp? then {op.holdId} else {}
  }

  /** The statements a transaction has executed. */
  function Writes(tx: Tx): seq<Stmt> {
    match tx.pc
    case RowWritten(after, _) => [UpsertInventory(tx.key, RowOf(after))]
    case Saving(after, _, existing, holds, n) =>
      var ss := SaveStatements(tx.key, after, existing, holds);
      if n <= |ss| then ss[..n] else ss
    case _ => []
  }

  /** What the transaction sees: the committed tables under its own writes. */
  function View(sys: Sys, tx: Tx): Tables {
    ExecAll(sys.committed, Writes(tx))
  }

  datatype Action =
    | Begin(t: nat, key: InventoryId, op: Op)
    | Lock(t: nat)
    | ReadHolds(t: nat, s: InventoryState)
    | ApplyAndWriteRow(t: nat)
    | ListRows(t: nat, existing: seq<Uuid>, holds: seq<Hold>)
    | NextStatement(t: nat)
    | Commit(t: nat)
    | Rollback(t: nat)
    | Insert(key: InventoryId, quantity: int, fee: int)

  /** Ends transaction t: it is forgotten and its lock, if it has one, released. */
  function End(sys: Sys, t: nat): Sys
    requires t in sys.txs
  {
    sys.(txs := sys.txs - {t},
         locks := if sys.txs[t].pc == Begun then sys.locks else sys.locks - {sys.txs[t].key})
  }

  /** The tables with the row of a newly registered inventory. */
  function Inserted(t: Tables, k: InventoryId, quantity: int, fee: int): Tables {
    t.(inventories := t.inventories[k := InventoryRow(fee, quantity, false)])
  }

  ghost predicate Step(sys: Sys, a: Action, sys': Sys) {
    match a
    case Begin(t, key, op) =>
      && t !in sys.txs && HoldIds(op) !! sys.used
      && sys' == sys.(txs := sys.txs[t := Tx(key, op, Begun)], used := sys.used + HoldIds(op))
    case Lock(t) =>
      && t in sys.txs && sys.txs[t].pc == Begun
      && var k := sys.txs[t].key;
         && k in sys.committed.inventories && k !in sys.locks
         && sys' == sys.(txs := sys.txs[t := sys.txs[t].(pc := GotRow(sys.committed.inventories[k]))],
                         locks := sys.locks[k := t])
    case ReadHolds(t, s) =>
      && t in sys.txs && sys.txs[t].pc.GotRow?
      && var tx := sys.txs[t];
         && Represents(sys.committed.(inventories := sys.committed.inventories[tx.key := tx.pc.row]), tx.key, s)
         && sys' == sys.(txs := sys.txs[t := tx.(pc := Loaded(s))])
    case ApplyAndWriteRow(t) =>
      && t in sys.txs && sys.txs[t].pc.Loaded?
      && var tx := sys.txs[t];
         && Apply(tx.pc.before, tx.op).Ok?
         && var a := Apply(tx.pc.before, tx.op).value;
            sys' == sys.(txs := sys.txs[t := tx.(pc := if tx.op.CollectOp? && a.reply == Collected(0)
                                                       then NothingToSave(a.reply) else RowWritten(a.state, a.reply))])
    case ListRows(t, existing, holds) =>
      && t in sys.txs && sys.txs[t].pc.RowWritten?
      && var tx := sys.txs[t];
         && ListsRows(existing, View(sys, tx), tx.key) && Lists(holds, tx.pc.after)
         && sys' == sys.(txs := sys.txs[t := tx.(pc := Saving(tx.pc.after, tx.pc.reply, existing, holds, 1))])
    case NextStatement(t) =>
      && t in sys.txs && sys.txs[t].pc.Saving?
      && var tx := sys.txs[t];
         && tx.pc.n < |SaveStatements(tx.key, tx.pc.after, tx.pc.existing, tx.pc.holds)|
         && sys' == sys.(txs := sys.txs[t := tx.(pc := tx.pc.(n := tx.pc.n + 1))])
    case Commit(t) =>
      && t in sys.txs
      && var tx := sys.txs[t];
         && (tx.pc.NothingToSave? ||
             (tx.pc.Saving? && tx.pc.n == |SaveStatements(tx.key, tx.pc.after, tx.pc.existing, tx.pc.holds)|))
         && sys' == End(sys, t).(committed := View(sys, tx), log := sys.log + [Ran(tx.key, tx.op, tx.pc.reply)])
    case Rollback(t) =>
      t in sys.txs && sys' == End(sys, t)
    case Insert(key, quantity, fee) =>
      && key !in sys.committed.inventories && I.Register(quantity, fee).Ok?
      && sys' == sys.(committed := Inserted(sys.committed, key, quantity, fee),
                      log := sys.log + [Registered(key, quantity, fee)])
  }

  ghost predicate IsRun(syss: seq<Sys>, actions: seq<Action>) {
    && |syss| == |actions| + 1 && syss[0] == Sys(Tables(map[], map[]), map[], map[], {}, [])
    && forall i :: 0 <= i < |actions| ==> Step(syss[i], actions[i], syss[i + 1])
  }

  // ---- running the committed transactions whole, one after the other ----

  /** The aggregates after one whole transaction. */
  function AfterEntry(abs: map<InventoryId, InventoryState>, e: Entry): map<InventoryId, InventoryState> {
    match e
    case Registered(k, quantity, fee) =>
      if I.Register(quantity, fee).Ok? then abs[k := I.Register(quantity, fee).value] else abs
    case Ran(k, op, _) =>
      if k in abs && Apply(abs[k], op).Ok? then abs[k := Apply(abs[k], op).value.state] else abs
  }

  /** The transaction succeeds on these aggregates, with the reply its caller got. */
  predicate Succeeds(abs: map<InventoryId, InventoryState>, e: Entry) {
    match e
    case Registered(k, quantity, fee) => k !in abs && I.Register(quantity, fee).Ok?
    case Ran(k, op, reply) => k in abs && Apply(abs[k], op).Ok? && Apply(abs[k], op).value.reply == reply
  }

  /** The aggregates after the logged transactions, each applied as a whole. */
  function Replay(log: seq<Entry>): map<InventoryId, InventoryState> {
    if log == [] then map[] else AfterEntry(Replay(log[..|log| - 1]), log[|log| - 1])
  }

  /** Each logged transaction succeeds in the serial run too. */
  ghost predicate Explained(log: seq<Entry>) {
    forall i :: 0 <= i < |log| ==> Succeeds(Replay(log[..i]), log[i])
  }

  ghost predicate RepresentsAll(t: Tables, abs: map<InventoryId, InventoryState>) {
    && t.inventories.Keys == abs.Keys && Constraints(t)
    && forall k :: k in abs ==> abs[k].Valid() && Represents(t, k, abs[k])
  }

  /** The aggregates determine the tables, down to the last row. */
  lemma TablesAreDetermined(t: Tables, t': Tables, abs: map<InventoryId, InventoryState>)
    requires RepresentsAll(t, abs) && RepresentsAll(t', abs)
    ensures t == t'
  {
    hide RepresentsAll;
    SameKeys(t, t', abs);
    forall id | id in t.holds ensures id in t'.holds && t'.holds[id] == t.holds[id] {
      SameRow(t, t', abs, id);
    }
    forall id | id in t'.holds ensures id in t.holds {
      SameRow(t', t, abs, id);
    }
    assert t.holds == t'.holds;
  }

  lemma SameKeys(t: Tables, t': Tables, abs: map<InventoryId, InventoryState>)
    requires RepresentsAll(t, abs) && RepresentsAll(t', abs)
    ensures t.inventories == t'.inventories
  {
    hide Constraints, InventoryState.Valid;
    forall k | k in abs ensures t.inventories[k] == t'.inventories[k] {
      assert Represents(t, k, abs[k]) && Represents(t', k, abs[k]);
    }
    assert t.inventories.Keys == t'.inventories.Keys;
  }

  lemma SameRow(t: Tables, t': Tables, abs: map<InventoryId, InventoryState>, id: Uuid)
    requires RepresentsAll(t, abs) && RepresentsAll(t', abs) && id in t.holds
    ensures id in t'.holds && t'.holds[id] == t.holds[id]
  {
    var r := t.holds[id];
    assert HasRow(t, r.key, id) && Represents(t, r.key, abs[r.key]) && Represents(t', r.key, abs[r.key]);
    assert abs[r.key].holds[r.bookingId] == ToHold(id, r);
    assert HasRow(t', r.key, id);
  }
}
