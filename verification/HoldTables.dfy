/**
 * The tables `inventories` and `holds`, the statements of `hold.sql` and `inventory.sql`, and what they mean as
 * inventories. Repository.dfy issues these statements; LockProtocol.dfy interleaves them.
 */
module HoldTables {
  import opened Common
  import opened I = InventorySpec

  datatype InventoryRow = InventoryRow(fee: int, quantity: int, isClosed: bool)

  datatype HoldRow = HoldRow(key: InventoryId, bookingId: Uuid, slotNo: int, status: HoldStatus,
      expiredAt: Option<Instant>)

  datatype Tables = Tables(inventories: map<InventoryId, InventoryRow>, holds: map<Uuid, HoldRow>)

  /** The table constraints that a statement could violate: uq_slot, slot_no >= 1, the foreign key, the CHECKs. */
  ghost predicate Constraints(t: Tables) {
    && (forall a, b :: a in t.holds && b in t.holds && a != b && t.holds[a].key == t.holds[b].key ==>
          t.holds[a].slotNo != t.holds[b].slotNo)
    && (forall a :: a in t.holds ==> t.holds[a].slotNo >= 1 && t.holds[a].key in t.inventories)
    && (forall k :: k in t.inventories ==> t.inventories[k].fee >= 0 && t.inventories[k].quantity >= 0)
  }

  datatype Stmt =
    | UpsertInventory(key: InventoryId, row: InventoryRow)
    | DeleteHold(id: Uuid)
    | UpsertHold(id: Uuid, hold: HoldRow)

  /** On a conflict UpsertHold rewrites status and expiry only: key, booking and slot keep their stored values. */
  function Exec(t: Tables, s: Stmt): Tables {
    match s
    case UpsertInventory(k, row) => t.(inventories := t.inventories[k := row])
    case DeleteHold(id) => t.(holds := t.holds - {id})
    case UpsertHold(id, row) =>
      if id in t.holds then t.(holds := t.holds[id := t.holds[id].(status := row.status, expiredAt := row.expiredAt)])
      else t.(holds := t.holds[id := row])
  }

  function ExecAll(t: Tables, ss: seq<Stmt>): Tables {
    if ss == [] then t else Exec(ExecAll(t, ss[..|ss| - 1]), ss[|ss| - 1])
  }

  function RowOf(s: InventoryState): InventoryRow {
    InventoryRow(s.fee, s.quantity, s.isClosed)
  }

  function HoldRowOf(k: InventoryId, h: Hold): HoldRow {
    HoldRow(k, h.bookingId, h.slotNo, h.status, h.expiredAt)
  }

  function ToHold(id: Uuid, r: HoldRow): Hold {
    Hold(id, r.bookingId, r.slotNo, r.status, r.expiredAt)
  }

  predicate HasRow(t: Tables, k: InventoryId, id: Uuid) {
    id in t.holds && t.holds[id].key == k
  }

  /** Loading inventory k yields exactly s: its row, and its holds in whatever order they are listed. */
  ghost predicate Represents(t: Tables, k: InventoryId, s: InventoryState) {
    && k in t.inventories && t.inventories[k] == RowOf(s)
    && (forall id :: HasRow(t, k, id) ==>
          t.holds[id].bookingId in s.holds && s.holds[t.holds[id].bookingId] == ToHold(id, t.holds[id]))
    && (forall b :: b in s.holds ==>
          s.holds[b].bookingId == b && HasRow(t, k, s.holds[b].id) && t.holds[s.holds[b].id].bookingId == b)
  }

  /** A load is unambiguous. */
  lemma RepresentsOnlyOne(t: Tables, k: InventoryId, s: InventoryState, s': InventoryState)
    requires Represents(t, k, s) && Represents(t, k, s')
    ensures s == s'
  {
    assert s.holds == s'.holds;
  }

  /** Every other inventory has the same row and the same holds. */
  ghost predicate SameElsewhere(t: Tables, t': Tables, k: InventoryId) {
    && (forall k' :: k' != k ==> (k' in t.inventories <==> k' in t'.inventories))
    && (forall k' :: k' != k && k' in t.inventories ==> t.inventories[k'] == t'.inventories[k'])
    && (forall k', id :: k' != k ==> (HasRow(t, k', id) <==> HasRow(t', k', id)))
    && (forall k', id :: k' != k && HasRow(t, k', id) ==> t.holds[id] == t'.holds[id])
  }

  lemma OthersUndisturbed(t: Tables, t': Tables, k: InventoryId, k': InventoryId, s: InventoryState)
    requires SameElsewhere(t, t', k) && k' != k
    ensures Represents(t, k', s) <==> Represents(t', k', s)
  {
  }

  // ---- the diff that Save writes ----

  /**
   * The save of s over what is stored may rely on this: a stored hold keeps its booking and slot, a new id is new
   * everywhere.
   */
  ghost predicate Savable(t: Tables, k: InventoryId, s: InventoryState) {
    forall b :: b in s.holds && s.holds[b].id in t.holds ==>
      var r := t.holds[s.holds[b].id];
      r.key == k && r.bookingId == b && r.slotNo == s.holds[b].slotNo
  }

  /** holds lists the holds of s, each once, in some order. */
  ghost predicate Lists(holds: seq<Hold>, s: InventoryState) {
    && (forall i :: 0 <= i < |holds| ==> holds[i].bookingId in s.holds && s.holds[holds[i].bookingId] == holds[i])
    && (forall b :: b in s.holds ==> s.holds[b] in holds)
    && (forall i, j :: 0 <= i < j < |holds| ==> holds[i].id != holds[j].id)
  }

  /** ids lists the rows stored for k, each once, in some order. */
  ghost predicate ListsRows(ids: seq<Uuid>, t: Tables, k: InventoryId) {
    && (forall id :: id in ids <==> HasRow(t, k, id))
    && (forall i, j :: 0 <= i < j < |ids| ==> ids[i] != ids[j])
  }

  predicate Kept(id: Uuid, holds: seq<Hold>) {
    exists i :: 0 <= i < |holds| && holds[i].id == id
  }

  /** The delete statements: stored holds the aggregate no longer has. */
  function Deletes(existing: seq<Uuid>, holds: seq<Hold>): seq<Stmt> {
    if existing == [] then []
    else
      var last := existing[|existing| - 1];
      Deletes(existing[..|existing| - 1], holds) + (if Kept(last, holds) then [] else [DeleteHold(last)])
  }

  function Upserts(k: InventoryId, holds: seq<Hold>): seq<Stmt> {
    seq(|holds|, i requires 0 <= i < |holds| => UpsertHold(holds[i].id, HoldRowOf(k, holds[i])))
  }

  /** All statements of Save, in order. */
  function SaveStatements(k: InventoryId, s: InventoryState, existing: seq<Uuid>, holds: seq<Hold>): seq<Stmt> {
    [UpsertInventory(k, RowOf(s))] + Deletes(existing, holds) + Upserts(k, holds)
  }
}
