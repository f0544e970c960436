/**
 * `server/internal/inventory/infra/postgres/repository.go` and the transactions of
 * `server/internal/inventory/app/service.go`:
 * load an aggregate from the tables, apply one operation to it, write the difference back.
 */
module InventoryRepository {
  import opened Common
  import opened I = InventorySpec
  import A = InventoryAggregate
  import opened HoldTables
  import opened SaveProof

  datatype RepositoryError = ErrInventoryNotFound | ErrAlreadyRegistered | Refused(error: InventoryError)

  class Repository {
    var tables: Tables

    /** One statement; the database accepts it only if the constraints hold afterwards. */
    method Execute(st: Stmt)
      requires Constraints(Exec(tables, st))
      modifies this`tables
      ensures tables == Exec(old(tables), st)
    {
      tables := Exec(tables, st);
    }

    /** ListHoldsByRoomTypeIdAndDate has no ORDER BY: the rows come in any order. */
    method ListHolds(k: InventoryId) returns (ids: seq<Uuid>)
      ensures ListsRows(ids, tables, k)
    {
      ids := [];
      var todo := tables.holds.Keys;
      while todo != {}
        invariant todo <= tables.holds.Keys
        invariant forall id :: id in ids <==> id !in todo && HasRow(tables, k, id)
        invariant forall i, j :: 0 <= i < j < |ids| ==> ids[i] != ids[j]
        decreases |todo|
      {
        var id :| id in todo;
        todo := todo - {id};
        if tables.holds[id].key == k {
          ids := ids + [id];
        }
      }
    }

    /** FindForUpdate and load: the aggregate that the tables represent. */
    method FindForUpdate(k: InventoryId, ghost s: InventoryState) returns (inv: A.Inventory?)
      requires k in tables.inventories ==> Represents(tables, k, s) && s.Valid()
      ensures inv == null <==> k !in tables.inventories
      ensures inv != null ==> fresh(inv) && inv.id == k && inv.Valid() && inv.State() == s
    {
      if k !in tables.inventories {
        return null;
      }
      var row := tables.inventories[k];
      var ids := ListHolds(k);
      var holds: seq<Hold> := [];
      var i := 0;
      while i < |ids|
        invariant 0 <= i == |holds| <= |ids|
        invariant forall j :: 0 <= j < i ==> ids[j] in tables.holds && holds[j] == ToHold(ids[j], tables.holds[ids[j]])
      {
        assert ids[i] in ids && HasRow(tables, k, ids[i]);
        holds := holds + [ToHold(ids[i], tables.holds[ids[i]])];
        i := i + 1;
      }
      LoadedHolds(tables, k, s, ids, holds);
      inv := new A.Inventory.Reconstruct(k, row.quantity, row.fee, row.isClosed, holds);
    }

    /**
     * Save: upsert the row, delete the holds that are gone, upsert the others. Every statement is accepted, reloading
     * gives the aggregate, and no other inventory is touched.
     */
    method Save(inv: A.Inventory)
      requires inv.Valid() && inv.State().DistinctIds()
      requires Constraints(tables) && inv.id in tables.inventories && Savable(tables, inv.id, inv.State())
      modifies this`tables
      ensures Represents(tables, inv.id, inv.State())
      ensures inv.id in tables.inventories
      ensures tables.inventories[inv.id] == InventoryRow(inv.fee, inv.quantityAvailable, inv.isClosed)
      ensures forall i :: 0 <= i < |inv.holds| ==>
                var h := inv.holds[i];
                && h.id in tables.holds
                && tables.holds[h.id] == HoldRow(inv.id, h.bookingId, h.slotNo, h.status, h.expiredAt)
      ensures forall id :: id in tables.holds && tables.holds[id].key == inv.id ==>
                exists i :: 0 <= i < |inv.holds| && inv.holds[i].id == id
      ensures Constraints(tables) && SameElsewhere(old(tables), tables, inv.id)
    {
      hide ExecAll, Exec, Represents, Constraints, SameElsewhere, Savable, Stepwise, Deletes, Upserts;
      var k, holds := inv.id, inv.holds;
      ghost var s, t := inv.State(), tables;
      ListedHolds(holds, s);
      FirstStatement(t, k, s, holds);
      Execute(UpsertInventory(k, InventoryRow(inv.fee, inv.quantityAvailable, inv.isClosed)));
      var existing := ListHolds(k);
      RowsAfterUpsert(t, k, RowOf(s), existing);
      SaveIsFaithful(t, k, s, existing, holds);
      SaveBegins(t, k, s, existing, holds);
      var kept := KeptIds(holds);
      DeleteGone(k, existing, holds, kept, s, t);
      UpsertHolds(k, existing, holds, s, t);
      RowsOfTheList(tables, k, s, holds);
    }

    /** The set of hold ids to keep. */
    method KeptIds(holds: seq<Hold>) returns (kept: set<Uuid>)
      ensures forall id :: id in kept <==> Kept(id, holds)
    {
      kept := {};
      var i := 0;
      while i < |holds|
        invariant 0 <= i <= |holds|
        invariant forall id :: id in kept <==> Kept(id, holds[..i])
      {
        kept := kept + {holds[i].id};
        KeptGrows(holds, i);
        i := i + 1;
      }
      assert holds[..i] == holds;
    }

    /** Save's first loop. */
    method DeleteGone(k: InventoryId, existing: seq<Uuid>, holds: seq<Hold>, kept: set<Uuid>, ghost s: InventoryState,
        ghost t: Tables)
      requires forall id :: id in kept <==> Kept(id, holds)
      requires Stepwise(t, k, SaveStatements(k, s, existing, holds))
      requires tables == ExecAll(t, SaveStatements(k, s, existing, holds)[..1])
      modifies this`tables
      ensures tables == ExecAll(t, SaveStatements(k, s, existing, holds)[..1 + |Deletes(existing, holds)|])
    {
      hide ExecAll, Exec, Constraints, Stepwise, Deletes, SaveStatements, Kept;
      ghost var ss := SaveStatements(k, s, existing, holds);
      ghost var n := 1;
      var i := 0;
      assert existing[..0] == [];
      DeletesStart(k, s, existing, holds);
      while i < |existing|
        invariant 0 <= i <= |existing|
        invariant n == 1 + |Deletes(existing[..i], holds)| <= |ss|
        invariant tables == ExecAll(t, ss[..n])
      {
        OneDelete(t, k, s, existing, holds, i);
        if existing[i] !in kept {
          Execute(DeleteHold(existing[i]));
          n := n + 1;
        }
        i := i + 1;
      }
      assert existing[..i] == existing;
    }

    /** Save's second loop. */
    method UpsertHolds(k: InventoryId, ghost existing: seq<Uuid>, holds: seq<Hold>, ghost s: InventoryState,
        ghost t: Tables)
      requires Stepwise(t, k, SaveStatements(k, s, existing, holds))
      requires tables == ExecAll(t, SaveStatements(k, s, existing, holds)[..1 + |Deletes(existing, holds)|])
      modifies this`tables
      ensures tables == ExecAll(t, SaveStatements(k, s, existing, holds))
    {
      hide ExecAll, Exec, Constraints, Stepwise, Deletes;
      ghost var ss := SaveStatements(k, s, existing, holds);
      var i := 0;
      while i < |holds|
        invariant 0 <= i <= |holds|
        invariant tables == ExecAll(t, ss[..1 + |Deletes(existing, holds)| + i])
      {
        NextStatement(t, k, ss, 1 + |Deletes(existing, holds)| + i);
        Execute(UpsertHold(holds[i].id, HoldRowOf(k, holds[i])));
        i := i + 1;
      }
      assert ss[..1 + |Deletes(existing, holds)| + i] == ss;
    }

    /** Add: a second registration of the same day is refused and changes nothing. */
    method Add(k: InventoryId, quantity: nat, fee: nat) returns (err: Option<RepositoryError>)
      requires Constraints(tables)
      modifies this`tables
      ensures Constraints(tables)
      ensures err == None <==> k !in old(tables).inventories
      ensures err == None ==>
              Represents(tables, k, I.Register(quantity, fee).value) && SameElsewhere(old(tables), tables, k)
      ensures err == None ==>
                && tables.inventories[k] == InventoryRow(fee, quantity, false)
                && forall id :: id in tables.holds ==> tables.holds[id].key != k
      ensures err != None ==> err == Some(ErrAlreadyRegistered) && tables == old(tables)
    {
      if k in tables.inventories {
        return Some(ErrAlreadyRegistered);
      }
      tables := tables.(inventories := tables.inventories[k := InventoryRow(fee, quantity, false)]);
      return None;
    }

    /**
     * mutate, and the body of CollectExpired's loop, which saves nothing when nothing has expired: within one
     * transaction lock, load, apply, save. It has the effect of the operation on the aggregate the tables represent,
     * and a refused operation changes nothing.
     */
    method Mutate(k: InventoryId, op: Op, ghost s: InventoryState) returns (r: Result<Reply, RepositoryError>)
      requires Constraints(tables) && (k in tables.inventories ==> Represents(tables, k, s) && s.Valid())
      requires op.HoldOp? ==> op.holdId !in tables.holds
      modifies this`tables
      ensures k !in old(tables).inventories ==> r == Err(ErrInventoryNotFound) && tables == old(tables)
      ensures k in old(tables).inventories ==>
                match Apply(s, op)
                case Ok(a) => r == Ok(a.reply) && Represents(tables, k, a.state)
                              && Constraints(tables) && SameElsewhere(old(tables), tables, k)
                case Err(e) => r == Err(Refused(e)) && tables == old(tables)
      ensures op.CollectOp? && r == Ok(Collected(0)) ==> tables == old(tables)
    {
      var inv := FindForUpdate(k, s);
      if inv == null {
        return Err(ErrInventoryNotFound);
      }
      var applied := ApplyTo(inv, op);
      if applied.Err? {
        return Err(Refused(applied.error));
      }
      if op.CollectOp? && applied.value == Collected(0) {
        CollectIsAFilter(s, op.now);
        return Ok(applied.value);
      }
      OperationsAreSavable(tables, k, s, op);
      Save(inv);
      return Ok(applied.value);
    }

    /** The closures handed to mutate. */
    static method ApplyTo(inv: A.Inventory, op: Op) returns (r: Result<Reply, InventoryError>)
      requires inv.Valid()
      modifies inv
      ensures inv.Valid()
      ensures match Apply(old(inv.State()), op)
              case Ok(a) => inv.State() == a.state && r == Ok(a.reply)
              case Err(e) => r == Err(e)
    {
      var err: Option<InventoryError> := None;
      var reply := Done;
      match op {
        case HoldOp(holdId, bookingId, expiredAt, now) =>
          var slot := inv.Hold(holdId, bookingId, expiredAt, now);
          if slot.Err? {
            return Err(slot.error);
          }
          reply := Held(slot.value, inv.fee);
        case StartPaymentOp(bookingId) => err := inv.StartPayment(bookingId);
        case ConfirmOp(bookingId) => err := inv.Confirm(bookingId);
        case ReleaseOp(bookingId) => err := inv.Release(bookingId);
        case CollectOp(now) =>
          var n := inv.CollectExpired(now);
          reply := Collected(n);
        case ChangeQuantityOp(n) => err := inv.ChangeQuantity(n);
        case ChangeFeeOp(amount) =>
          if amount < 0 {
            return Err(ErrMinusFee);
          }
          inv.ChangeFee(amount);
        case CloseOp => err := inv.Close();
        case ReopenOp => err := inv.Reopen();
      }
      return if err.Some? then Err(err.value) else Ok(reply);
    }
  }

  lemma LoadedHolds(t: Tables, k: InventoryId, s: InventoryState, ids: seq<Uuid>, holds: seq<Hold>)
    requires Represents(t, k, s) && ListsRows(ids, t, k) && |holds| == |ids|
    requires forall i :: 0 <= i < |ids| ==> ids[i] in t.holds && holds[i] == ToHold(ids[i], t.holds[ids[i]])
    ensures A.DistinctBookings(holds) && A.ByBooking(holds) == s.holds
  {
    forall i | 0 <= i < |ids| ensures holds[i].bookingId in s.holds && s.holds[holds[i].bookingId] == holds[i] {
      assert ids[i] in ids && HasRow(t, k, ids[i]);
    }
    var m := A.ByBooking(holds);
    forall b ensures b in m <==> b in s.holds {
      if b in m {
        var i := A.Position(holds, b);
      }
      if b in s.holds {
        assert s.holds[b].id in ids;
        var i :| 0 <= i < |ids| && ids[i] == s.holds[b].id;
        A.Lookup(holds, i);
      }
    }
    forall b | b in m ensures m[b] == s.holds[b] {
      var i := A.Position(holds, b);
    }
    assert m == s.holds;
  }

  lemma ListedHolds(holds: seq<Hold>, s: InventoryState)
    requires A.DistinctBookings(holds) && s.holds == A.ByBooking(holds) && s.DistinctIds()
    ensures Lists(holds, s)
  {
    forall i | 0 <= i < |holds| ensures holds[i].bookingId in s.holds && s.holds[holds[i].bookingId] == holds[i] {
      A.Lookup(holds, i);
    }
    forall b | b in s.holds ensures s.holds[b] in holds {
      var i := A.Position(holds, b);
    }
  }

  /** Tables that represent an aggregate have its row and, for its list of holds, exactly one row each. */
  lemma RowsOfTheList(t: Tables, k: InventoryId, s: InventoryState, holds: seq<Hold>)
    requires Represents(t, k, s) && Lists(holds, s)
    ensures k in t.inventories && t.inventories[k] == InventoryRow(s.fee, s.quantity, s.isClosed)
    ensures forall i :: 0 <= i < |holds| ==>
              var h := holds[i];
              h.id in t.holds && t.holds[h.id] == HoldRow(k, h.bookingId, h.slotNo, h.status, h.expiredAt)
    ensures forall id :: id in t.holds && t.holds[id].key == k ==> exists i :: 0 <= i < |holds| && holds[i].id == id
  {
    forall id | id in t.holds && t.holds[id].key == k ensures exists i :: 0 <= i < |holds| && holds[i].id == id {
      assert HasRow(t, k, id);
      var i :| 0 <= i < |holds| && holds[i] == s.holds[t.holds[id].bookingId];
    }
  }

  lemma NextStatement(t: Tables, k: InventoryId, ss: seq<Stmt>, n: nat)
    requires Stepwise(t, k, ss) && n < |ss|
    ensures ExecAll(t, ss[..n + 1]) == Exec(ExecAll(t, ss[..n]), ss[n])
    ensures Constraints(ExecAll(t, ss[..n + 1]))
  {
    assert ss[..n + 1][..n] == ss[..n];
    assert PointOk(t, ExecAll(t, ss[..n + 1]), k);
  }

  lemma FirstStatement(t: Tables, k: InventoryId, s: InventoryState, holds: seq<Hold>)
    requires Constraints(t) && k in t.inventories && s.Valid()
    ensures Constraints(Exec(t, UpsertInventory(k, RowOf(s))))
  {
  }

  lemma SaveBegins(t: Tables, k: InventoryId, s: InventoryState, existing: seq<Uuid>, holds: seq<Hold>)
    ensures ExecAll(t, SaveStatements(k, s, existing, holds)[..1]) == Exec(t, UpsertInventory(k, RowOf(s)))
  {
    var ss := SaveStatements(k, s, existing, holds);
    assert ss[..1][..0] == [] && ExecAll(t, []) == t;
  }

  lemma DeletesStart(k: InventoryId, s: InventoryState, existing: seq<Uuid>, holds: seq<Hold>)
    ensures Deletes([], holds) == [] && |SaveStatements(k, s, existing, holds)| >= 1
  {
  }

  lemma KeptGrows(holds: seq<Hold>, i: nat)
    requires i < |holds|
    ensures forall id :: Kept(id, holds[..i + 1]) <==> Kept(id, holds[..i]) || id == holds[i].id
  {
    forall id ensures Kept(id, holds[..i + 1]) <==> Kept(id, holds[..i]) || id == holds[i].id {
      if Kept(id, holds[..i]) {
        var j :| 0 <= j < i && holds[..i][j].id == id;
        assert holds[..i + 1][j].id == id;
      }
      if id == holds[i].id {
        assert holds[..i + 1][i].id == id;
      }
      if Kept(id, holds[..i + 1]) && id != holds[i].id {
        var j :| 0 <= j < i + 1 && holds[..i + 1][j].id == id;
        assert holds[..i][j].id == id;
      }
    }
  }

  lemma DeletesPrefix(existing: seq<Uuid>, holds: seq<Hold>, i: nat)
    requires i < |existing|
    ensures Deletes(existing[..i + 1], holds) ==
            Deletes(existing[..i], holds) + (if Kept(existing[i], holds) then [] else [DeleteHold(existing[i])])
  {
    assert existing[..i + 1][..i] == existing[..i];
  }

  lemma {:induction false} DeletesGrow(existing: seq<Uuid>, holds: seq<Hold>, i: nat)
    requires i <= |existing|
    ensures Deletes(existing[..i], holds) <= Deletes(existing, holds)
    decreases |existing| - i
  {
    if i < |existing| {
      DeletesGrow(existing, holds, i + 1);
      DeletesPrefix(existing, holds, i);
    } else {
      assert existing[..i] == existing;
    }
  }

  /** The statement Save's first loop executes at row i, if any. */
  lemma OneDelete(t: Tables, k: InventoryId, s: InventoryState, existing: seq<Uuid>, holds: seq<Hold>, i: nat)
    requires i < |existing| && Stepwise(t, k, SaveStatements(k, s, existing, holds))
    ensures var ss := SaveStatements(k, s, existing, holds);
            var n, n' := 1 + |Deletes(existing[..i], holds)|, 1 + |Deletes(existing[..i + 1], holds)|;
            && n <= n' <= |ss|
            && (Kept(existing[i], holds) ==> n' == n)
            && (!Kept(existing[i], holds) ==>
                  && n' == n + 1 && ExecAll(t, ss[..n']) == Exec(ExecAll(t, ss[..n]), DeleteHold(existing[i]))
                  && Constraints(ExecAll(t, ss[..n'])))
  {
    DeletesPrefix(existing, holds, i);
    DeletesGrow(existing, holds, i + 1);
    hide ExecAll, Exec, Constraints, Stepwise, Kept, Deletes;
    var ss := SaveStatements(k, s, existing, holds);
    var n := 1 + |Deletes(existing[..i], holds)|;
    if !Kept(existing[i], holds) {
      assert ss[n] == Deletes(existing[..i + 1], holds)[n - 1];
      NextStatement(t, k, ss, n);
    }
  }
}
