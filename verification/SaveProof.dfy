/**
 * Save writes a difference, yet reloading gives the whole aggregate, and no statement on the way breaks a constraint.
 */
module SaveProof {
  import opened Common
  import opened I = InventorySpec
  import opened HoldTables

  /** The rows of a list of holds. */
  function RowsOf(k: InventoryId, holds: seq<Hold>): map<Uuid, HoldRow> {
    if holds == [] then map[]
    else
      var h := holds[|holds| - 1];
      RowsOf(k, holds[..|holds| - 1])[h.id := HoldRowOf(k, h)]
  }

  lemma {:induction false} RowsLookup(k: InventoryId, holds: seq<Hold>, i: nat)
    requires i < |holds| && forall i, j :: 0 <= i < j < |holds| ==> holds[i].id != holds[j].id
    ensures holds[i].id in RowsOf(k, holds) && RowsOf(k, holds)[holds[i].id] == HoldRowOf(k, holds[i])
    decreases |holds|
  {
    if i < |holds| - 1 {
      RowsLookup(k, holds[..|holds| - 1], i);
    }
  }

  lemma {:induction false} RowsPosition(k: InventoryId, holds: seq<Hold>, id: Uuid) returns (i: nat)
    requires id in RowsOf(k, holds)
    ensures i < |holds| && holds[i].id == id && RowsOf(k, holds)[id] == HoldRowOf(k, holds[i])
  {
    if holds[|holds| - 1].id == id {
      i := |holds| - 1;
    } else {
      i := RowsPosition(k, holds[..|holds| - 1], id);
    }
  }

  /** A point during Save: the inventory row is written, the holds in `gone` deleted, those in `done` upserted. */
  function Midway(t: Tables, k: InventoryId, s: InventoryState, gone: set<Uuid>, done: seq<Hold>): Tables {
    Tables(t.inventories[k := RowOf(s)], (t.holds - gone) + RowsOf(k, done))
  }

  /** The stored holds that the aggregate no longer has. */
  function Gone(existing: seq<Uuid>, holds: seq<Hold>): set<Uuid> {
    set id | id in existing && !Kept(id, holds)
  }

  ghost predicate PointOk(t: Tables, t': Tables, k: InventoryId) {
    Constraints(t') && SameElsewhere(t, t', k)
  }

  /** Every prefix of the statements leads to a point that satisfies the constraints and touches no other inventory. */
  ghost predicate Stepwise(t: Tables, k: InventoryId, ss: seq<Stmt>) {
    forall j :: 0 <= j <= |ss| ==> PointOk(t, ExecAll(t, ss[..j]), k)
  }

  lemma OneStatementMore(t: Tables, k: InventoryId, ss: seq<Stmt>, x: Stmt)
    ensures ExecAll(t, ss + [x]) == Exec(ExecAll(t, ss), x)
    ensures Stepwise(t, k, ss) && PointOk(t, ExecAll(t, ss + [x]), k) ==> Stepwise(t, k, ss + [x])
  {
    assert (ss + [x])[..|ss|] == ss;
    forall j | 0 <= j <= |ss| ensures (ss + [x])[..j] == ss[..j] {
    }
    assert (ss + [x])[..|ss| + 1] == ss + [x];
  }

  /** What Save is given: a valid aggregate listed in some order, over tables that satisfy their constraints. */
  ghost predicate SaveInput(t: Tables, k: InventoryId, s: InventoryState, existing: seq<Uuid>, holds: seq<Hold>) {
    && Constraints(t) && k in t.inventories && s.Valid() && Savable(t, k, s)
    && Lists(holds, s) && ListsRows(existing, t, k)
  }

  /** While holds are only deleted, the constraints hold because they held before. */
  lemma DeletingIsOk(t: Tables, k: InventoryId, s: InventoryState, gone: set<Uuid>)
    requires Constraints(t) && k in t.inventories && s.Valid() && (forall id :: id in gone ==> HasRow(t, k, id))
    ensures PointOk(t, Midway(t, k, s, gone, []), k)
  {
    var m := Midway(t, k, s, gone, []);
    assert m.holds == t.holds - gone;
    assert forall k', id :: k' != k ==> (HasRow(t, k', id) <==> HasRow(m, k', id));
  }

  /** Once the deletes are done, each row left of k is one of the aggregate's holds, with its booking and slot. */
  lemma RowIsAHold(t: Tables, k: InventoryId, s: InventoryState, existing: seq<Uuid>, holds: seq<Hold>, n: nat,
      id: Uuid)
    returns (i: nat)
    requires SaveInput(t, k, s, existing, holds) && n <= |holds|
    requires HasRow(Midway(t, k, s, Gone(existing, holds), holds[..n]), k, id)
    ensures i < |holds| && holds[i].id == id
    ensures var r := Midway(t, k, s, Gone(existing, holds), holds[..n]).holds[id];
            r.bookingId == holds[i].bookingId && r.slotNo == holds[i].slotNo &&
                (id in RowsOf(k, holds[..n]) ==> r == HoldRowOf(k, holds[i]))
  {
    if id in RowsOf(k, holds[..n]) {
      i := RowsPosition(k, holds[..n], id);
    } else {
      assert HasRow(t, k, id);
      assert id in existing && Kept(id, holds);
      i :| 0 <= i < |holds| && holds[i].id == id;
      assert s.holds[holds[i].bookingId] == holds[i];
    }
  }

  lemma SlotsStayApart(t: Tables, k: InventoryId, s: InventoryState, existing: seq<Uuid>, holds: seq<Hold>, n: nat)
    requires SaveInput(t, k, s, existing, holds) && n <= |holds|
    ensures var m := Midway(t, k, s, Gone(existing, holds), holds[..n]);
            forall a, b :: a in m.holds && b in m.holds && a != b && m.holds[a].key == m.holds[b].key ==>
                     m.holds[a].slotNo != m.holds[b].slotNo
  {
    hide Midway, Gone, RowsOf;
    var m := Midway(t, k, s, Gone(existing, holds), holds[..n]);
    forall a, b | a in m.holds && b in m.holds && a != b && m.holds[a].key == m.holds[b].key
      ensures m.holds[a].slotNo != m.holds[b].slotNo
    {
      if m.holds[a].key == k {
        var i := RowIsAHold(t, k, s, existing, holds, n, a);
        var j := RowIsAHold(t, k, s, existing, holds, n, b);
        assert s.holds[holds[i].bookingId] == holds[i] && s.holds[holds[j].bookingId] == holds[j];
      } else {
        OtherRowsAreStored(t, k, s, existing, holds, n, a);
        OtherRowsAreStored(t, k, s, existing, holds, n, b);
      }
    }
  }

  lemma OtherRowsAreStored(t: Tables, k: InventoryId, s: InventoryState, existing: seq<Uuid>, holds: seq<Hold>, n: nat,
      id: Uuid)
    requires n <= |holds|
    ensures var m := Midway(t, k, s, Gone(existing, holds), holds[..n]);
            id in m.holds && m.holds[id].key != k ==> id in t.holds && m.holds[id] == t.holds[id]
  {
    if id in RowsOf(k, holds[..n]) {
      var i := RowsPosition(k, holds[..n], id);
    }
  }

  lemma UpsertingSparesOthers(t: Tables, k: InventoryId, s: InventoryState, existing: seq<Uuid>, holds: seq<Hold>,
      n: nat)
    requires SaveInput(t, k, s, existing, holds) && n <= |holds|
    ensures SameElsewhere(t, Midway(t, k, s, Gone(existing, holds), holds[..n]), k)
  {
    var m := Midway(t, k, s, Gone(existing, holds), holds[..n]);
    forall id | id in RowsOf(k, holds[..n]) ensures m.holds[id].key == k && (id in t.holds ==> t.holds[id].key == k) {
      var i := RowsPosition(k, holds[..n], id);
      assert s.holds[holds[i].bookingId] == holds[i];
    }
    hide RowsOf, Constraints, InventoryState.Valid, Lists, Savable;
    assert forall id :: id in Gone(existing, holds) ==> HasRow(t, k, id);
    assert forall k', id :: k' != k ==> (HasRow(t, k', id) <==> HasRow(m, k', id));
  }

  lemma RowIsInBounds(t: Tables, k: InventoryId, s: InventoryState, existing: seq<Uuid>, holds: seq<Hold>, n: nat,
      id: Uuid)
    requires SaveInput(t, k, s, existing, holds) && n <= |holds|
    requires id in Midway(t, k, s, Gone(existing, holds), holds[..n]).holds
    ensures var m := Midway(t, k, s, Gone(existing, holds), holds[..n]);
            m.holds[id].slotNo >= 1 && m.holds[id].key in m.inventories
  {
    hide Gone, RowsOf;
    if Midway(t, k, s, Gone(existing, holds), holds[..n]).holds[id].key == k {
      var i := RowIsAHold(t, k, s, existing, holds, n, id);
      assert s.holds[holds[i].bookingId] == holds[i];
    } else {
      OtherRowsAreStored(t, k, s, existing, holds, n, id);
    }
  }

  /** While holds are upserted, a freed slot may be taken again: its old row is already gone. */
  lemma UpsertingIsOk(t: Tables, k: InventoryId, s: InventoryState, existing: seq<Uuid>, holds: seq<Hold>, n: nat)
    requires SaveInput(t, k, s, existing, holds) && n <= |holds|
    ensures PointOk(t, Midway(t, k, s, Gone(existing, holds), holds[..n]), k)
  {
    hide Gone, RowsOf, Savable, Lists, ListsRows, SameElsewhere;
    var m := Midway(t, k, s, Gone(existing, holds), holds[..n]);
    UpsertingSparesOthers(t, k, s, existing, holds, n);
    SlotsStayApart(t, k, s, existing, holds, n);
    forall a | a in m.holds ensures m.holds[a].slotNo >= 1 && m.holds[a].key in m.inventories {
      RowIsInBounds(t, k, s, existing, holds, n, a);
    }
  }

  lemma NothingYet(t: Tables, k: InventoryId, s: InventoryState)
    requires Constraints(t)
    ensures ExecAll(t, []) == t && Stepwise(t, k, [])
    ensures Midway(t, k, s, {}, []) == Exec(t, UpsertInventory(k, RowOf(s)))
  {
    hide Constraints;
    assert SameElsewhere(t, t, k);
    assert Midway(t, k, s, {}, []).holds == t.holds;
  }

  lemma RowFirst(t: Tables, k: InventoryId, s: InventoryState)
    requires Constraints(t) && k in t.inventories && s.Valid()
    ensures var ss := [UpsertInventory(k, RowOf(s))];
            ExecAll(t, ss) == Midway(t, k, s, {}, []) && Stepwise(t, k, ss)
  {
    var u := UpsertInventory(k, RowOf(s));
    hide Represents, PointOk, Stepwise, Exec, ExecAll, Midway, Constraints, InventoryState.Valid;
    NothingYet(t, k, s);
    OneStatementMore(t, k, [], u);
    DeletingIsOk(t, k, s, {});
    assert [] + [u] == [u];
  }

  lemma DeleteOne(t: Tables, k: InventoryId, s: InventoryState, gone: set<Uuid>, id: Uuid)
    ensures Exec(Midway(t, k, s, gone, []), DeleteHold(id)) == Midway(t, k, s, gone + {id}, [])
  {
    assert t.holds - gone + map[] - {id} == t.holds - (gone + {id}) + map[];
  }

  lemma GoneSteps(init: seq<Uuid>, last: Uuid, holds: seq<Hold>)
    ensures Gone(init + [last], holds) == if Kept(last, holds) then Gone(init, holds) else Gone(init, holds) + {last}
    ensures Deletes(init + [last], holds) == Deletes(init, holds) + if Kept(last, holds) then [] else [DeleteHold(last)]
  {
    assert (init + [last])[..|init|] == init;
  }

  lemma {:induction false} RunDeletes(t: Tables, k: InventoryId, s: InventoryState, existing: seq<Uuid>,
      holds: seq<Hold>)
    requires Constraints(t) && k in t.inventories && s.Valid() && (forall id :: id in existing ==> HasRow(t, k, id))
    ensures var ss := [UpsertInventory(k, RowOf(s))] + Deletes(existing, holds);
            ExecAll(t, ss) == Midway(t, k, s, Gone(existing, holds), []) && Stepwise(t, k, ss)
    decreases |existing|
  {
    var u := [UpsertInventory(k, RowOf(s))];
    if existing == [] {
      RowFirst(t, k, s);
      assert Gone(existing, holds) == {} && u + Deletes(existing, holds) == u;
    } else {
      var init, last := existing[..|existing| - 1], existing[|existing| - 1];
      assert existing == init + [last];
      RunDeletes(t, k, s, init, holds);
      GoneSteps(init, last, holds);
      DeletingIsOk(t, k, s, Gone(existing, holds));
      hide Exec, Midway, PointOk, Stepwise, Gone, Deletes, Constraints;
      if Kept(last, holds) {
        assert u + Deletes(existing, holds) == u + Deletes(init, holds);
      } else {
        DeleteOne(t, k, s, Gone(init, holds), last);
        assert u + Deletes(existing, holds) == u + Deletes(init, holds) + [DeleteHold(last)];
        OneStatementMore(t, k, u + Deletes(init, holds), DeleteHold(last));
      }
    }
  }

  /** One upsert: on a conflict only status and expiry are rewritten, which is all that may differ. */
  lemma UpsertOne(t: Tables, k: InventoryId, s: InventoryState, existing: seq<Uuid>, holds: seq<Hold>, n: nat)
    requires SaveInput(t, k, s, existing, holds) && n < |holds|
    ensures Exec(Midway(t, k, s, Gone(existing, holds), holds[..n]), UpsertHold(holds[n].id, HoldRowOf(k, holds[n]))) ==
            Midway(t, k, s, Gone(existing, holds), holds[..n + 1])
  {
    var h := holds[n];
    var m := Midway(t, k, s, Gone(existing, holds), holds[..n]);
    hide Midway, RowsOf, Gone, SaveInput, Exec;
    StoredRowAgrees(t, k, s, existing, holds, n);
    UpsertInstalls(m, h.id, HoldRowOf(k, h));
    MidwayOneMore(t, k, s, Gone(existing, holds), holds, n);
  }

  lemma UpsertInstalls(t: Tables, id: Uuid, row: HoldRow)
    requires id in t.holds ==> t.holds[id].(status := row.status, expiredAt := row.expiredAt) == row
    ensures Exec(t, UpsertHold(id, row)) == t.(holds := t.holds[id := row])
  {
  }

  lemma MidwayOneMore(t: Tables, k: InventoryId, s: InventoryState, gone: set<Uuid>, holds: seq<Hold>, n: nat)
    requires n < |holds|
    ensures var m := Midway(t, k, s, gone, holds[..n]);
            Midway(t, k, s, gone, holds[..n + 1]) == m.(holds := m.holds[holds[n].id := HoldRowOf(k, holds[n])])
  {
    RowsOneMore(k, holds, n);
    hide RowsOf;
    var m := Midway(t, k, s, gone, holds[..n]);
    assert Midway(t, k, s, gone, holds[..n + 1]).holds == m.holds[holds[n].id := HoldRowOf(k, holds[n])];
  }

  lemma RowsOneMore(k: InventoryId, holds: seq<Hold>, n: nat)
    requires n < |holds|
    ensures RowsOf(k, holds[..n + 1]) == RowsOf(k, holds[..n])[holds[n].id := HoldRowOf(k, holds[n])]
  {
    assert holds[..n + 1][..n] == holds[..n];
  }

  /** What is stored under the identifier of a hold that is still to be upserted has its key, booking and slot. */
  lemma StoredRowAgrees(t: Tables, k: InventoryId, s: InventoryState, existing: seq<Uuid>, holds: seq<Hold>, n: nat)
    requires SaveInput(t, k, s, existing, holds) && n < |holds|
    ensures var m, h := Midway(t, k, s, Gone(existing, holds), holds[..n]), holds[n];
            h.id in m.holds ==> m.holds[h.id].(status := h.status, expiredAt := h.expiredAt) == HoldRowOf(k, h)
  {
    var h := holds[n];
    if h.id in RowsOf(k, holds[..n]) {
      var i := RowsPosition(k, holds[..n], h.id);
      assert false;
    }
    assert s.holds[h.bookingId] == h;
  }

  lemma {:induction false} RunUpserts(t: Tables, k: InventoryId, s: InventoryState, existing: seq<Uuid>,
      holds: seq<Hold>, n: nat)
    requires SaveInput(t, k, s, existing, holds) && n <= |holds|
    ensures var ss := [UpsertInventory(k, RowOf(s))] + Deletes(existing, holds) + Upserts(k, holds)[..n];
            ExecAll(t, ss) == Midway(t, k, s, Gone(existing, holds), holds[..n]) && Stepwise(t, k, ss)
    decreases n
  {
    hide Exec, ExecAll, Midway, PointOk, Stepwise, Gone, Deletes, SaveInput;
    var first := [UpsertInventory(k, RowOf(s))] + Deletes(existing, holds);
    if n == 0 {
      RunDeletesForSave(t, k, s, existing, holds);
      assert first + Upserts(k, holds)[..0] == first && holds[..0] == [];
    } else {
      RunUpserts(t, k, s, existing, holds, n - 1);
      UpsertsPrefix(k, holds, n, first);
      UpsertOne(t, k, s, existing, holds, n - 1);
      UpsertingIsOk(t, k, s, existing, holds, n);
      OneStatementMore(t, k, first + Upserts(k, holds)[..n - 1],
          UpsertHold(holds[n - 1].id, HoldRowOf(k, holds[n - 1])));
    }
  }

  lemma RunDeletesForSave(t: Tables, k: InventoryId, s: InventoryState, existing: seq<Uuid>, holds: seq<Hold>)
    requires SaveInput(t, k, s, existing, holds)
    ensures var ss := [UpsertInventory(k, RowOf(s))] + Deletes(existing, holds);
            ExecAll(t, ss) == Midway(t, k, s, Gone(existing, holds), []) && Stepwise(t, k, ss)
  {
    RunDeletes(t, k, s, existing, holds);
  }

  lemma UpsertsPrefix(k: InventoryId, holds: seq<Hold>, n: nat, first: seq<Stmt>)
    requires 0 < n <= |holds|
    ensures first + Upserts(k, holds)[..n] ==
            first + Upserts(k, holds)[..n - 1] + [UpsertHold(holds[n - 1].id, HoldRowOf(k, holds[n - 1]))]
  {
  }

  lemma AllUpserted(t: Tables, k: InventoryId, s: InventoryState, existing: seq<Uuid>, holds: seq<Hold>)
    requires SaveInput(t, k, s, existing, holds)
    ensures Represents(Midway(t, k, s, Gone(existing, holds), holds), k, s)
  {
    var m := Midway(t, k, s, Gone(existing, holds), holds);
    assert holds[..|holds|] == holds;
    forall id | HasRow(m, k, id)
      ensures m.holds[id].bookingId in s.holds && s.holds[m.holds[id].bookingId] == ToHold(id, m.holds[id])
    {
      var i := RowIsAHold(t, k, s, existing, holds, |holds|, id);
      RowsLookup(k, holds, i);
    }
    forall b | b in s.holds
      ensures s.holds[b].bookingId == b && HasRow(m, k, s.holds[b].id) && m.holds[s.holds[b].id].bookingId == b
    {
      var i :| 0 <= i < |holds| && holds[i] == s.holds[b];
      RowsLookup(k, holds, i);
    }
  }

  /**
   * For every valid aggregate whose stored holds keep booking and slot, in whatever order rows and holds are listed:
   * reloading after Save gives the aggregate; after every single statement the constraints hold, uq_slot included; and
   * no statement touches another inventory.
   */
  lemma SaveIsFaithful(t: Tables, k: InventoryId, s: InventoryState, existing: seq<Uuid>, holds: seq<Hold>)
    requires SaveInput(t, k, s, existing, holds)
    ensures var ss := SaveStatements(k, s, existing, holds);
            Represents(ExecAll(t, ss), k, s) && Stepwise(t, k, ss) && PointOk(t, ExecAll(t, ss), k)
  {
    hide Exec, ExecAll, Midway, PointOk, Gone, Deletes, SaveInput, Represents;
    RunUpserts(t, k, s, existing, holds, |holds|);
    var ss := SaveStatements(k, s, existing, holds);
    assert Upserts(k, holds)[..|holds|] == Upserts(k, holds) && holds[..|holds|] == holds;
    AllUpserted(t, k, s, existing, holds);
    assert ss[..|ss|] == ss;
  }

  /** Listing the stored holds after the row upsert sees what a listing before it would have seen. */
  lemma RowsAfterUpsert(t: Tables, k: InventoryId, row: InventoryRow, ids: seq<Uuid>)
    requires ListsRows(ids, Exec(t, UpsertInventory(k, row)), k)
    ensures ListsRows(ids, t, k)
  {
    var t' := Exec(t, UpsertInventory(k, row));
    assert forall id :: HasRow(t', k, id) <==> HasRow(t, k, id);
  }

  // ---- when it is faithful ----

  /** A statement other than its deletion leaves key, booking and slot of a stored hold alone. */
  lemma {:induction false} IdentityIsKept(t: Tables, ss: seq<Stmt>, id: Uuid)
    requires id in t.holds && DeleteHold(id) !in ss
    ensures var t' := ExecAll(t, ss);
            id in t'.holds && t'.holds[id].key == t.holds[id].key && t'.holds[id].bookingId == t.holds[id].bookingId
            && t'.holds[id].slotNo == t.holds[id].slotNo
  {
    if ss != [] {
      assert forall x :: x in ss[..|ss| - 1] ==> x in ss;
      IdentityIsKept(t, ss[..|ss| - 1], id);
      assert ss[|ss| - 1] in ss;
    }
  }

  lemma {:induction false} KeptIsNotDeleted(existing: seq<Uuid>, holds: seq<Hold>, id: Uuid)
    requires Kept(id, holds)
    ensures DeleteHold(id) !in Deletes(existing, holds)
  {
    if existing != [] {
      KeptIsNotDeleted(existing[..|existing| - 1], holds, id);
    }
  }

  /**
   * The exact limit of the diff-save: because UpsertHold never rewrites key, booking or slot, reloading gives the saved
   * aggregate if and only if every hold whose id is already stored has the stored inventory, booking and slot.
   */
  lemma SaveIsFaithfulExactly(t: Tables, k: InventoryId, s: InventoryState, existing: seq<Uuid>, holds: seq<Hold>)
    requires Constraints(t) && k in t.inventories && s.Valid() && Lists(holds, s) && ListsRows(existing, t, k)
    ensures Represents(ExecAll(t, SaveStatements(k, s, existing, holds)), k, s) <==> Savable(t, k, s)
  {
    if Savable(t, k, s) {
      SaveIsFaithful(t, k, s, existing, holds);
    } else {
      UnsavableIsUnfaithful(t, k, s, existing, holds);
    }
  }

  lemma UnsavableIsUnfaithful(t: Tables, k: InventoryId, s: InventoryState, existing: seq<Uuid>, holds: seq<Hold>)
    requires !Savable(t, k, s) && Lists(holds, s)
    ensures !Represents(ExecAll(t, SaveStatements(k, s, existing, holds)), k, s)
  {
    var b :| b in s.holds && s.holds[b].id in t.holds &&
      var r := t.holds[s.holds[b].id]; !(r.key == k && r.bookingId == b && r.slotNo == s.holds[b].slotNo);
    var i :| 0 <= i < |holds| && holds[i] == s.holds[b];
    KeptIsNotDeleted(existing, holds, holds[i].id);
    IdentityIsKept(t, SaveStatements(k, s, existing, holds), holds[i].id);
  }

  /** After a load, every single operation of the aggregate stays within that limit. */
  lemma OperationsAreSavable(t: Tables, k: InventoryId, s: InventoryState, op: Op)
    requires Represents(t, k, s) && Apply(s, op).Ok? && (op.HoldOp? ==> op.holdId !in t.holds)
    ensures Savable(t, k, Apply(s, op).value.state) && Apply(s, op).value.state.DistinctIds()
  {
    var s' := Apply(s, op).value.state;
    forall b | b in s'.holds && s'.holds[b].id in t.holds
      ensures b in s.holds && s'.holds[b].id == s.holds[b].id && s'.holds[b].slotNo == s.holds[b].slotNo
    {
    }
  }
}
