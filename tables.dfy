/** `src/db/tables.py`: the second `CREATE TABLE IF NOT EXISTS` set (a
    `positions` layout with `simulation_name`, `fund_slot` and singular signal
    columns, and the shared `funds` table) and `initialize_funds`, which
    gives a simulation one `funds` row per slot. */
module Tables {
  import opened Common
  import opened Store
  import opened Manager

  /** `create_tables`: a table that already exists keeps its layout. */
  function CreateTablesSpec(s: Store): (r: Store)
    ensures r.catalog == s.catalog + {Funds} && r.positionsColumns.Some?
    ensures s.positionsColumns.Some? ==> r.positionsColumns == s.positionsColumns
    ensures s.positionsColumns.None? ==> r.positionsColumns == Some(TablesColumns)
    ensures r.(catalog := s.catalog, positionsColumns := s.positionsColumns) == s
  {
    s.(catalog := s.catalog + {Funds},
       positionsColumns := if s.positionsColumns.None? then Some(TablesColumns) else s.positionsColumns)
  }

  /** Running `create_tables` twice is running it once. */
  lemma CreateTablesIdempotent(s: Store)
    ensures CreateTablesSpec(CreateTablesSpec(s)) == CreateTablesSpec(s)
  {
  }

  method CreateTables(db: DatabaseManager)
    modifies db
    ensures db.Snapshot() == CreateTablesSpec(old(db.Snapshot()))
  {
    db.catalog := db.catalog + {Funds};
    if db.positionsColumns.None? {
      db.positionsColumns := Some(TablesColumns);
    }
  }

  /** `SELECT 1 FROM funds WHERE simulation_name = ? AND fund_slot = ?`
      finds a row. */
  predicate HasSlot(funds: seq<FundRow>, name: string, slot: int) {
    exists i :: 0 <= i < |funds| && funds[i].name == name && funds[i].slot == slot
  }

  /** The INSERT of `initialize_funds`: `last_position_id` is NULL. */
  function AddFund(s: Store, name: string, slot: int, capital: Real): (r: Store)
    ensures r.funds == s.funds + [FundRow(s.nextFundId, name, slot, None, capital)]
    ensures r.nextFundId == s.nextFundId + 1
    ensures r.(funds := s.funds, nextFundId := s.nextFundId) == s
  {
    s.(funds := s.funds + [FundRow(s.nextFundId, name, slot, None, capital)], nextFundId := s.nextFundId + 1)
  }

  /** The state after the iterations for slots `1 .. upTo` of the loop of
      `initialize_funds` over a `funds` table that exists. */
  function FillSlots(s: Store, name: string, upTo: int, capital: Real): (r: Store)
    ensures r.(funds := s.funds, nextFundId := s.nextFundId) == s
    decreases upTo
  {
    if upTo < 1 then s
    else
      var t := FillSlots(s, name, upTo - 1, capital);
      if HasSlot(t.funds, name, upTo) then t else AddFund(t, name, upTo, capital)
  }

  /** `initialize_funds(db, name, max_fund_slots, capital)`: nothing guards
      the statements, so a missing `funds` table raises at the first SELECT
      (and only if the loop runs at all). */
  function InitializeFundsSpec(s: Store, name: string, maxSlots: int, capital: Real): (r: Effect)
    ensures r.raised <==> maxSlots >= 1 && Funds !in s.catalog
    ensures r.raised || maxSlots < 1 ==> r.store == s
  {
    if maxSlots >= 1 && Funds !in s.catalog then Effect(s, true)
    else Effect(FillSlots(s, name, maxSlots, capital), false)
  }

  method InitializeFunds(db: DatabaseManager, name: string, maxSlots: int, capital: Real) returns (raised: bool)
    requires db.Valid()
    modifies db
    ensures db.Valid()
    ensures Effect(db.Snapshot(), raised) == InitializeFundsSpec(old(db.Snapshot()), name, maxSlots, capital)
  {
    FillSlotsValid(db.Snapshot(), name, maxSlots, capital);
    raised := false;
    var slot := 1;
    while slot < maxSlots + 1
      invariant 1 <= slot <= if maxSlots >= 1 then maxSlots + 1 else 1
      invariant db.Snapshot() == FillSlots(old(db.Snapshot()), name, slot - 1, capital)
      invariant Funds in db.catalog <==> Funds in old(db.catalog)
      invariant slot > 1 ==> Funds in db.catalog
    {
      if Funds !in db.catalog {
        return true;
      }
      var present := HasSlot(db.funds, name, slot);
      if !present {
        db.funds := db.funds + [FundRow(db.nextFundId, name, slot, None, capital)];
        db.nextFundId := db.nextFundId + 1;
      }
      slot := slot + 1;
    }
  }

  /** Existing rows are kept, in place, and every added row belongs to
      `name`, has no last position, holds `capital`, and a slot in
      `1 .. upTo` that had no row before. */
  lemma {:induction false} FillSlotsRows(s: Store, name: string, upTo: int, capital: Real)
    ensures var r := FillSlots(s, name, upTo, capital);
      && |s.funds| <= |r.funds|
      && r.funds[..|s.funds|] == s.funds
      && forall i :: |s.funds| <= i < |r.funds| ==>
           && r.funds[i].name == name && r.funds[i].lastPositionId.None? && r.funds[i].capital == capital
           && 1 <= r.funds[i].slot <= upTo && !HasSlot(s.funds, name, r.funds[i].slot)
    decreases upTo
  {
    if upTo >= 1 {
      FillSlotsRows(s, name, upTo - 1, capital);
      var t := FillSlots(s, name, upTo - 1, capital);
      if !HasSlot(t.funds, name, upTo) {
        var r := AddFund(t, name, upTo, capital);
        assert r.funds[..|s.funds|] == t.funds[..|s.funds|];
        if HasSlot(s.funds, name, upTo) {
          assert false;
        }
      }
    }
  }

  /** Afterwards every slot `1 .. upTo` of the simulation has a row. */
  lemma {:induction false} FillSlotsCovers(s: Store, name: string, upTo: int, capital: Real)
    ensures forall slot :: 1 <= slot <= upTo ==> HasSlot(FillSlots(s, name, upTo, capital).funds, name, slot)
    decreases upTo
  {
    if upTo >= 1 {
      FillSlotsCovers(s, name, upTo - 1, capital);
      var t := FillSlots(s, name, upTo - 1, capital);
      var r := FillSlots(s, name, upTo, capital);
      forall slot | 1 <= slot <= upTo
        ensures HasSlot(r.funds, name, slot)
      {
        if slot < upTo {
          assert HasSlot(t.funds, name, slot);
          var i :| 0 <= i < |t.funds| && t.funds[i].name == name && t.funds[i].slot == slot;
          assert r.funds[i] == t.funds[i];
        } else if !HasSlot(t.funds, name, upTo) {
          assert r.funds[|t.funds|].slot == upTo;
        }
      }
    }
  }

  /** Where every slot already has a row, the loop inserts nothing. */
  lemma {:induction false} FillSlotsNoop(s: Store, name: string, upTo: int, capital: Real)
    requires forall slot :: 1 <= slot <= upTo ==> HasSlot(s.funds, name, slot)
    ensures FillSlots(s, name, upTo, capital) == s
    decreases upTo
  {
    if upTo >= 1 {
      FillSlotsNoop(s, name, upTo - 1, capital);
    }
  }

  /** A second call, even with another capital, changes nothing: one row
      per slot, with the capital of the first call. */
  lemma InitializeFundsIdempotent(s: Store, name: string, maxSlots: int, capital: Real, capital': Real)
    ensures var once := InitializeFundsSpec(s, name, maxSlots, capital);
      InitializeFundsSpec(once.store, name, maxSlots, capital') == once
  {
    var once := InitializeFundsSpec(s, name, maxSlots, capital);
    if !once.raised {
      FillSlotsCovers(s, name, maxSlots, capital);
      FillSlotsNoop(once.store, name, maxSlots, capital');
    }
  }

  /** Appending a fund row keeps row ids ascending below the counter. */
  lemma AddFundValid(s: Store, name: string, slot: int, capital: Real)
    requires s.Valid()
    ensures AddFund(s, name, slot, capital).Valid()
  {
    var r := AddFund(s, name, slot, capital);
    assert forall i :: 0 <= i < |s.funds| ==> r.funds[i] == s.funds[i];
  }

  /** Filling slots keeps row ids ascending below the counter. */
  lemma {:induction false} FillSlotsValid(s: Store, name: string, upTo: int, capital: Real)
    requires s.Valid()
    ensures FillSlots(s, name, upTo, capital).Valid()
    decreases upTo
  {
    if upTo >= 1 {
      FillSlotsValid(s, name, upTo - 1, capital);
      var t := FillSlots(s, name, upTo - 1, capital);
      if !HasSlot(t.funds, name, upTo) {
        AddFundValid(t, name, upTo, capital);
      }
    }
  }
}
