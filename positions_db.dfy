/** `src/db/positions.py`: the queries `get_positions` runs against
    `positions` (reading the rows linked to the previous day, closing a row
    from newer data) and the module-level `save_position` and
    `get_positions_for_simulation`. */
module PositionsDb {
  import opened Common
  import opened Store
  import opened Manager

  /** The join condition of `fetch_positions_from_database`: a link of the
      simulation whose `end_ts` is the previous day. */
  function LinkedAt(links: set<Link>, name: string, previousEnd: Day): PositionRow -> bool {
    (row: PositionRow) => exists l :: l in links && l.positionId == row.id && l.name == name && l.end == previousEnd
  }

  /** `fetch_positions_from_database`: the rows linked to the simulation at
      `previous_end_ts`, in rowid order. The SELECT names `buy_signals` and
      `sell_signals`; without them, or without a table, it raises (None),
      and nothing catches it here. */
  function FetchPositionsFromDatabase(s: Store, name: string, previousEnd: Day): (r: Option<seq<PositionRow>>)
    ensures r.None? <==> SimulationPositions !in s.catalog || !s.HasColumns(SignalColumns)
    ensures r.Some? ==> forall row :: row in r.value <==>
      row in s.positions && exists l :: l in s.links && l.positionId == row.id && l.name == name && l.end == previousEnd
  {
    if SimulationPositions !in s.catalog || !s.HasColumns(SignalColumns) then None
    else Some(Filter(s.positions, LinkedAt(s.links, name, previousEnd)))
  }

  /** The eight columns the UPDATE of `update_positions_in_database` sets,
      from a previous position whose signals have been dumped to text. */
  function CloseRow(row: PositionRow, q: ApiPosition): (r: PositionRow)
    ensures r.id == row.id && r.pair == row.pair && r.buyDate == row.buyDate && r.buyPrice == row.buyPrice
    ensures r.fundSlot == row.fundSlot
    ensures r.sellDate == q.sellDate && r.sellPrice == q.sellPrice
    ensures r.buySignals == Some(q.buySignals) && r.sellSignals == Some(q.sellSignals)
  {
    row.(sellDate := q.sellDate, sellPrice := q.sellPrice,
         buySignals := Some(q.buySignals), sellSignals := Some(q.sellSignals),
         buyIndex := q.buyIndex, sellIndex := q.sellIndex,
         duration := q.duration, ratio := q.ratio)
  }

  /** `UPDATE positions SET … WHERE id = ?`: only the row with that id
      changes, and only in the eight columns; a table without the signal
      columns rejects the statement. */
  function UpdatePosition(s: Store, q: ApiPosition, id: nat): (r: Store)
    ensures r.(positions := s.positions) == s
    ensures |r.positions| == |s.positions|
    ensures forall i :: 0 <= i < |s.positions| ==>
      var old_, new_ := s.positions[i], r.positions[i];
      && new_.id == old_.id && new_.pair == old_.pair && new_.buyDate == old_.buyDate
      && new_.buyPrice == old_.buyPrice && new_.fundSlot == old_.fundSlot
      && (old_.id != id || !s.HasColumns(SignalColumns) ==> new_ == old_)
      && (old_.id == id && s.HasColumns(SignalColumns) ==>
            && new_.sellDate == q.sellDate && new_.sellPrice == q.sellPrice
            && new_.buySignals == Some(q.buySignals) && new_.sellSignals == Some(q.sellSignals)
            && new_.buyIndex == q.buyIndex && new_.sellIndex == q.sellIndex
            && new_.duration == q.duration && new_.ratio == q.ratio)
  {
    if !s.HasColumns(SignalColumns) then s
    else s.(positions := seq(|s.positions|, i requires 0 <= i < |s.positions| =>
              if s.positions[i].id == id then CloseRow(s.positions[i], q) else s.positions[i]))
  }

  /** The columns `update_positions_in_database` reads back after the
      UPDATE and passes on as the closed position. */
  datatype Closed = Closed(
    id: nat, pair: string, buyDate: Day, buyPrice: Real,
    sellDate: Option<Day>, sellPrice: Option<Real>,
    buySignals: Option<Signals>, sellSignals: Option<Signals>,
    ratio: Option<Real>, duration: Option<int>)

  function HasId(id: nat): PositionRow -> bool {
    (row: PositionRow) => row.id == id
  }

  /** `SELECT … FROM positions WHERE id = ?` and `fetchone()`. */
  function ReadBack(s: Store, id: nat): (r: Option<Closed>)
    ensures r.Some? <==> exists i :: 0 <= i < |s.positions| && s.positions[i].id == id
    ensures r.Some? ==> r.value.id == id
  {
    match FirstWhere(s.positions, HasId(id))
    case None => None
    case Some(k) =>
      var row := s.positions[k];
      Some(Closed(id, row.pair, row.buyDate, row.buyPrice, row.sellDate, row.sellPrice,
                  row.buySignals, row.sellSignals, row.ratio, row.duration))
  }

  /** The state after `update_positions_in_database` and the position it
      reports as closed (None when the UPDATE failed or no row has the id). */
  datatype Updated = Updated(store: Store, closed: Option<Closed>)

  function UpdatePositionsInDatabase(s: Store, q: ApiPosition, id: nat): (r: Updated)
    ensures r.store == UpdatePosition(s, q, id)
    ensures r.closed.Some? ==> s.HasColumns(SignalColumns)
  {
    if !s.HasColumns(SignalColumns) then Updated(s, None)
    else
      var t := UpdatePosition(s, q, id);
      Updated(t, ReadBack(t, id))
  }

  /** The closed position reported after the update carries the new sell
      date, sell price, ratio, duration and signals, and the row's own pair,
      buy date and buy price. */
  lemma ReadBackReflectsUpdate(s: Store, q: ApiPosition, k: nat)
    requires s.Valid() && s.HasColumns(SignalColumns)
    requires k < |s.positions|
    ensures var r := UpdatePositionsInDatabase(s, q, s.positions[k].id);
      && r.closed == Some(Closed(s.positions[k].id, s.positions[k].pair, s.positions[k].buyDate, s.positions[k].buyPrice,
                                 q.sellDate, q.sellPrice, Some(q.buySignals), Some(q.sellSignals), q.ratio, q.duration))
  {
    var id := s.positions[k].id;
    var t := UpdatePosition(s, q, id);
    assert t.positions[k].id == id;
    forall j | 0 <= j < k
      ensures !HasId(id)(t.positions[j])
    {
      assert s.positions[j].id < s.positions[k].id;
    }
    FirstWhereUnique(t.positions, HasId(id), k);
  }

  /** Rows keep ascending ids, so the store stays well formed. */
  lemma UpdatePositionValid(s: Store, q: ApiPosition, id: nat)
    requires s.Valid()
    ensures UpdatePosition(s, q, id).Valid()
  {
  }

  /** The columns the INSERT of the module-level `save_position` names
      beyond those both layouts share. */
  const SaveColumns: set<Column> := SignalColumns + {FundSlotCol}

  function SaveDraft(pair: string, buyDate: Day, buyPrice: Real, sellDate: Option<Day>, sellPrice: Option<Real>,
                     buyIndex: Option<int>, sellIndex: Option<int>, duration: Option<int>, ratio: Option<Real>,
                     buySignals: Option<Signals>, sellSignals: Option<Signals>, fundSlot: Option<int>): PositionRow
  {
    PositionRow(0, pair, buyDate, buyPrice, sellDate, sellPrice, buyIndex, sellIndex, duration, ratio,
                buySignals, sellSignals, fundSlot)
  }

  /** Neither `CREATE TABLE positions` of the repository has all of
      `buy_signals`, `sell_signals` and `fund_slot`, so this `save_position`
      never inserts: a new position yields None and no row. */
  lemma SavePositionNeverInsertsUnderEitherLayout(s: Store, draft: PositionRow)
    requires s.positionsColumns == Some(ManagerColumns) || s.positionsColumns == Some(TablesColumns)
    ensures FindOrInsert(s, draft, SaveColumns).store == s
    ensures FirstWhere(s.positions, TradeOf(draft)).None? ==> FindOrInsert(s, draft, SaveColumns).id.None?
  {
    assert FundSlotCol !in ManagerColumns;
    assert BuySignalsCol !in TablesColumns;
  }

  /** On a table with every column the inserted row stores the fund slot. */
  lemma SavePositionStoresFundSlot(s: Store, draft: PositionRow)
    requires s.HasColumns(SaveColumns)
    requires FirstWhere(s.positions, TradeOf(draft)).None?
    ensures var r := FindOrInsert(s, draft, SaveColumns);
      r.id == Some(s.nextId) && r.store.positions[|s.positions|].fundSlot == draft.fundSlot
  {
  }

  method FetchPositions(db: DatabaseManager, name: string, previousEnd: Day) returns (r: Option<seq<PositionRow>>)
    ensures r == FetchPositionsFromDatabase(db.Snapshot(), name, previousEnd)
  {
    if SimulationPositions !in db.catalog || db.positionsColumns.None? || !(SignalColumns <= db.positionsColumns.value) {
      return None;
    }
    r := Some(Filter(db.positions, LinkedAt(db.links, name, previousEnd)));
  }

  /** The database part of `update_positions_in_database`; the Discord
      embed of the closed position is not modelled. */
  method UpdatePositions(db: DatabaseManager, q: ApiPosition, id: nat) returns (closed: Option<Closed>)
    requires db.Valid()
    modifies db
    ensures db.Valid()
    ensures Updated(db.Snapshot(), closed) == UpdatePositionsInDatabase(old(db.Snapshot()), q, id)
  {
    UpdatePositionValid(db.Snapshot(), q, id);
    if db.positionsColumns.None? || !(SignalColumns <= db.positionsColumns.value) {
      return None;
    }
    db.positions := UpdatePosition(db.Snapshot(), q, id).positions;
    closed := ReadBack(db.Snapshot(), id);
  }

  method GetPositionsForSimulation(db: DatabaseManager, name: string, start: Day, end: Day) returns (r: Option<set<PositionView>>)
    ensures r == PositionsForSimulation(db.Snapshot(), name, start, end)
  {
    r := PositionsForSimulation(db.Snapshot(), name, start, end);
  }

  /** The module-level `save_position`, which also writes `fund_slot`. */
  method SavePosition(db: DatabaseManager, pair: string, buyDate: Day, buyPrice: Real, sellDate: Option<Day>, sellPrice: Option<Real>,
                      buyIndex: Option<int>, sellIndex: Option<int>, duration: Option<int>, ratio: Option<Real>,
                      buySignals: Option<Signals>, sellSignals: Option<Signals>, fundSlot: Option<int>) returns (id: Option<nat>)
    requires db.Valid()
    modifies db
    ensures db.Valid()
    ensures Saved(db.Snapshot(), id) == FindOrInsert(old(db.Snapshot()),
      SaveDraft(pair, buyDate, buyPrice, sellDate, sellPrice, buyIndex, sellIndex, duration, ratio, buySignals, sellSignals, fundSlot),
      SaveColumns)
  {
    var draft := SaveDraft(pair, buyDate, buyPrice, sellDate, sellPrice, buyIndex, sellIndex, duration, ratio, buySignals, sellSignals, fundSlot);
    FindOrInsertValid(db.Snapshot(), draft, SaveColumns);
    if db.positionsColumns.None? {
      return None;
    }
    var found := FirstWhere(db.positions, TradeOf(draft));
    if found.Some? {
      id := Some(db.positions[found.value].id);
    } else if SaveColumns <= db.positionsColumns.value {
      id := Some(db.nextId);
      db.positions := db.positions + [draft.(id := db.nextId)];
      db.nextId := db.nextId + 1;
    } else {
      id := None;
    }
  }
}
