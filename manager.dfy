/** `src/db/manager.py`: the `DatabaseManager` that owns the SQLite
    connection, creates the three core tables, upserts simulation days,
    find-or-inserts positions, creates the per-simulation capital tables and
    reads back the positions of a simulation. */
module Manager {
  import opened Common
  import opened Decimal
  import opened Store

  /** `CREATE TABLE IF NOT EXISTS` for `simulations`, `positions` and
      `simulation_positions`: a table that exists keeps its columns and rows. */
  function CreateManagerTables(s: Store): (r: Store)
    ensures r.catalog == s.catalog + {Simulations, SimulationPositions} && r.positionsColumns.Some?
    ensures s.positionsColumns.Some? ==> r.positionsColumns == s.positionsColumns
    ensures s.positionsColumns.None? ==> r.positionsColumns == Some(ManagerColumns)
    ensures r.(catalog := s.catalog, positionsColumns := s.positionsColumns) == s
  {
    s.(catalog := s.catalog + {Simulations, SimulationPositions},
       positionsColumns := if s.positionsColumns.None? then Some(ManagerColumns) else s.positionsColumns)
  }

  /** Creating the tables a second time changes nothing. */
  lemma CreateManagerTablesIdempotent(s: Store)
    ensures CreateManagerTables(CreateManagerTables(s)) == CreateManagerTables(s)
  {
  }

  /** `INSERT OR REPLACE INTO simulations`: every column is part of the
      primary key, so the row is present afterwards and no other row moves.
      Without the table the statement raises sqlite3.Error, which is logged. */
  function UpsertCheckpoint(s: Store, c: Checkpoint): (r: Store)
    ensures Simulations in s.catalog ==> c in r.simulations && r.simulations - {c} == s.simulations - {c}
    ensures Simulations !in s.catalog ==> r == s
    ensures r.(simulations := s.simulations) == s
  {
    if Simulations in s.catalog then s.(simulations := s.simulations + {c}) else s
  }

  /** Saving the same day twice leaves one row. */
  lemma UpsertCheckpointIdempotent(s: Store, c: Checkpoint)
    ensures UpsertCheckpoint(UpsertCheckpoint(s, c), c) == UpsertCheckpoint(s, c)
  {
  }

  /** SQL `a = b`: false whenever either side is NULL. */
  predicate SqlEq<T(==)>(a: Option<T>, b: Option<T>) {
    a.Some? && b.Some? && a.value == b.value
  }

  /** The WHERE clause of the find step of `save_position`: all five
      columns compared with `=`. */
  function SameTrade(pair: string, buyDate: Day, buyPrice: Real, sellDate: Option<Day>, sellPrice: Option<Real>): PositionRow -> bool
  {
    (row: PositionRow) => row.pair == pair && row.buyDate == buyDate && row.buyPrice == buyPrice
                          && SqlEq(row.sellDate, sellDate) && SqlEq(row.sellPrice, sellPrice)
  }

  function TradeOf(draft: PositionRow): PositionRow -> bool {
    SameTrade(draft.pair, draft.buyDate, draft.buyPrice, draft.sellDate, draft.sellPrice)
  }

  /** An INSERT into `positions`: the row gets the next AUTOINCREMENT id. */
  function Insert(s: Store, draft: PositionRow): (r: Store)
    ensures r.positions == s.positions + [draft.(id := s.nextId)] && r.nextId == s.nextId + 1
    ensures r.(positions := s.positions, nextId := s.nextId) == s
  {
    s.(positions := s.positions + [draft.(id := s.nextId)], nextId := s.nextId + 1)
  }

  /** The state after a save and the id it returns (None on sqlite3.Error). */
  datatype Saved = Saved(store: Store, id: Option<nat>)

  /** `save_position` of `manager.py` and of `positions.py`: return the id of
      the first row equal on the five trade columns; otherwise insert `draft`
      and return its new id. `needed` are the differing columns the INSERT
      names: when the table lacks one, the INSERT raises and None is
      returned. Without a `positions` table the SELECT raises. */
  function FindOrInsert(s: Store, draft: PositionRow, needed: set<Column>): (r: Saved)
    ensures r.id.None? ==> r.store == s
    ensures r.id.None? <==> s.positionsColumns.None? || (FirstWhere(s.positions, TradeOf(draft)).None? && !s.HasColumns(needed))
    ensures r.store == s && r.id.Some? ==>
      exists i :: 0 <= i < |s.positions| && s.positions[i].id == r.id.value && TradeOf(draft)(s.positions[i])
    ensures r.store != s ==>
      && (forall i :: 0 <= i < |s.positions| ==> !TradeOf(draft)(s.positions[i]))
      && r.store == Insert(s, draft) && r.id == Some(s.nextId)
  {
    if s.positionsColumns.None? then Saved(s, None)
    else match FirstWhere(s.positions, TradeOf(draft))
      case Some(k) => Saved(s, Some(s.positions[k].id))
      case None =>
        if s.HasColumns(needed) then
          var r := Insert(s, draft);
          assert |r.positions| != |s.positions|;
          Saved(r, Some(s.nextId))
        else Saved(s, None)
  }

  /** An inserted id is fresh (no earlier row has it) and the store stays
      well formed. */
  lemma FindOrInsertValid(s: Store, draft: PositionRow, needed: set<Column>)
    requires s.Valid()
    ensures FindOrInsert(s, draft, needed).store.Valid()
    ensures var r := FindOrInsert(s, draft, needed);
      r.store != s ==> forall i :: 0 <= i < |s.positions| ==> s.positions[i].id != r.id.value
  {
  }

  /** SQL `sell_date = NULL` never holds, so saving an open position always
      inserts a new row when the table has the needed columns. */
  lemma OpenPositionAlwaysInserts(s: Store, draft: PositionRow, needed: set<Column>)
    requires draft.sellDate.None? || draft.sellPrice.None?
    requires s.HasColumns(needed)
    ensures FindOrInsert(s, draft, needed).store == Insert(s, draft)
  {
    FirstWhereNone(s.positions, TradeOf(draft));
  }

  /** Saving a closed position a second time returns the same id and
      inserts nothing. */
  lemma SaveClosedTwice(s: Store, draft: PositionRow, needed: set<Column>)
    requires draft.sellDate.Some? && draft.sellPrice.Some?
    requires FindOrInsert(s, draft, needed).id.Some?
    ensures var once := FindOrInsert(s, draft, needed);
      FindOrInsert(once.store, draft, needed) == once
  {
    var once := FindOrInsert(s, draft, needed);
    if once.store != s {
      var row := draft.(id := s.nextId);
      assert TradeOf(draft)(row);
      FirstWhereAfter(s.positions, [row], TradeOf(draft));
    }
  }

  /** Column names `column_1` .. `column_n` of a capital table. */
  function CapitalColumns(n: nat): (cols: seq<string>)
    ensures |cols| == n
    ensures forall i :: 0 <= i < n ==> cols[i] == "column_" + Show(i + 1)
  {
    seq(n, i => "column_" + Show(i + 1))
  }

  /** No two capital columns share a name. */
  lemma CapitalColumnsDistinct(n: nat)
    ensures forall i, j :: 0 <= i < j < n ==> CapitalColumns(n)[i] != CapitalColumns(n)[j]
  {
    forall i, j | 0 <= i < j < n
      ensures CapitalColumns(n)[i] != CapitalColumns(n)[j]
    {
      assert CapitalColumns(n)[i][7..] == Show(i + 1);
      assert CapitalColumns(n)[j][7..] == Show(j + 1);
      if Show(i + 1) == Show(j + 1) {
        ShowInjective(i + 1, j + 1);
      }
    }
  }

  /** `create_funds_table` once `int(percent)` has given `p`: a percent
      `<= 0` or an existing `funds_<name>` table leaves the database alone; a
      percent above 100 gives zero capital columns, a CREATE statement SQLite
      rejects (logged); otherwise an empty table with `100 // p` capital
      columns (Python's `//` floors, as Dafny's `/` does for `p > 0`). */
  function CreateFundsTableFor(s: Store, name: string, p: int): (r: Store)
    ensures r != s ==>
      && p > 0 && 100 / p >= 1
      && FundsTableName(name) !in s.fundTables
      && r == s.(fundTables := s.fundTables[FundsTableName(name) := FundsTable(CapitalColumns(100 / p), [])])
  {
    if p <= 0 || FundsTableName(name) in s.fundTables || 100 / p == 0 then s
    else s.(fundTables := s.fundTables[FundsTableName(name) := FundsTable(CapitalColumns(100 / p), [])])
  }

  /** A new capital table has no rows, so the store stays well formed. */
  lemma CreateFundsTableForValid(s: Store, name: string, p: int)
    requires s.Valid()
    ensures CreateFundsTableFor(s, name, p).Valid()
  {
  }

  /** `create_funds_table(name, percent)`: `int(percent)` sits outside the
      try, so text that is not an integer raises ValueError to the caller. */
  function CreateFundsTableSpec(s: Store, name: string, percentText: string): (r: Effect)
    ensures r.raised <==> ParseInt(percentText).None?
    ensures r.raised ==> r.store == s
  {
    match ParseInt(percentText)
    case None => Effect(s, true)
    case Some(p) => Effect(CreateFundsTableFor(s, name, p), false)
  }

  /** A positive percent of at most 100 creates the missing table, with
      `100 // percent` columns. */
  lemma CreateFundsTableCreates(s: Store, name: string, p: int)
    requires 0 < p <= 100
    requires FundsTableName(name) !in s.fundTables
    ensures var r := CreateFundsTableFor(s, name, p);
      FundsTableName(name) in r.fundTables && |r.fundTables[FundsTableName(name)].columns| == 100 / p
  {
  }

  /** The columns `get_positions_for_simulation` selects. */
  datatype PositionView = PositionView(
    pair: string, buyDate: Day, buyPrice: Real,
    sellDate: Option<Day>, sellPrice: Option<Real>,
    buyIndex: Option<int>, sellIndex: Option<int>,
    duration: Option<int>, ratio: Option<Real>,
    buySignals: Option<Signals>, sellSignals: Option<Signals>)

  function View(r: PositionRow): PositionView {
    PositionView(r.pair, r.buyDate, r.buyPrice, r.sellDate, r.sellPrice,
                 r.buyIndex, r.sellIndex, r.duration, r.ratio, r.buySignals, r.sellSignals)
  }

  predicate InWindow(l: Link, name: string, start: Day, end: Day) {
    l.name == name && l.start >= start && l.end <= end
  }

  /** `get_positions_for_simulation` of `manager.py` and `positions.py`:
      the DISTINCT selected columns of every position linked to `name` by a
      link with `start_ts >= start` and `end_ts <= end`. The SELECT names
      `buy_signals` and `sell_signals`, so it raises (and None is returned)
      when `positions` lacks them or a table is missing. */
  function PositionsForSimulation(s: Store, name: string, start: Day, end: Day): (r: Option<set<PositionView>>)
    ensures r.None? <==> !s.HasColumns(SignalColumns) || SimulationPositions !in s.catalog
    ensures r.Some? ==> forall v :: v in r.value <==>
      exists i, l :: 0 <= i < |s.positions| && l in s.links && l.positionId == s.positions[i].id
                     && InWindow(l, name, start, end) && v == View(s.positions[i])
  {
    if !s.HasColumns(SignalColumns) || SimulationPositions !in s.catalog then None
    else Some(set i, l | 0 <= i < |s.positions| && l in s.links && l.positionId == s.positions[i].id
                         && InWindow(l, name, start, end) :: View(s.positions[i]))
  }

  /** Widening the window never loses a position. */
  lemma PositionsForSimulationWiden(s: Store, name: string, start: Day, end: Day, start': Day, end': Day)
    requires start' <= start && end <= end'
    requires PositionsForSimulation(s, name, start, end).Some?
    ensures PositionsForSimulation(s, name, start', end').Some?
    ensures PositionsForSimulation(s, name, start, end).value <= PositionsForSimulation(s, name, start', end').value
  {
  }

  /** The connection's view of the database file: one field per table. */
  class DatabaseManager {
    var catalog: set<TableName>
    var positionsColumns: Option<set<Column>>
    var simulations: set<Checkpoint>
    var positions: seq<PositionRow>
    var nextId: nat
    var links: set<Link>
    var funds: seq<FundRow>
    var nextFundId: nat
    var fundTables: map<string, FundsTable>

    function Snapshot(): Store
      reads this
    {
      Store(catalog, positionsColumns, simulations, positions, nextId, links, funds, nextFundId, fundTables)
    }

    ghost predicate Valid()
      reads this
    {
      Snapshot().Valid()
    }

    /** The tables `create_tables` makes exist; nothing in the core drops a
        table, so this holds for the manager's whole life. */
    predicate Ready()
      reads this
    {
      Snapshot().Ready()
    }

    /** `DatabaseManager(db_path)` on a file holding `file`: connect, then
        `create_tables`. */
    constructor (file: Store)
      requires file.Valid()
      ensures Valid() && Ready() && Snapshot() == CreateManagerTables(file)
    {
      catalog, positionsColumns, simulations := file.catalog, file.positionsColumns, file.simulations;
      positions, nextId, links := file.positions, file.nextId, file.links;
      funds, nextFundId, fundTables := file.funds, file.nextFundId, file.fundTables;
      new;
      CreateTables();
    }

    method CreateTables()
      modifies this
      ensures Snapshot() == CreateManagerTables(old(Snapshot()))
    {
      catalog := catalog + {Simulations, SimulationPositions};
      if positionsColumns.None? {
        positionsColumns := Some(ManagerColumns);
      }
    }

    method SaveSimulationData(name: string, start: Day, end: Day)
      requires Valid()
      modifies this
      ensures Valid()
      ensures Snapshot() == UpsertCheckpoint(old(Snapshot()), Checkpoint(name, start, end))
    {
      if Simulations in catalog {
        simulations := simulations + {Checkpoint(name, start, end)};
      }
    }

    /** The row this method inserts leaves `fund_slot` NULL. */
    method SavePosition(pair: string, buyDate: Day, buyPrice: Real, sellDate: Option<Day>, sellPrice: Option<Real>,
                        buyIndex: Option<int>, sellIndex: Option<int>, duration: Option<int>, ratio: Option<Real>,
                        buySignals: Option<Signals>, sellSignals: Option<Signals>) returns (id: Option<nat>)
      requires Valid()
      modifies this
      ensures Valid()
      ensures Saved(Snapshot(), id) == FindOrInsert(old(Snapshot()),
        PositionRow(0, pair, buyDate, buyPrice, sellDate, sellPrice, buyIndex, sellIndex, duration, ratio,
                    buySignals, sellSignals, None), SignalColumns)
    {
      var draft := PositionRow(0, pair, buyDate, buyPrice, sellDate, sellPrice, buyIndex, sellIndex, duration, ratio,
                               buySignals, sellSignals, None);
      FindOrInsertValid(Snapshot(), draft, SignalColumns);
      if positionsColumns.None? {
        return None;
      }
      var found := FirstWhere(positions, TradeOf(draft));
      if found.Some? {
        id := Some(positions[found.value].id);
      } else if SignalColumns <= positionsColumns.value {
        id := Some(nextId);
        positions := positions + [draft.(id := nextId)];
        nextId := nextId + 1;
      } else {
        id := None;
      }
    }

    method CreateFundsTable(name: string, percentText: string) returns (raised: bool)
      requires Valid()
      modifies this
      ensures Valid()
      ensures Effect(Snapshot(), raised) == CreateFundsTableSpec(old(Snapshot()), name, percentText)
    {
      var percent := ParseInt(percentText);
      if percent.None? {
        return true;
      }
      raised := false;
      var p := percent.value;
      CreateFundsTableForValid(Snapshot(), name, p);
      if p <= 0 || FundsTableName(name) in fundTables {
        return;
      }
      var columnCount := 100 / p;
      if columnCount == 0 {
        return;
      }
      fundTables := fundTables[FundsTableName(name) := FundsTable(CapitalColumns(columnCount), [])];
    }

    method GetPositionsForSimulation(name: string, start: Day, end: Day) returns (r: Option<set<PositionView>>)
      ensures r == PositionsForSimulation(Snapshot(), name, start, end)
    {
      r := PositionsForSimulation(Snapshot(), name, start, end);
    }
  }
}
