/** The SQLite database of the simulator as one value: the rows of every
    table the core reads or writes, the AUTOINCREMENT counters, and which
    tables (and, for `positions`, which columns) exist. */
module Store {
  import opened Common

  /** Buy and sell signal annotations of a position: a missing key, the
      empty list, any other JSON value given by its JSON text, or the text
      `json.dumps(v)` of a value `v`. */
  datatype Signals = Absent | EmptyList | Payload(json: string) | Dumped(inner: Signals)

  /** `json.dumps(d.get(key, []))`: a missing key dumps the empty list, and
      any present value (dumped text included) is itself what is dumped. */
  function Dumps(s: Signals): (r: Signals)
    ensures s.Absent? ==> r == Dumped(EmptyList)
    ensures !s.Absent? ==> r == Dumped(s)
  {
    Dumped(if s.Absent? then EmptyList else s)
  }

  /** A position as the strategy API reports it (a Python dict, `pair`
      added by the fetcher). */
  datatype ApiPosition = ApiPosition(
    pair: string, buyDate: Day, buyPrice: Real,
    sellDate: Option<Day>, sellPrice: Option<Real>,
    buyIndex: Option<int>, sellIndex: Option<int>,
    duration: Option<int>, ratio: Option<Real>,
    buySignals: Signals, sellSignals: Signals)

  /** The columns on which the two `CREATE TABLE positions` statements of
      the repository differ; the columns they share are always present. */
  datatype Column =
    | SimulationNameCol | FundSlotCol
    | BuySignalsCol | SellSignalsCol
    | BuySignalCol | SellSignalCol

  /** The differing columns of `positions` as `DatabaseManager.create_tables`
      declares it. */
  const ManagerColumns: set<Column> := {BuySignalsCol, SellSignalsCol}

  /** The differing columns of `positions` as `tables.create_tables`
      declares it. */
  const TablesColumns: set<Column> := {SimulationNameCol, FundSlotCol, BuySignalCol, SellSignalCol}

  /** Columns that the signal-writing statements name. */
  const SignalColumns: set<Column> := {BuySignalsCol, SellSignalsCol}

  /** A row of `positions`; a column the row's table lacks reads as NULL. */
  datatype PositionRow = PositionRow(
    id: nat, pair: string, buyDate: Day, buyPrice: Real,
    sellDate: Option<Day>, sellPrice: Option<Real>,
    buyIndex: Option<int>, sellIndex: Option<int>,
    duration: Option<int>, ratio: Option<Real>,
    buySignals: Option<Signals>, sellSignals: Option<Signals>,
    fundSlot: Option<int>)

  /** A row of `simulations`: one processed day of a simulation. */
  datatype Checkpoint = Checkpoint(name: string, start: Day, end: Day)

  /** A row of `simulation_positions`: a position linked to a processed day. */
  datatype Link = Link(name: string, start: Day, end: Day, positionId: nat)

  /** A row of the shared `funds` table of `tables.py`. */
  datatype FundRow = FundRow(id: nat, name: string, slot: int, lastPositionId: Option<nat>, capital: Real)

  /** A row of a per-simulation `funds_<name>` table. */
  datatype FundsLine = FundsLine(start: Day, end: Day, capitals: seq<Option<Real>>, benefits: Option<Real>)

  /** A `funds_<name>` table: its capital column names and its rows. */
  datatype FundsTable = FundsTable(columns: seq<string>, lines: seq<FundsLine>)

  /** The fixed tables other than `positions`. */
  datatype TableName = Simulations | SimulationPositions | Funds

  datatype Store = Store(
    catalog: set<TableName>,
    positionsColumns: Option<set<Column>>,
    simulations: set<Checkpoint>,
    positions: seq<PositionRow>,
    nextId: nat,
    links: set<Link>,
    funds: seq<FundRow>,
    nextFundId: nat,
    fundTables: map<string, FundsTable>)
  {
    /** What SQLite guarantees of the file: rowids ascend in scan order and
        stay below the AUTOINCREMENT counter, and `(start_ts, end_ts)` is the
        primary key of every `funds_<name>` table. */
    ghost predicate Valid() {
      && (forall i, j :: 0 <= i < j < |positions| ==> positions[i].id < positions[j].id)
      && (forall i :: 0 <= i < |positions| ==> positions[i].id < nextId)
      && (forall i, j :: 0 <= i < j < |funds| ==> funds[i].id < funds[j].id)
      && (forall i :: 0 <= i < |funds| ==> funds[i].id < nextFundId)
      && (forall t :: t in fundTables ==> KeyedByDays(fundTables[t].lines))
    }

    /** The tables `DatabaseManager.create_tables` creates exist. */
    predicate Ready() {
      Simulations in catalog && SimulationPositions in catalog && positionsColumns.Some?
    }

    /** The `positions` table exists and has every column in `needed`. */
    predicate HasColumns(needed: set<Column>) {
      positionsColumns.Some? && needed <= positionsColumns.value
    }
  }

  /** A state together with whether the operation let an exception escape
      to its caller. */
  datatype Effect = Effect(store: Store, raised: bool)

  /** No two lines share `(start_ts, end_ts)`. */
  ghost predicate KeyedByDays(lines: seq<FundsLine>) {
    forall i, j :: 0 <= i < j < |lines| ==> (lines[i].start, lines[i].end) != (lines[j].start, lines[j].end)
  }

  /** The name of the capital table of a simulation. */
  function FundsTableName(name: string): string { "funds_" + name }
}
