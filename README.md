# Position bookkeeping of the smartswap simulator

The simulator replays trading strategies one day at a time and keeps its
results in an SQLite file. This project models the position bookkeeping layer
of that simulator and proves properties of it:

- the daily catch-up of `simulates`, which resumes at the last recorded day,
  records each day, find-or-inserts that day's positions and links them to the
  day;
- the reconciliation in `get_positions`, which matches the stored positions of
  the previous day with the positions the strategy API reports now, marks the
  fund slots of positions that are still open, closes stored positions from
  newer data, and admits new positions up to the slot cap;
- the table operations: two `create_tables`, `initialize_funds`, the two
  `save_position` find-or-inserts, the checkpoint upsert, update and delete,
  `create_funds_table`, and the filtered reads;
- the uptime text and the title truncation of the Discord embeds.

The database is one value, `Store.Store`, with one field per table:

- `simulations` and `simulation_positions` have every column in their primary
  key, so they are sets;
- `positions` and `funds` are sequences in rowid order, each with an
  AUTOINCREMENT counter;
- the `funds_<name>` capital tables are a map from table name to table.

The class `Manager.DatabaseManager` holds the same tables as fields. Each
operation of the source is a method on that class, or a method that takes the
manager. Its `ensures` ties the new `Snapshot()` to a pure function of the old
one, and the properties are lemmas about those functions.

The repository has two `CREATE TABLE positions` statements:
`src/db/manager.py:39-51` and `src/db/tables.py:12-26`. They disagree on
columns. The store records which of the disputed columns exist
(`positionsColumns`). A statement that names a missing column fails with
`sqlite3.Error` exactly as SQLite would make it fail.

Days are day numbers. `%Y-%m-%d` text orders chronologically, and
`timedelta(days=1)` is `+ 1`. Prices, ratios and capitals are compared only for
equality, so their numeric value is not modelled. Signal JSON is opaque.

Modules, one per file:

- `Common` (`common.dfy`): options, Python `int(a / b)`, list indexing,
  `[False] * n`, first match and filter.
- `Decimal` (`decimal.dfy`): `str(n)` and `int(text)`.
- `Store` (`store.dfy`): rows and tables.
- `Manager` (`manager.dfy`): `src/db/manager.py`.
- `Tables` (`tables.dfy`): `src/db/tables.py`.
- `SimulationDb` (`simulation_db.dfy`): `src/db/simulation.py`.
- `FundsDb` (`funds.dfy`): `src/db/funds.py`.
- `PositionsDb` (`positions_db.dfy`): `src/db/positions.py`.
- `Reconciliation` (`reconcile.dfy`): `src/simulation/positions.py`.
- `Driver` (`driver.dfy`): `src/simulation/simulates.py`.
- `Embeds` (`embeds.dfy`): the identical helpers of `src/discord/embeds.py`
  and `discord_bot/embeds.py`.

## Model

| member | source | states |
|---|---|---|
| Common.TruncDiv | src/simulation/positions.py:33 | `int(100 / p)` truncates toward zero: its magnitude is the floor of the magnitudes' quotient, and its sign is the sign of the true quotient |
| Common.PyIndex | src/simulation/positions.py:57 | a list index designates a cell exactly when it is in `[-n, n)`; a negative index counts from the end |
| Common.Falses | src/simulation/positions.py:34 | `[False] * n` has `n` cells for positive `n` and none otherwise, all False |
| Common.FirstWhere | src/simulation/positions.py:51-59 | the found index satisfies the condition and no earlier element does; None means that no element does |
| Common.FirstWhereExtend | src/simulation/positions.py:51-59 | appending elements keeps a first match that already exists |
| Common.FirstWhereAfter | src/simulation/simulates.py:67-72 | with no match in a prefix, the first match lies in the appended part |
| Common.Filter | src/db/funds.py:30-32 | a WHERE keeps exactly the rows satisfying the condition and never adds one |
| Common.Search | src/simulation/positions.py:51-59 | the scanning loop with `break` returns exactly the first match |
| Decimal.ShowNat | src/db/manager.py:132 | `str(n)` of a natural number is non-empty digit text with no leading zero, and its value is `n` |
| Decimal.ParseInt | src/db/manager.py:119 | `int(text)` succeeds only on integer text (ASCII digits after an optional sign); plain digits read as their decimal value, and a signed text as the signed value of its digits |
| Decimal.ParseShow | src/db/manager.py:119 | `int(str(n)) == n` for every integer |
| Decimal.ShowInjective | src/db/manager.py:132 | distinct numbers have distinct decimal texts |
| Embeds.Split | src/discord/embeds.py:37-38 | minutes and seconds lie in `[0, 60)`, and `hours*3600 + minutes*60 + seconds` is the input, for negative inputs too |
| Embeds.SplitUnique | discord_bot/embeds.py:27-28 | the floored split is the only split with minutes and seconds in `[0, 60)` |
| Embeds.FormatTime | src/discord/embeds.py:30-39 | the text has the form `"<h>h <m>m <s>s"`; reading it back gives the floored split of the input, so the text determines the duration |
| Embeds.FormatTimeExample | discord_bot/embeds.py:25 | `format_time(3665)` is `"1h 1m 5s"` |
| Embeds.TruncateTitle | src/discord/embeds.py:49-50 | a title over 256 characters becomes its first 253 plus `"..."`, exactly 256 long; a shorter title is unchanged |
| Embeds.TruncateTitleIdempotent | discord_bot/embeds.py:39-40 | truncating twice is truncating once |
| Store.Dumps | src/simulation/positions.py:77-78 | `json.dumps(d.get(k, []))` is the dumped text of the value under the key, and of the empty list when the key is missing |
| Manager.CreateManagerTables | src/db/manager.py:27-63 | the catalog gains exactly `simulations` and `simulation_positions`, and `positions` exists afterwards; an existing `positions` keeps its columns, a new one has the manager's columns; no row and no other table changes |
| Manager.CreateManagerTablesIdempotent | src/db/manager.py:32-61 | `CREATE TABLE IF NOT EXISTS` twice is once |
| Manager.UpsertCheckpoint | src/db/manager.py:73-75 | after `INSERT OR REPLACE` the triple is present and no other row changes; without the table nothing changes |
| Manager.UpsertCheckpointIdempotent | src/db/manager.py:36 | saving the same triple twice leaves one row |
| Manager.Insert | src/db/manager.py:107-111 | an INSERT appends one row carrying the next AUTOINCREMENT id and bumps the counter |
| Manager.FindOrInsert | src/db/manager.py:101-116 | returns an existing id when a row matches on all five columns under SQL `=`, inserting nothing; otherwise it inserts exactly one row and returns its new id; it returns None and changes nothing exactly when the SELECT or the INSERT fails |
| Manager.FindOrInsertValid | src/db/manager.py:111 | an inserted id is fresh, and rowids stay ascending |
| Manager.OpenPositionAlwaysInserts | src/db/manager.py:101-102 | a NULL sell date or sell price never matches, so saving an open position always inserts |
| Manager.SaveClosedTwice | src/db/manager.py:101-113 | saving a closed position again returns the same id and inserts nothing |
| Manager.CapitalColumns | src/db/manager.py:132 | there are `n` capital columns, named `column_1` to `column_n` in order |
| Manager.CapitalColumnsDistinct | src/db/manager.py:132 | no two capital columns share a name |
| Manager.CreateFundsTableFor | src/db/manager.py:119-146 | the database changes only when `p > 0`, `100 // p >= 1` and `funds_<name>` did not exist; the change is an empty table with `100 // p` capital columns |
| Manager.CreateFundsTableForValid | src/db/manager.py:140 | a new capital table keeps every table keyed by `(start_ts, end_ts)` |
| Manager.CreateFundsTableSpec | src/db/manager.py:119 | ValueError escapes exactly when the percent is not integer text, and the database is then unchanged |
| Manager.CreateFundsTableCreates | src/db/manager.py:131-140 | for a percent in `1..100` the missing table is created with `100 // percent` capital columns |
| Manager.PositionsForSimulation | src/db/manager.py:159-170 | the result is exactly the distinct selected columns of the positions linked to the name by a link with `start_ts >= start` and `end_ts <= end`; None exactly when a table or a signal column is missing |
| Manager.PositionsForSimulationWiden | src/db/manager.py:164 | widening the window never loses a position |
| Manager.DatabaseManager.constructor | src/db/manager.py:17-25 | the new manager holds the file with the core tables created, and is ready and well formed |
| Manager.DatabaseManager.CreateTables | src/db/manager.py:27-63 | the new state is the file after `CREATE TABLE IF NOT EXISTS` |
| Manager.DatabaseManager.SaveSimulationData | src/db/manager.py:65-79 | the new state is the checkpoint upsert of the old one |
| Manager.DatabaseManager.SavePosition | src/db/manager.py:81-116 | the new state and the id are the find-or-insert of the old state, with `fund_slot` NULL |
| Manager.DatabaseManager.CreateFundsTable | src/db/manager.py:118-146 | the new state and whether ValueError escaped are those of `create_funds_table` |
| Manager.DatabaseManager.GetPositionsForSimulation | src/db/manager.py:148-170 | returns the filtered read and changes nothing |
| Tables.CreateTablesSpec | src/db/tables.py:11-35 | the catalog gains exactly `funds`, and `positions` exists afterwards; an existing `positions` keeps its columns, a new one has the columns of `tables.py`; no row and no other table changes |
| Tables.CreateTablesIdempotent | src/db/tables.py:12 | running `create_tables` twice is running it once |
| Tables.CreateTables | src/db/tables.py:11-35 | the new state is the file after the two `CREATE TABLE IF NOT EXISTS` |
| Tables.AddFund | src/db/tables.py:49-53 | the inserted row has the next id, a NULL `last_position_id` and the given capital |
| Tables.InitializeFundsSpec | src/db/tables.py:37-54 | a missing `funds` table raises exactly when the loop runs; `max_fund_slots <= 0` changes nothing |
| Tables.InitializeFunds | src/db/tables.py:37-54 | the loop ends in the state of `initialize_funds`, and the rowids stay ascending |
| Tables.FillSlots | src/db/tables.py:38-53 | the loop over slots `1..max` touches only the `funds` rows and their counter |
| Tables.FillSlotsRows | src/db/tables.py:40-53 | existing rows stay in place, unchanged; each new row belongs to the simulation, has no last position, holds the capital, and fills a slot in `1..max` that had no row |
| Tables.FillSlotsCovers | src/db/tables.py:38-53 | afterwards every slot `1..max` of the simulation has a row |
| Tables.FillSlotsNoop | src/db/tables.py:40-47 | when every slot already has a row, nothing is inserted |
| Tables.InitializeFundsIdempotent | src/db/tables.py:37-54 | a second call, even with another capital, changes nothing |
| Tables.AddFundValid | src/db/tables.py:49-53 | an insert keeps fund ids ascending below the counter |
| Tables.FillSlotsValid | src/db/tables.py:38-53 | the loop keeps fund ids ascending below the counter |
| SimulationDb.Named | src/db/simulation.py:14 | exactly the checkpoint rows of the name |
| SimulationDb.UpdateSimulationSpec | src/db/simulation.py:12-19 | rows of other names never change; the table changes only when the name has exactly one row, which moves to the new days; two or more rows collide on the key, and a missing table fails the UPDATE, so nothing changes |
| SimulationDb.UpdateSimulationOrphansLinks | src/db/simulation.py:13-15 | moving a simulation leaves the links of its old days pointing at a checkpoint that no longer exists |
| SimulationDb.DeleteSimulationSpec | src/db/simulation.py:29-37 | the triple's checkpoint and all its links are removed; other triples and `positions` are untouched; a failing first DELETE skips the second |
| SimulationDb.DeleteSimulationIdempotent | src/db/simulation.py:30-33 | deleting twice is deleting once |
| SimulationDb.UpdateSimulationData | src/db/simulation.py:4-19 | the new state is that of `update_simulation_data` |
| SimulationDb.DeleteSimulation | src/db/simulation.py:21-37 | the new state is that of `delete_simulation` |
| SimulationDb.SaveSimulationData | src/db/simulation.py:40-54 | the new state is the checkpoint upsert of the old one |
| FundsDb.FundRowsByTimestamp | src/db/funds.py:15-41 | None exactly when `funds_<name>` does not exist; otherwise exactly the lines with the given `start_ts` and `end_ts` |
| FundsDb.KeyedFilterAtMostOne | src/db/funds.py:30-32 | on a table keyed by `(start_ts, end_ts)` at most one line matches |
| FundsDb.FundRowsAtMostOne | src/db/funds.py:30-32 | the read returns at most one row |
| FundsDb.GetFundRowsByTimestamp | src/db/funds.py:15-41 | on the manager's current tables, returns `get_fund_rows_by_timestamp`'s read; it may modify nothing |
| PositionsDb.FetchPositionsFromDatabase | src/db/positions.py:18-36 | exactly the rows linked to the simulation at the previous day; None exactly when a table or a signal column is missing |
| PositionsDb.CloseRow | src/db/positions.py:49-61 | a closed row keeps its id, pair, buy date, buy price and fund slot, takes the sell date and price of the previous position, and stores its signal texts |
| PositionsDb.UpdatePosition | src/db/positions.py:49-61 | only the row whose id is `old_position[0]` changes, and only in the eight SET columns; pair, buy date, buy price and fund slot never change |
| PositionsDb.ReadBack | src/db/positions.py:65-71 | a row is read back exactly when one has the id |
| PositionsDb.UpdatePositionsInDatabase | src/db/positions.py:38-89 | the new state is the UPDATE; a closed position is reported only when the UPDATE could run |
| PositionsDb.ReadBackReflectsUpdate | src/db/positions.py:65-84 | the reported position carries the new sell date, sell price, signals, ratio and duration, with the row's own pair, buy date and buy price |
| PositionsDb.UpdatePositionValid | src/db/positions.py:49-61 | the update keeps rowids ascending |
| PositionsDb.SavePositionNeverInsertsUnderEitherLayout | src/db/positions.py:141-149 | under either `positions` layout the INSERT names a missing column, so a new position yields None and no row |
| PositionsDb.SavePositionStoresFundSlot | src/db/positions.py:141-146 | on a table with every column, the inserted row stores the given `fund_slot` and its new id is returned |
| PositionsDb.FetchPositions | src/db/positions.py:18-36 | returns the read and changes nothing |
| PositionsDb.UpdatePositions | src/db/positions.py:38-89 | the new state and the reported position are those of the update |
| PositionsDb.GetPositionsForSimulation | src/db/positions.py:91-113 | returns the filtered read, with None on error, and changes nothing |
| PositionsDb.SavePosition | src/db/positions.py:115-149 | the new state and the id are the find-or-insert on the five columns, with the fund slot in the new row |
| Reconciliation.Put | src/simulation/positions.py:56 | after `d[k] = v` the key is held; an existing key keeps its place and a new key goes last |
| Reconciliation.Values | src/simulation/positions.py:93 | the values of the dictionary, in insertion order |
| Reconciliation.PutWellKeyed | src/simulation/positions.py:56 | assigning a value under its own key keeps keys unique and keeps every key |
| Reconciliation.Encode | src/simulation/positions.py:77-78 | the key and the sell fields are kept, and both signal fields become dumped text |
| Reconciliation.AdmitOne | src/simulation/positions.py:71-79 | one admission step appends at most one entry, keeps the held ones, and appends only when there is room, the key is new and the position is dated `end_ts`, then as that position encoded; with room, a position dated `end_ts` has its key held afterwards |
| Reconciliation.Admit | src/simulation/positions.py:70-79 | the admission loop; its properties are the lemmas `AdmitAppends` to `AdmitRoomForAll` |
| Reconciliation.AdmitAppends | src/simulation/positions.py:70-79 | admission only appends; it never grows the dictionary beyond the cap; each appended entry is a current position dated `end_ts`, encoded |
| Reconciliation.AdmitWellKeyed | src/simulation/positions.py:72-79 | admission keeps keys unique |
| Reconciliation.AdmitKeepsKeys | src/simulation/positions.py:75 | a held key stays held |
| Reconciliation.AdmitComplete | src/simulation/positions.py:70-79 | if the cap is never reached, every current position dated `end_ts` has its key held |
| Reconciliation.AdmitRoomForAll | src/simulation/positions.py:83-90 | with room for all, every current position dated `end_ts` has its key held |
| Reconciliation.AdmitCurrent | src/simulation/positions.py:70-79 | the admission loop computes the admission |
| Reconciliation.OpenMatch | src/simulation/positions.py:52-55 | a stored position matches a current one when it is open and agrees on pair, buy date and buy price |
| Reconciliation.Agrees | src/simulation/positions.py:63-64 | a previous position agrees with a stored one on buy date and buy price; the pair is not compared |
| Reconciliation.CellInt | src/simulation/positions.py:57 | `int()` of a stored signal cell raises on NULL and on the dumped empty list, and reads integer JSON text as its value |
| Reconciliation.FundSlotRead | src/simulation/positions.py:57 | `old_position[10]` is the `buy_signals` cell of `SELECT p.*` under the only layout the read succeeds on, and the slot is `int()` of it |
| Reconciliation.FundSlotReadOfClosedRow | src/simulation/positions.py:57-67 | a row closed with `json.dumps(n)` of an integer `n` in `buy_signals` designates slot `n`; one closed with the empty list, or never closed, raises |
| Reconciliation.SlotCell | src/simulation/positions.py:57 | a cell is designated exactly when `int()` succeeded and `slot - 1` lies in `[-n, n)`; the designated cell lies inside the slot list |
| Reconciliation.ScanOld | src/simulation/positions.py:49-68 | a stored position matched by a current one puts the first matching current position under its key and touches neither the database nor the previous positions; an unmatched one changes no entry and no slot, and at most updates its own row once, from the first previous position that agrees on buy date and buy price, whose signals it dumps in place (again, if an earlier row already did) |
| Reconciliation.ScanAll | src/simulation/positions.py:49-68 | the loop keeps the lengths of the slot list and of the previous positions, and stops at the first exception |
| Reconciliation.ScanOldSlots | src/simulation/positions.py:52-57 | one iteration raises exactly when its matched position has no valid slot, and otherwise marks exactly the slot that position designates |
| Reconciliation.ScanAllRaises | src/simulation/positions.py:49-59 | the loop raises exactly when some matched stored position has no valid slot |
| Reconciliation.ScanAllSlots | src/simulation/positions.py:52-57 | a slot ends True exactly when it was True before or a matched stored position designates it |
| Reconciliation.ScanOldOnlyCloses | src/simulation/positions.py:61-68 | one iteration changes only close columns of its own row, and only when nothing matched it |
| Reconciliation.OnlyClosedThen | src/simulation/positions.py:49 | closes by the first stored position, then by the rest, are closes by all of them |
| Reconciliation.ScanAllOnlyCloses | src/simulation/positions.py:49-68 | the loop changes the database only by closing rows of unmatched stored positions, and keeps it well formed |
| Reconciliation.ScanAllEntries | src/simulation/positions.py:56 | the loop keeps keys unique and only puts in current positions as the API gave them |
| Reconciliation.PutKeeps | src/simulation/positions.py:56 | `d[k] = v` keeps every held key and holds no value but `v` that it did not hold before |
| Reconciliation.ScanAllKeepsKeys | src/simulation/positions.py:49-59 | the loop over stored positions never drops a key |
| Reconciliation.ScanAllContinuing | src/simulation/positions.py:49-59 | without an exception, the key of every matched current position is held, and every added value is a current position that some stored position matched |
| Reconciliation.Reconcile | src/simulation/positions.py:19-99 | a caught exception yields `([], [])`; a percent that is not integer text or is `"0"` is caught with no effect |
| Reconciliation.ScanOne | src/simulation/positions.py:50-68 | one iteration of the loop ends in the state, dictionary, slots and previous positions of `ScanOld` |
| Reconciliation.ScanStored | src/simulation/positions.py:49-68 | the loop over stored positions ends in the state, dictionary and slots of the scan |
| Reconciliation.GetPositions | src/simulation/positions.py:19-99 | the new state and the returned pair are those of `get_positions` |
| Reconciliation.ScanAllNoMatch | src/simulation/positions.py:50-59 | with no match, no entry is put and no slot is marked |
| Reconciliation.ValuesCarryKeys | src/simulation/positions.py:93 | every held key is the key of a returned position |
| Reconciliation.ReconcileSlotCount | src/simulation/positions.py:33-34 | for a positive percent `p` the slot list has `100 // p` cells |
| Reconciliation.ReconcileFreshBranch | src/simulation/positions.py:39-90 | when `end_ts - 2 days < start_ts_config` the database is neither read nor written and every slot stays False |
| Reconciliation.ReconcileKeysUnique | src/simulation/positions.py:56-90 | no key `(pair, buy_date, buy_price)` occurs twice in the result |
| Reconciliation.ReconcileSlotsMarked | src/simulation/positions.py:49-59 | in the resume branch a slot is True exactly when a matched stored position of the previous day designates it; the exception occurs exactly when such a position has no valid slot |
| Reconciliation.ReconcileHoldsMatchedKey | src/simulation/positions.py:49-93 | unless the exception is caught, the key of a matched current position is the key of a returned position, and that returned position is itself a matched current position |
| Reconciliation.ContinuesByKey | src/simulation/positions.py:51-59 | every stored open position with a given key is matched by the same current position, the first with that key |
| Reconciliation.ReconcileKeepsMatched | src/simulation/positions.py:49-93 | unless the exception is caught, every current position that a stored open position of the previous day matches is returned, as the API gave it |
| Reconciliation.ScannedRows | src/simulation/positions.py:39-41 | the stored positions scanned: those of the previous day in the resume branch, none in the fresh branch |
| Reconciliation.ReconcileProvenance | src/simulation/positions.py:49-93 | every returned position is either a current position that a scanned stored open position matched, as the API gave it, or a current position dated `end_ts` with its signals dumped |
| Reconciliation.AdmittedProvenance | src/simulation/positions.py:70-93 | admission after the scan returns only the continuing positions the scan put in and encoded current positions dated `end_ts` |
| Reconciliation.ReconcileUnmatchedDated | src/simulation/positions.py:70-90 | a returned position that continues no stored open position was bought on `end_ts` |
| Reconciliation.ReconcileOnlyCloses | src/simulation/positions.py:61-68 | the database changes only by closing rows of stored positions that nothing matched, and stays well formed |
| Reconciliation.MinusOneFreshAddsNothing | src/simulation/positions.py:80-90 | with percent `"-1"` the fresh branch returns nothing, because its cap is `-100` |
| Reconciliation.MinusOneMatchRaises | src/simulation/positions.py:57 | with percent `"-1"` the slot list is empty, so any matched stored position raises and `([], [])` is returned |
| Reconciliation.MinusOneAdmitsAll | src/simulation/positions.py:46-79 | with percent `"-1"` and no match, the resume branch caps at the number of current positions and returns every current position dated `end_ts` |
| Driver.MaxExists | src/simulation/simulates.py:35-37 | a finite non-empty set of days has a largest element |
| Driver.MaxEndExists | src/simulation/simulates.py:35-38 | `SELECT MAX(end_ts)` always has an answer |
| Driver.MaxEndUnique | src/simulation/simulates.py:35-38 | `SELECT MAX(end_ts)` has only one answer |
| Driver.MaxEnd | src/simulation/simulates.py:35-38 | the largest recorded `end_ts` of the simulation, or NULL when it has none |
| Driver.ResumeDay | src/simulation/simulates.py:35-44 | the first day is the largest recorded `end_ts` of the simulation, or `start_ts_config + 1 day` when it has none |
| Driver.Lenient | src/simulation/simulates.py:67 | the find step matches on pair, buy date and buy price, with a sell date and price that are equal or NULL in the row |
| Driver.LinkOne | src/simulation/simulates.py:67-85 | a found row is reused: no row is inserted or changed and its id is linked to the day; otherwise exactly one bare row is appended with the next id, which is linked; nothing else changes |
| Driver.LinkAll | src/simulation/simulates.py:59-85 | the loop over a day's positions; its properties are `LinkAllValid`, `LinkAllFrame`, `LinkAllSettles` and `LinkAllFixed` |
| Driver.DayStep | src/simulation/simulates.py:56-85 | record the day, then link its positions; see `DayStepSettles` and `DayStepIdempotent` |
| Driver.CatchUpFrom | src/simulation/simulates.py:47-87 | the loop over days; see the `CatchUp…` lemmas |
| Driver.RunConfig | src/simulation/simulates.py:24-87 | the catch-up of one configured simulation from its resume day; see `RunConfigResumesAtLast` and `RunConfigIdempotent` |
| Driver.Simulates | src/simulation/simulates.py:18-87 | every configured simulation in order; see `SimulatesValid` |
| Driver.LinkPosition | src/simulation/simulates.py:61-85 | the new state is that of `LinkOne`: reuse of the found row, or one bare insert with the next id, then the link |
| Driver.LinkPositions | src/simulation/simulates.py:59-85 | the new state is that of the loop over the day's positions |
| Driver.ProcessDay | src/simulation/simulates.py:56-87 | the day is recorded and then its positions are linked; the store stays ready and well formed |
| Driver.ResumePoint | src/simulation/simulates.py:35-44 | the first day is the largest recorded `end_ts` (processed again), else `start_ts_config + 1 day` |
| Driver.CatchUp | src/simulation/simulates.py:24-87 | the loop over days ends in the state of the catch-up from the resume day to the configured end (or today) |
| Driver.RunSimulations | src/simulation/simulates.py:18-87 | every configured simulation is caught up in configuration order |
| Driver.LinkAllValid | src/simulation/simulates.py:74-79 | linking keeps rowids ascending below the counter |
| Driver.LinkAllFrame | src/simulation/simulates.py:59-85 | linking keeps every stored row in place, appends only rows holding just pair and buy/sell date and price, and removes no link |
| Driver.LinkOneSettles | src/simulation/simulates.py:67-85 | after its iteration the find step finds a row for the position, and that row is linked to the day |
| Driver.SettledPersists | src/simulation/simulates.py:67-72 | appending rows and adding links keeps a position settled |
| Driver.LinkAllSettles | src/simulation/simulates.py:59-85 | after the loop every position of the day is stored and linked to the day |
| Driver.LinkAllFixed | src/simulation/simulates.py:67-85 | processing settled positions again adds no row and no duplicate link |
| Driver.DayStepSettles | src/simulation/simulates.py:56-85 | a processed day is recorded in `simulations`, and each of its positions is linked to it |
| Driver.DayStepIdempotent | src/simulation/simulates.py:56-85 | processing the same day twice with the same positions is processing it once |
| Driver.CatchUpFrame | src/simulation/simulates.py:47-87 | the catch-up adds only checkpoints of this simulation for days in `[resume, end]`; it keeps every stored row, appends only bare rows, removes no link, and touches no other table |
| Driver.CatchUpRecordsDays | src/simulation/simulates.py:47-87 | every day from the resume day to the end is recorded |
| Driver.CatchUpLinksEveryPosition | src/simulation/simulates.py:47-87 | every position of every processed day ends stored and linked to that day |
| Driver.CatchUpLastDayFixed | src/simulation/simulates.py:47-87 | after the catch-up, processing its last day again changes nothing |
| Driver.RunConfigResumesAtLast | src/simulation/simulates.py:35-56 | after a run that processed a day, the largest recorded `end_ts` is the last processed day |
| Driver.RunConfigIdempotent | src/simulation/simulates.py:35-87 | an immediate rerun processes only the last day again and changes nothing |
| Driver.SimulatesValid | src/simulation/simulates.py:18-87 | a run keeps the tables, the fund tables and ascending rowids |
| Driver.CatchUpValid | src/simulation/simulates.py:47-87 | the catch-up keeps rowids ascending below the counter |
| Driver.RunConfigAsWritten | src/simulation/simulates.py:47-61 | as written, a simulation with a day to process records that day and raises |
| Driver.SimulatesAsWritten | src/simulation/simulates.py:26-61 | as written, the first configuration with a day to process ends the run |
| Driver.SimulatesAsWrittenLinksNothing | src/simulation/simulates.py:59-61 | as written, a run stores no position and links nothing |
| Driver.RunConfigAsWrittenStuck | src/simulation/simulates.py:47-61 | as written, a simulation with a day to process raises on that day and keeps its resume day |
| Driver.AsWrittenNeverCatchesUp | src/simulation/simulates.py:48-61 | on a simulation more than one day behind, the run as written resumes earlier next time than the corrected run does |

## Left out

- The HTTP fetch of positions (`src/api/`) is network I/O. `get_positions` takes the two lists it returns as parameters `current` and `previous`.
- `get_positions` is not composed into the driver. `Driver` takes the positions of each day as an input `feed`, so the closing updates `get_positions` makes to `positions` are not part of `Driver.CatchUp`.
- Discord notification code is UI and network I/O. This covers the closed-position embed of `src/db/positions.py:85`, `send_embed`, the logs and `integ_logs`.
- The uptime clock (`time.time()`, `datetime.now()`) is a wall clock. `format_time` takes the number of seconds, and the driver takes `today` as a day number.
- `simulator.py`, the configuration files (`src/internal/mng.py`, the `configs.py` files) and logging are process startup and file I/O. A configured simulation is a `Driver.SimulationConfig` value.
- The async scheduling, `commit()` and connection handling are not modelled. Each function is one sequential step on the database. A statement that fails leaves no effect, and earlier statements in the same try keep theirs.
- Rows are not duplicated by SQL joins, and result order beyond rowid scan order is not modelled. Reads that return several rows through a join or DISTINCT are sets.
- The f-string table names of `create_funds_table` and `get_fund_rows_by_timestamp` are not checked for SQL injection. A name is used as given.
- A missing key in a Python dict (KeyError) and a malformed date string are excluded by the types. Every API position has every field, and dates are day numbers.
- Decimal.ParseInt: `int()` accepts surrounding whitespace, `_` separators and non-ASCII decimal digits (Arabic-Indic or full-width digits, for example), which this model rejects. A percent text in those forms is treated as not integer text.
- Reconciliation.Reconcile: takes `position_%_invest` as text, that is, a JSON string in the configuration. A JSON number there is not represented; a numeric `-1` would pass `int()` but fail the comparison with `"-1"`, leaving the cap at `-100`.
- Common.TruncDiv: `int(100 / p)` goes through a float quotient. The model uses exact arithmetic; for numerator 100 the float never rounds across an integer, so the two agree.
- Prices, ratios and capitals are floats in the source. Here they are opaque values compared only for equality, because the core never does arithmetic on them.
- Reconciliation.FundSlotRead: `old_position[10]` of `SELECT p.*, p.buy_signals, p.sell_signals` is `buy_signals` under the `manager.py` layout, the only layout on which that SELECT succeeds. A cell's text is modelled as the JSON text of its value. So a raw string value whose characters are integer text, stored as given by `src/db/manager.py:107-109`, raises in the model, while SQLite would hand `int()` that text and succeed.
- Driver.CatchUp: requires the tables `DatabaseManager` creates (`Ready`). The manager's constructor guarantees them and nothing in the core drops them. The failure of the link upsert on a missing `simulation_positions` table is not modelled.
- Driver.SimulatesAsWrittenLinksNothing: speaks of the driver's own writes. The closing updates of `get_positions` on each processed day are left out as above.

## Findings

| source | as written | input that shows it | evidently intended | confidence | as-written member | corrected member |
|---|---|---|---|---|---|---|
| src/simulation/simulates.py:48-61 | `positions = await get_positions(...)` binds the pair `(positions, fund_slots)` (or `([], [])` after an error). `for position in positions` then iterates that pair, so `position["pair"]` indexes a list with a string and raises TypeError on every processed day. This happens after the day's checkpoint is saved, and nothing catches it. | Any configured simulation whose resume day is not after its end, for example a fresh simulation with start day 0 and end day 5. Day 1 is recorded, then the loop raises. The next run resumes at day 1 again, and no position is ever stored or linked. | unpack `positions, fund_slots = await get_positions(...)` and loop over the positions of the day | high, not executed | Driver.AsWrittenNeverCatchesUp | Driver.CatchUp |
