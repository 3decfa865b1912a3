/** `src/db/funds.py`: reading the capital rows of one day range from the
    table `funds_<simulation>`. */
module FundsDb {
  import opened Common
  import opened Store
  import opened Manager

  /** `WHERE start_ts = ? AND end_ts = ?`. */
  function SameDays(start: Day, end: Day): FundsLine -> bool {
    (line: FundsLine) => line.start == start && line.end == end
  }

  /** `get_fund_rows_by_timestamp`: None when the table does not exist;
      otherwise the rows of the range, in scan order. */
  function FundRowsByTimestamp(s: Store, name: string, start: Day, end: Day): (r: Option<seq<FundsLine>>)
    ensures r.None? <==> FundsTableName(name) !in s.fundTables
    ensures r.Some? ==> forall line :: line in r.value <==>
      line in s.fundTables[FundsTableName(name)].lines && line.start == start && line.end == end
  {
    if FundsTableName(name) !in s.fundTables then None
    else Some(Filter(s.fundTables[FundsTableName(name)].lines, SameDays(start, end)))
  }

  /** With `(start_ts, end_ts)` as primary key, at most one row matches. */
  lemma {:induction false} KeyedFilterAtMostOne(lines: seq<FundsLine>, start: Day, end: Day)
    requires KeyedByDays(lines)
    ensures |Filter(lines, SameDays(start, end))| <= 1
  {
    if lines != [] {
      var rest := lines[1..];
      assert KeyedByDays(rest) by {
        forall i, j | 0 <= i < j < |rest|
          ensures (rest[i].start, rest[i].end) != (rest[j].start, rest[j].end)
        {
          assert rest[i] == lines[i + 1] && rest[j] == lines[j + 1];
        }
      }
      KeyedFilterAtMostOne(rest, start, end);
      if SameDays(start, end)(lines[0]) {
        forall i | 0 <= i < |rest|
          ensures !SameDays(start, end)(rest[i])
        {
          assert rest[i] == lines[i + 1];
        }
        FilterNone(rest, SameDays(start, end));
      }
    }
  }

  /** `get_fund_rows_by_timestamp` returns at most one row. */
  lemma FundRowsAtMostOne(s: Store, name: string, start: Day, end: Day)
    requires s.Valid()
    requires FundRowsByTimestamp(s, name, start, end).Some?
    ensures |FundRowsByTimestamp(s, name, start, end).value| <= 1
  {
    KeyedFilterAtMostOne(s.fundTables[FundsTableName(name)].lines, start, end);
  }

  /** The read changes no table. */
  method GetFundRowsByTimestamp(db: DatabaseManager, name: string, start: Day, end: Day) returns (r: Option<seq<FundsLine>>)
    ensures r == FundRowsByTimestamp(db.Snapshot(), name, start, end)
  {
    if FundsTableName(name) !in db.fundTables {
      return None;
    }
    r := Some(Filter(db.fundTables[FundsTableName(name)].lines, SameDays(start, end)));
  }
}
