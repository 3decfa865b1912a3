/** `src/simulation/positions.py`: `get_positions`, which reconciles the
    positions stored for the previous day with the positions the strategy
    API reports now, marks the fund slots held by still-open positions,
    closes stored positions from newer data, and admits today's new
    positions up to the slot cap. The API results are parameters: `current`
    and `previous` are the two lists `fetch_positions_from_api` returns. */
module Reconciliation {
  import opened Common
  import opened Decimal
  import opened Store
  import opened Manager
  import opened PositionsDb

  /** The key of `positions_dict`. */
  datatype Key = Key(pair: string, buyDate: Day, buyPrice: Real)

  function KeyOf(p: ApiPosition): Key { Key(p.pair, p.buyDate, p.buyPrice) }

  /** One item of `positions_dict`; the sequence keeps insertion order. */
  datatype Entry = Entry(key: Key, value: ApiPosition)

  predicate HasKey(entries: seq<Entry>, k: Key) {
    exists i :: 0 <= i < |entries| && entries[i].key == k
  }

  function KeyIs(k: Key): Entry -> bool { (e: Entry) => e.key == k }

  /** `d[k] = v`: an existing key keeps its place and takes the new value;
      a new key goes last. */
  function Put(entries: seq<Entry>, k: Key, v: ApiPosition): (r: seq<Entry>)
    ensures HasKey(r, k)
    ensures HasKey(entries, k) ==>
      exists i :: 0 <= i < |entries| && entries[i].key == k && r == entries[i := Entry(k, v)]
    ensures !HasKey(entries, k) ==> r == entries + [Entry(k, v)]
  {
    match FirstWhere(entries, KeyIs(k))
    case Some(i) =>
      var r := entries[i := Entry(k, v)];
      assert r[i].key == k;
      r
    case None =>
      var r := entries + [Entry(k, v)];
      assert r[|entries|].key == k;
      r
  }

  /** `list(positions_dict.values())`. */
  function Values(entries: seq<Entry>): (r: seq<ApiPosition>)
    ensures |r| == |entries| && forall i :: 0 <= i < |entries| ==> r[i] == entries[i].value
  {
    seq(|entries|, i requires 0 <= i < |entries| => entries[i].value)
  }

  /** A dictionary whose keys are distinct and are the keys of their
      values, as every assignment `d[KeyOf(p)] = p` keeps it. */
  ghost predicate WellKeyed(entries: seq<Entry>) {
    && (forall i :: 0 <= i < |entries| ==> entries[i].key == KeyOf(entries[i].value))
    && (forall i, j :: 0 <= i < j < |entries| ==> entries[i].key != entries[j].key)
  }

  /** Assigning a value under its own key keeps the dictionary well keyed
      and keeps every key it had. */
  lemma PutWellKeyed(entries: seq<Entry>, v: ApiPosition)
    requires WellKeyed(entries)
    ensures WellKeyed(Put(entries, KeyOf(v), v))
    ensures forall k :: HasKey(entries, k) ==> HasKey(Put(entries, KeyOf(v), v), k)
  {
    var r := Put(entries, KeyOf(v), v);
    forall k | HasKey(entries, k)
      ensures HasKey(r, k)
    {
      var i :| 0 <= i < |entries| && entries[i].key == k;
      assert r[i].key == k;
    }
  }

  /** `json.dumps` of both signal fields, as `get_positions` does to a
      position it admits (and to a previous position it closes with). */
  function Encode(p: ApiPosition): (r: ApiPosition)
    ensures KeyOf(r) == KeyOf(p) && r.sellDate == p.sellDate && r.sellPrice == p.sellPrice
    ensures r.buySignals.Dumped? && r.sellSignals.Dumped?
  {
    p.(buySignals := Dumps(p.buySignals), sellSignals := Dumps(p.sellSignals))
  }

  /** One iteration of the admission loop: while fewer than `cap` entries
      are held, a position with a new key dated `end_ts` is added,
      encoded. */
  function AdmitOne(entries: seq<Entry>, c: ApiPosition, cap: int, endTs: Day): (r: seq<Entry>)
    ensures |entries| <= |r| <= |entries| + 1 && r[..|entries|] == entries
    ensures |r| > |entries| ==>
      && |entries| < cap && !HasKey(entries, KeyOf(c)) && c.buyDate == endTs
      && r[|entries|] == Entry(KeyOf(c), Encode(c))
    ensures |entries| < cap && c.buyDate == endTs ==> HasKey(r, KeyOf(c))
  {
    if |entries| < cap && !HasKey(entries, KeyOf(c)) && c.buyDate == endTs then entries + [Entry(KeyOf(c), Encode(c))]
    else entries
  }

  /** The admission loop over `current_positions`. */
  function Admit(entries: seq<Entry>, cs: seq<ApiPosition>, cap: int, endTs: Day): seq<Entry>
    decreases |cs|
  {
    if cs == [] then entries else Admit(AdmitOne(entries, cs[0], cap, endTs), cs[1..], cap, endTs)
  }

  /** An entry holding a position of `cs` dated `end_ts`, encoded. */
  ghost predicate Dated(e: Entry, cs: seq<ApiPosition>, endTs: Day) {
    exists c :: c in cs && c.buyDate == endTs && e == Entry(KeyOf(c), Encode(c))
  }

  /** Admission only appends, never beyond `cap` entries, and only encoded
      positions of `cs` dated `end_ts`. */
  lemma {:induction false} AdmitAppends(entries: seq<Entry>, cs: seq<ApiPosition>, cap: int, endTs: Day)
    ensures var r := Admit(entries, cs, cap, endTs);
      && |entries| <= |r| <= |entries| + |cs|
      && r[..|entries|] == entries
      && |r| <= (if |entries| < cap then cap else |entries|)
      && forall i :: |entries| <= i < |r| ==> Dated(r[i], cs, endTs)
    decreases |cs|
  {
    if cs != [] {
      var next := AdmitOne(entries, cs[0], cap, endTs);
      AdmitAppends(next, cs[1..], cap, endTs);
      var r := Admit(next, cs[1..], cap, endTs);
      assert r[..|entries|] == next[..|next|][..|entries|];
      forall i | |entries| <= i < |r|
        ensures Dated(r[i], cs, endTs)
      {
        if i < |next| {
          assert next != entries && next == entries + [Entry(KeyOf(cs[0]), Encode(cs[0]))];
          assert r[i] == r[..|next|][i] == next[i];
          assert cs[0] in cs && cs[0].buyDate == endTs;
        } else {
          assert Dated(r[i], cs[1..], endTs);
          var c :| c in cs[1..] && c.buyDate == endTs && r[i] == Entry(KeyOf(c), Encode(c));
          assert c in cs;
        }
      }
    }
  }

  lemma {:induction false} AdmitWellKeyed(entries: seq<Entry>, cs: seq<ApiPosition>, cap: int, endTs: Day)
    requires WellKeyed(entries)
    ensures WellKeyed(Admit(entries, cs, cap, endTs))
    decreases |cs|
  {
    if cs != [] {
      AdmitWellKeyed(AdmitOne(entries, cs[0], cap, endTs), cs[1..], cap, endTs);
    }
  }

  /** Keys already held stay held. */
  lemma {:induction false} AdmitKeepsKeys(entries: seq<Entry>, cs: seq<ApiPosition>, cap: int, endTs: Day, k: Key)
    requires HasKey(entries, k)
    ensures HasKey(Admit(entries, cs, cap, endTs), k)
    decreases |cs|
  {
    if cs != [] {
      var next := AdmitOne(entries, cs[0], cap, endTs);
      var i :| 0 <= i < |entries| && entries[i].key == k;
      assert next[i] == entries[i];
      AdmitKeepsKeys(next, cs[1..], cap, endTs, k);
    }
  }

  /** If the cap is never reached, every position of `cs` dated `end_ts`
      has its key in the dictionary afterwards. */
  lemma {:induction false} AdmitComplete(entries: seq<Entry>, cs: seq<ApiPosition>, cap: int, endTs: Day)
    requires |Admit(entries, cs, cap, endTs)| < cap
    ensures forall c :: c in cs && c.buyDate == endTs ==> HasKey(Admit(entries, cs, cap, endTs), KeyOf(c))
    decreases |cs|
  {
    if cs != [] {
      var next := AdmitOne(entries, cs[0], cap, endTs);
      AdmitAppends(next, cs[1..], cap, endTs);
      AdmitComplete(next, cs[1..], cap, endTs);
      if cs[0].buyDate == endTs {
        if !HasKey(entries, KeyOf(cs[0])) {
          assert next[|entries|].key == KeyOf(cs[0]);
        }
        assert HasKey(next, KeyOf(cs[0]));
        AdmitKeepsKeys(next, cs[1..], cap, endTs, KeyOf(cs[0]));
      }
      forall c | c in cs && c.buyDate == endTs
        ensures HasKey(Admit(entries, cs, cap, endTs), KeyOf(c))
      {
        if c != cs[0] {
          assert c in cs[1..];
        }
      }
    }
  }

  /** With room for every position, every position dated `end_ts` is
      admitted or already held. */
  lemma {:induction false} AdmitRoomForAll(entries: seq<Entry>, cs: seq<ApiPosition>, cap: int, endTs: Day)
    requires |entries| + |cs| <= cap
    ensures forall c :: c in cs && c.buyDate == endTs ==> HasKey(Admit(entries, cs, cap, endTs), KeyOf(c))
    decreases |cs|
  {
    if cs != [] {
      var next := AdmitOne(entries, cs[0], cap, endTs);
      AdmitRoomForAll(next, cs[1..], cap, endTs);
      if cs[0].buyDate == endTs {
        if !HasKey(entries, KeyOf(cs[0])) {
          assert next[|entries|].key == KeyOf(cs[0]);
        }
        AdmitKeepsKeys(next, cs[1..], cap, endTs, KeyOf(cs[0]));
      }
      forall c | c in cs && c.buyDate == endTs
        ensures HasKey(Admit(entries, cs, cap, endTs), KeyOf(c))
      {
        if c != cs[0] {
          assert c in cs[1..];
        }
      }
    }
  }

  /** The admission loop of `get_positions`. */
  method AdmitCurrent(entries: seq<Entry>, current: seq<ApiPosition>, cap: int, endTs: Day) returns (r: seq<Entry>)
    ensures r == Admit(entries, current, cap, endTs)
  {
    r := entries;
    for i := 0 to |current|
      invariant Admit(r, current[i..], cap, endTs) == Admit(entries, current, cap, endTs)
    {
      assert current[i..][1..] == current[i + 1..];
      var c := current[i];
      if |r| < cap {
        var key := KeyOf(c);
        if !HasKey(r, key) {
          if c.buyDate == endTs {
            r := r + [Entry(key, Encode(c))];
          }
        }
      }
    }
    assert current[|current|..] == [];
  }

  /** The condition of the inner loop over current positions: the stored
      position is still open (`old_position[4] is None`) and agrees on pair,
      buy date and buy price. */
  function OpenMatch(o: PositionRow): ApiPosition -> bool {
    (c: ApiPosition) => o.pair == c.pair && o.buyDate == c.buyDate && o.buyPrice == c.buyPrice && o.sellDate.None?
  }

  /** The condition of the loop over previous positions: buy date and buy
      price agree; the pair is not compared. */
  function Agrees(o: PositionRow): ApiPosition -> bool {
    (p: ApiPosition) => p.buyDate == o.buyDate && p.buyPrice == o.buyPrice
  }

  /** The state the loop over stored positions carries: the database, the
      dictionary, the slot list, the previous positions (whose signals are
      rewritten in place) and whether an exception escaped. */
  datatype Scan = Scan(store: Store, entries: seq<Entry>, slots: seq<bool>, previous: seq<ApiPosition>, raised: bool)

  /** `int(v)` of a stored signal cell; None where Python raises. NULL
      raises TypeError. JSON text is integer text only for a JSON integer:
      the empty list starts with `[` and a dumped string with `"`. */
  function CellInt(v: Option<Signals>): (r: Option<int>)
    ensures v.None? ==> r.None?
    ensures v == Some(EmptyList) || v == Some(Dumped(EmptyList)) ==> r.None?
  {
    match v
    case Some(Payload(json)) => ParseInt(json)
    case Some(Dumped(Payload(json))) => ParseInt(json)
    case _ => None
  }

  /** `int(old_position[10])`. The fetch selects `p.*` and succeeds only on a
      `positions` table with `buy_signals`, which of the repository's two
      layouts is the one of `manager.py`; there the column at index 10 of
      `p.*` is `buy_signals`, not a fund slot. */
  function FundSlotRead(o: PositionRow): Option<int> {
    CellInt(o.buySignals)
  }

  /** A stored position closed from a previous position whose buy signal is
      the integer `n` reads as fund slot `n`; one closed from a list of
      signals, or never closed (NULL), does not read as a slot. */
  lemma FundSlotReadOfClosedRow(o: PositionRow, n: int)
    ensures FundSlotRead(o.(buySignals := Some(Dumps(Payload(Show(n)))))) == Some(n)
    ensures FundSlotRead(o.(buySignals := Some(Dumps(EmptyList)))).None?
    ensures FundSlotRead(o.(buySignals := None)).None?
  {
    ParseShow(n);
  }

  /** The cell `fund_slots[int(fund_slot) - 1]` designates; `int()` that
      raises and an index outside the list raise. */
  function SlotCell(slots: seq<bool>, fundSlot: Option<int>): (r: Option<nat>)
    ensures r.Some? <==> fundSlot.Some? && -|slots| <= fundSlot.value - 1 < |slots|
    ensures r.Some? ==> r.value < |slots|
  {
    if fundSlot.None? then None else PyIndex(|slots|, fundSlot.value - 1)
  }

  /** One iteration of the loop over stored positions. A stored position
      matched by a current one puts that current position (unencoded) in the
      dictionary and marks its slot; an unmatched one is closed in the
      database from the first previous position that agrees with it, whose
      signals are dumped first. */
  function ScanOld(st: Scan, o: PositionRow, current: seq<ApiPosition>): (r: Scan)
    ensures |r.slots| == |st.slots| && |r.previous| == |st.previous|
    ensures !st.raised && r.raised ==> r.store == st.store
    ensures FirstWhere(current, OpenMatch(o)).Some? ==> r.store == st.store && r.previous == st.previous
    ensures FirstWhere(current, OpenMatch(o)).Some? ==>
      var j := FirstWhere(current, OpenMatch(o)).value;
      r.entries == Put(st.entries, KeyOf(current[j]), current[j])
    ensures FirstWhere(current, OpenMatch(o)).None? ==>
      && r.entries == st.entries && r.slots == st.slots && r.raised == st.raised
      && r.previous == (match FirstWhere(st.previous, Agrees(o))
                        case None => st.previous
                        case Some(j) => st.previous[j := Encode(st.previous[j])])
      && (r.store == st.store ||
          exists j :: 0 <= j < |st.previous| && FirstWhere(st.previous, Agrees(o)) == Some(j)
                      && r.store == UpdatePosition(st.store, Encode(st.previous[j]), o.id))
  {
    match FirstWhere(current, OpenMatch(o))
    case Some(j) =>
      var entries := Put(st.entries, KeyOf(current[j]), current[j]);
      (match SlotCell(st.slots, FundSlotRead(o))
       case None => st.(entries := entries, raised := true)
       case Some(i) => st.(entries := entries, slots := st.slots[i := true]))
    case None =>
      match FirstWhere(st.previous, Agrees(o))
      case None => st
      case Some(j) =>
        var q := Encode(st.previous[j]);
        st.(store := UpdatePositionsInDatabase(st.store, q, o.id).store, previous := st.previous[j := q])
  }

  /** The loop over stored positions, which stops at the first exception. */
  function ScanAll(st: Scan, olds: seq<PositionRow>, current: seq<ApiPosition>): (r: Scan)
    ensures |r.slots| == |st.slots| && |r.previous| == |st.previous|
    ensures st.raised ==> r == st
    decreases |olds|
  {
    if olds == [] || st.raised then st else ScanAll(ScanOld(st, olds[0], current), olds[1..], current)
  }

  /** A matched stored position whose slot cannot be marked. */
  predicate Breaks(o: PositionRow, current: seq<ApiPosition>, n: nat) {
    FirstWhere(current, OpenMatch(o)).Some? && (FundSlotRead(o).None? || PyIndex(n, FundSlotRead(o).value - 1).None?)
  }

  /** A matched stored position marks slot `i`. */
  predicate Marks(o: PositionRow, current: seq<ApiPosition>, n: nat, i: nat) {
    FirstWhere(current, OpenMatch(o)).Some? && FundSlotRead(o).Some? && PyIndex(n, FundSlotRead(o).value - 1) == Some(i)
  }

  /** One iteration raises exactly when the stored position breaks, and
      otherwise marks exactly the slot it designates. */
  lemma ScanOldSlots(st: Scan, o: PositionRow, current: seq<ApiPosition>)
    requires !st.raised
    ensures var r := ScanOld(st, o, current);
      && (r.raised <==> Breaks(o, current, |st.slots|))
      && (!r.raised ==> forall i :: 0 <= i < |st.slots| ==> (r.slots[i] <==> st.slots[i] || Marks(o, current, |st.slots|, i)))
  {
  }

  /** The loop raises exactly when some matched stored position has no
      valid slot. */
  lemma {:induction false} ScanAllRaises(st: Scan, olds: seq<PositionRow>, current: seq<ApiPosition>)
    requires !st.raised
    ensures ScanAll(st, olds, current).raised <==> exists k :: 0 <= k < |olds| && Breaks(olds[k], current, |st.slots|)
    decreases |olds|
  {
    if olds != [] {
      var next := ScanOld(st, olds[0], current);
      var n := |st.slots|;
      ScanOldSlots(st, olds[0], current);
      if !next.raised {
        ScanAllRaises(next, olds[1..], current);
        if exists k :: 0 <= k < |olds| && Breaks(olds[k], current, n) {
          var k :| 0 <= k < |olds| && Breaks(olds[k], current, n);
          assert k != 0;
          assert Breaks(olds[1..][k - 1], current, n);
        }
        if exists k :: 0 <= k < |olds[1..]| && Breaks(olds[1..][k], current, n) {
          var k :| 0 <= k < |olds[1..]| && Breaks(olds[1..][k], current, n);
          assert Breaks(olds[k + 1], current, n);
        }
      }
    }
  }

  /** When the loop does not raise, a slot is True exactly when it was
      before or a matched stored position marks it. */
  lemma {:induction false} ScanAllSlots(st: Scan, olds: seq<PositionRow>, current: seq<ApiPosition>)
    requires !st.raised
    requires !ScanAll(st, olds, current).raised
    ensures var r := ScanAll(st, olds, current);
      forall i :: 0 <= i < |st.slots| ==>
        (r.slots[i] <==> st.slots[i] || exists k :: 0 <= k < |olds| && Marks(olds[k], current, |st.slots|, i))
    decreases |olds|
  {
    if olds != [] {
      var next := ScanOld(st, olds[0], current);
      var n := |st.slots|;
      ScanOldSlots(st, olds[0], current);
      ScanAllSlots(next, olds[1..], current);
      var r := ScanAll(next, olds[1..], current);
      forall i | 0 <= i < n
        ensures r.slots[i] <==> st.slots[i] || exists k :: 0 <= k < |olds| && Marks(olds[k], current, n, i)
      {
        if exists k :: 0 <= k < |olds| && Marks(olds[k], current, n, i) {
          var k :| 0 <= k < |olds| && Marks(olds[k], current, n, i);
          if k > 0 {
            assert Marks(olds[1..][k - 1], current, n, i);
          }
        }
        if exists k :: 0 <= k < |olds[1..]| && Marks(olds[1..][k], current, n, i) {
          var k :| 0 <= k < |olds[1..]| && Marks(olds[1..][k], current, n, i);
          assert Marks(olds[k + 1], current, n, i);
        }
      }
    }
  }

  /** Two versions of a stored position that agree on everything the
      close-update does not set. */
  predicate SameIdentity(a: PositionRow, b: PositionRow) {
    a.id == b.id && a.pair == b.pair && a.buyDate == b.buyDate && a.buyPrice == b.buyPrice && a.fundSlot == b.fundSlot
  }

  /** `t` differs from `s` only in the close-update columns of rows whose id
      is that of a stored position in `olds` no current position matched. */
  ghost predicate OnlyClosed(s: Store, t: Store, olds: seq<PositionRow>, current: seq<ApiPosition>) {
    && t.(positions := s.positions) == s
    && |t.positions| == |s.positions|
    && forall i :: 0 <= i < |s.positions| ==>
         && SameIdentity(t.positions[i], s.positions[i])
         && (t.positions[i] != s.positions[i] ==>
               exists k :: 0 <= k < |olds| && olds[k].id == s.positions[i].id && FirstWhere(current, OpenMatch(olds[k])).None?)
  }

  /** One iteration changes the database only by closing the rows of its
      stored position, and only when no current position matches it. */
  lemma ScanOldOnlyCloses(st: Scan, o: PositionRow, current: seq<ApiPosition>)
    requires st.store.Valid() && !st.raised
    ensures OnlyClosed(st.store, ScanOld(st, o, current).store, [o], current)
    ensures ScanOld(st, o, current).store.Valid()
  {
    var next := ScanOld(st, o, current);
    if next.store != st.store {
      var j :| 0 <= j < |st.previous| && FirstWhere(st.previous, Agrees(o)) == Some(j)
               && next.store == UpdatePosition(st.store, Encode(st.previous[j]), o.id);
      UpdatePositionValid(st.store, Encode(st.previous[j]), o.id);
      assert [o][0] == o;
    }
  }

  /** Closing by the first stored position, then by the rest, is closing by
      all of them. */
  lemma OnlyClosedThen(s: Store, m: Store, r: Store, olds: seq<PositionRow>, current: seq<ApiPosition>)
    requires olds != []
    requires OnlyClosed(s, m, [olds[0]], current) && OnlyClosed(m, r, olds[1..], current)
    ensures OnlyClosed(s, r, olds, current)
  {
    forall i | 0 <= i < |s.positions| && r.positions[i] != s.positions[i]
      ensures exists k :: 0 <= k < |olds| && olds[k].id == s.positions[i].id && FirstWhere(current, OpenMatch(olds[k])).None?
    {
      if m.positions[i] != s.positions[i] {
        var k :| 0 <= k < 1 && [olds[0]][k].id == s.positions[i].id && FirstWhere(current, OpenMatch([olds[0]][k])).None?;
        assert olds[0] == [olds[0]][k];
      } else {
        var k :| 0 <= k < |olds[1..]| && olds[1..][k].id == m.positions[i].id && FirstWhere(current, OpenMatch(olds[1..][k])).None?;
        assert olds[k + 1] == olds[1..][k];
      }
    }
  }

  /** The loop over stored positions changes the database only by closing
      rows of unmatched stored positions, and keeps it well formed. */
  lemma {:induction false} ScanAllOnlyCloses(st: Scan, olds: seq<PositionRow>, current: seq<ApiPosition>)
    requires st.store.Valid()
    ensures OnlyClosed(st.store, ScanAll(st, olds, current).store, olds, current)
    ensures ScanAll(st, olds, current).store.Valid()
    decreases |olds|
  {
    if olds != [] && !st.raised {
      var next := ScanOld(st, olds[0], current);
      ScanOldOnlyCloses(st, olds[0], current);
      ScanAllOnlyCloses(next, olds[1..], current);
      OnlyClosedThen(st.store, next.store, ScanAll(next, olds[1..], current).store, olds, current);
    }
  }

  /** The dictionary stays well keyed, and every value the loop puts in it
      is a current position, unencoded. */
  lemma {:induction false} ScanAllEntries(st: Scan, olds: seq<PositionRow>, current: seq<ApiPosition>)
    requires WellKeyed(st.entries)
    ensures var r := ScanAll(st, olds, current);
      && WellKeyed(r.entries)
      && forall e :: e in r.entries ==> e in st.entries || exists c :: c in current && e == Entry(KeyOf(c), c)
    decreases |olds|
  {
    if olds != [] && !st.raised {
      var next := ScanOld(st, olds[0], current);
      var j := FirstWhere(current, OpenMatch(olds[0]));
      if j.Some? {
        var c := current[j.value];
        PutWellKeyed(st.entries, c);
        assert forall e :: e in next.entries ==> e in st.entries || e == Entry(KeyOf(c), c);
      }
      ScanAllEntries(next, olds[1..], current);
    }
  }

  /** `d[k] = v` keeps every key held and holds no value but `v` that it
      did not hold before. */
  lemma PutKeeps(entries: seq<Entry>, k: Key, v: ApiPosition)
    ensures forall k' :: HasKey(entries, k') ==> HasKey(Put(entries, k, v), k')
    ensures forall e :: e in Put(entries, k, v) ==> e in entries || e == Entry(k, v)
  {
    var r := Put(entries, k, v);
    if HasKey(entries, k) {
      var i :| 0 <= i < |entries| && entries[i].key == k && r == entries[i := Entry(k, v)];
      forall k' | HasKey(entries, k')
        ensures HasKey(r, k')
      {
        var m :| 0 <= m < |entries| && entries[m].key == k';
        assert r[m].key == k';
      }
      forall e | e in r
        ensures e in entries || e == Entry(k, v)
      {
        var m :| 0 <= m < |r| && r[m] == e;
        if m != i {
          assert e == entries[m];
        }
      }
    } else {
      forall k' | HasKey(entries, k')
        ensures HasKey(r, k')
      {
        var m :| 0 <= m < |entries| && entries[m].key == k';
        assert r[m].key == k';
      }
    }
  }

  /** The loop over stored positions never drops a key. */
  lemma {:induction false} ScanAllKeepsKeys(st: Scan, olds: seq<PositionRow>, current: seq<ApiPosition>, k: Key)
    requires HasKey(st.entries, k)
    ensures HasKey(ScanAll(st, olds, current).entries, k)
    decreases |olds|
  {
    if olds != [] && !st.raised {
      var next := ScanOld(st, olds[0], current);
      var m := FirstWhere(current, OpenMatch(olds[0]));
      if m.Some? {
        PutKeeps(st.entries, KeyOf(current[m.value]), current[m.value]);
      }
      ScanAllKeepsKeys(next, olds[1..], current, k);
    }
  }

  /** `c` continues a stored position: it is the first current position
      that some stored open position of `olds` matches. */
  ghost predicate Continues(c: ApiPosition, olds: seq<PositionRow>, current: seq<ApiPosition>) {
    exists k :: 0 <= k < |olds| && FirstWhere(current, OpenMatch(olds[k])).Some?
                && c == current[FirstWhere(current, OpenMatch(olds[k])).value]
  }

  /** When the loop does not raise, the key of every continuing position is
      held, and every value it adds is a continuing position. */
  lemma {:induction false} ScanAllContinuing(st: Scan, olds: seq<PositionRow>, current: seq<ApiPosition>)
    requires !ScanAll(st, olds, current).raised
    ensures var r := ScanAll(st, olds, current);
      && (forall k :: 0 <= k < |olds| && FirstWhere(current, OpenMatch(olds[k])).Some? ==>
            HasKey(r.entries, KeyOf(current[FirstWhere(current, OpenMatch(olds[k])).value])))
      && (forall e :: e in r.entries ==> e in st.entries || Continues(e.value, olds, current))
    decreases |olds|
  {
    if olds != [] {
      var next := ScanOld(st, olds[0], current);
      var r := ScanAll(st, olds, current);
      assert r == ScanAll(next, olds[1..], current);
      ScanAllContinuing(next, olds[1..], current);
      var m := FirstWhere(current, OpenMatch(olds[0]));
      if m.Some? {
        var c := current[m.value];
        PutKeeps(st.entries, KeyOf(c), c);
        ScanAllKeepsKeys(next, olds[1..], current, KeyOf(c));
        assert Continues(c, olds, current);
      }
      forall k | 0 <= k < |olds| && FirstWhere(current, OpenMatch(olds[k])).Some?
        ensures HasKey(r.entries, KeyOf(current[FirstWhere(current, OpenMatch(olds[k])).value]))
      {
        if k > 0 {
          assert olds[k] == olds[1..][k - 1];
        }
      }
      forall e | e in r.entries
        ensures e in st.entries || Continues(e.value, olds, current)
      {
        if e !in next.entries {
          var k :| 0 <= k < |olds[1..]| && FirstWhere(current, OpenMatch(olds[1..][k])).Some?
                   && e.value == current[FirstWhere(current, OpenMatch(olds[1..][k])).value];
          assert olds[k + 1] == olds[1..][k];
        }
      }
    }
  }

  /** What `get_positions` leaves behind and returns; `caught` records that
      its `except Exception` clause produced the `([], [])`. */
  datatype Outcome = Outcome(store: Store, positions: seq<ApiPosition>, slots: seq<bool>, caught: bool)

  /** `get_positions(simulator, name, simulation, start_ts_config, end_ts)`
      with `position_%_invest` given as `percentText`. */
  function Reconcile(s: Store, name: string, percentText: string, start: Day, endTs: Day,
                     current: seq<ApiPosition>, previous: seq<ApiPosition>): (r: Outcome)
    ensures r.caught ==> r.positions == [] && r.slots == []
    ensures ParseInt(percentText).None? || ParseInt(percentText) == Some(0) ==> r == Outcome(s, [], [], true)
  {
    match ParseInt(percentText)
    case None => Outcome(s, [], [], true)
    case Some(p) =>
      if p == 0 then Outcome(s, [], [], true)
      else
        var cap := TruncDiv(100, p);
        var slots := Falses(cap);
        if endTs - 2 >= start then
          match FetchPositionsFromDatabase(s, name, endTs - 1)
          case None => Outcome(s, [], [], true)
          case Some(olds) =>
            var cap' := if percentText == "-1" then |current| else cap;
            var st := ScanAll(Scan(s, [], slots, previous, false), olds, current);
            if st.raised then Outcome(st.store, [], [], true)
            else Outcome(st.store, Values(Admit(st.entries, current, cap', endTs)), st.slots, false)
        else
          Outcome(s, Values(Admit([], current, cap, endTs)), slots, false)
  }

  /** One iteration of the loop over the stored positions of the previous
      day. */
  method ScanOne(db: DatabaseManager, o: PositionRow, current: seq<ApiPosition>,
                 entries0: seq<Entry>, slots0: seq<bool>, prev0: seq<ApiPosition>)
    returns (entries: seq<Entry>, slots: seq<bool>, prev: seq<ApiPosition>, raised: bool)
    requires db.Valid()
    modifies db
    ensures db.Valid()
    ensures Scan(db.Snapshot(), entries, slots, prev, raised)
         == ScanOld(Scan(old(db.Snapshot()), entries0, slots0, prev0, false), o, current)
  {
    entries, slots, prev, raised := entries0, slots0, prev0, false;
    var j := Search(current, OpenMatch(o));
    if j.Some? {
      entries := Put(entries, KeyOf(current[j.value]), current[j.value]);
      var slot := FundSlotRead(o);
      if slot.None? {
        return entries, slots, prev, true;
      }
      var cell := PyIndex(|slots|, slot.value - 1);
      if cell.None? {
        return entries, slots, prev, true;
      }
      slots := slots[cell.value := true];
    } else {
      var k := Search(prev, Agrees(o));
      if k.Some? {
        var q := Encode(prev[k.value]);
        prev := prev[k.value := q];
        var closed := UpdatePositions(db, q, o.id);
      }
    }
  }

  /** The loop over the stored positions of the previous day. */
  method ScanStored(db: DatabaseManager, olds: seq<PositionRow>, current: seq<ApiPosition>,
                    slots0: seq<bool>, previous: seq<ApiPosition>) returns (entries: seq<Entry>, slots: seq<bool>, raised: bool)
    requires db.Valid()
    modifies db
    ensures db.Valid()
    ensures var r := ScanAll(Scan(old(db.Snapshot()), [], slots0, previous, false), olds, current);
      db.Snapshot() == r.store && entries == r.entries && slots == r.slots && raised == r.raised
  {
    entries, slots, raised := [], slots0, false;
    var prev := previous;
    ghost var done := ScanAll(Scan(db.Snapshot(), [], slots0, previous, false), olds, current);
    var i := 0;
    while i < |olds|
      invariant 0 <= i <= |olds|
      invariant db.Valid()
      invariant ScanAll(Scan(db.Snapshot(), entries, slots, prev, false), olds[i..], current) == done
    {
      assert olds[i..][1..] == olds[i + 1..];
      entries, slots, prev, raised := ScanOne(db, olds[i], current, entries, slots, prev);
      if raised {
        return;
      }
      i := i + 1;
    }
  }

  method GetPositions(db: DatabaseManager, name: string, percentText: string, start: Day, endTs: Day,
                      current: seq<ApiPosition>, previous: seq<ApiPosition>) returns (positions: seq<ApiPosition>, slots: seq<bool>)
    requires db.Valid()
    modifies db
    ensures db.Valid()
    ensures var r := Reconcile(old(db.Snapshot()), name, percentText, start, endTs, current, previous);
      db.Snapshot() == r.store && positions == r.positions && slots == r.slots
  {
    var percent := ParseInt(percentText);
    if percent.None? || percent.value == 0 {
      return [], [];
    }
    var maxPositions := TruncDiv(100, percent.value);
    slots := Falses(maxPositions);
    var entries: seq<Entry> := [];
    if endTs - 2 >= start {
      var olds := FetchPositions(db, name, endTs - 1);
      if olds.None? {
        return [], [];
      }
      if percentText == "-1" {
        maxPositions := |current|;
      }
      var raised;
      entries, slots, raised := ScanStored(db, olds.value, current, slots, previous);
      if raised {
        return [], [];
      }
    }
    entries := AdmitCurrent(entries, current, maxPositions, endTs);
    positions := Values(entries);
  }

  /** Without a match no entry is put and no slot marked. */
  lemma {:induction false} ScanAllNoMatch(st: Scan, olds: seq<PositionRow>, current: seq<ApiPosition>)
    requires forall k :: 0 <= k < |olds| ==> FirstWhere(current, OpenMatch(olds[k])).None?
    ensures var r := ScanAll(st, olds, current);
      r.entries == st.entries && r.slots == st.slots && r.raised == st.raised
    decreases |olds|
  {
    if olds != [] && !st.raised {
      assert forall k :: 0 <= k < |olds[1..]| ==> olds[1..][k] == olds[k + 1];
      ScanAllNoMatch(ScanOld(st, olds[0], current), olds[1..], current);
    }
  }

  /** Every key of a well-keyed dictionary is the key of one of its values. */
  lemma ValuesCarryKeys(entries: seq<Entry>, k: Key)
    requires WellKeyed(entries) && HasKey(entries, k)
    ensures exists i :: 0 <= i < |Values(entries)| && KeyOf(Values(entries)[i]) == k
  {
    var i :| 0 <= i < |entries| && entries[i].key == k;
    assert KeyOf(Values(entries)[i]) == k;
  }

  /** For a positive percent `p` the slot list has `100 // p` cells. */
  lemma ReconcileSlotCount(s: Store, name: string, percentText: string, start: Day, endTs: Day,
                           current: seq<ApiPosition>, previous: seq<ApiPosition>, p: int)
    requires ParseInt(percentText) == Some(p) && p > 0
    ensures var r := Reconcile(s, name, percentText, start, endTs, current, previous);
      !r.caught ==> |r.slots| == 100 / p
  {
  }

  /** When `end_ts - 2 days < start_ts_config` the database is neither read
      nor written and every slot stays False. */
  lemma ReconcileFreshBranch(s: Store, name: string, percentText: string, start: Day, endTs: Day,
                             current: seq<ApiPosition>, previous: seq<ApiPosition>, p: int)
    requires ParseInt(percentText) == Some(p) && p != 0
    requires endTs - 2 < start
    ensures var r := Reconcile(s, name, percentText, start, endTs, current, previous);
      && r.store == s && !r.caught
      && forall i :: 0 <= i < |r.slots| ==> !r.slots[i]
  {
  }

  /** No key `(pair, buy_date, buy_price)` occurs twice in the result. */
  lemma ReconcileKeysUnique(s: Store, name: string, percentText: string, start: Day, endTs: Day,
                            current: seq<ApiPosition>, previous: seq<ApiPosition>)
    ensures var r := Reconcile(s, name, percentText, start, endTs, current, previous);
      forall i, j :: 0 <= i < j < |r.positions| ==> KeyOf(r.positions[i]) != KeyOf(r.positions[j])
  {
    var r := Reconcile(s, name, percentText, start, endTs, current, previous);
    if !r.caught {
      var p := ParseInt(percentText).value;
      var cap := TruncDiv(100, p);
      if endTs - 2 >= start {
        var olds := FetchPositionsFromDatabase(s, name, endTs - 1).value;
        var cap' := if percentText == "-1" then |current| else cap;
        var st := ScanAll(Scan(s, [], Falses(cap), previous, false), olds, current);
        ScanAllEntries(Scan(s, [], Falses(cap), previous, false), olds, current);
        AdmitWellKeyed(st.entries, current, cap', endTs);
      } else {
        AdmitWellKeyed([], current, cap, endTs);
      }
    }
  }

  /** In the resume branch a slot is True exactly when a stored position of
      the previous day that a current position matches designates it, and
      the exception is raised exactly when such a position has no valid
      slot. */
  lemma ReconcileSlotsMarked(s: Store, name: string, percentText: string, start: Day, endTs: Day,
                             current: seq<ApiPosition>, previous: seq<ApiPosition>, p: int, olds: seq<PositionRow>)
    requires ParseInt(percentText) == Some(p) && p != 0
    requires endTs - 2 >= start
    requires FetchPositionsFromDatabase(s, name, endTs - 1) == Some(olds)
    ensures var r := Reconcile(s, name, percentText, start, endTs, current, previous);
      var n := |Falses(TruncDiv(100, p))|;
      && (r.caught <==> exists k :: 0 <= k < |olds| && Breaks(olds[k], current, n))
      && (!r.caught ==> |r.slots| == n && forall i :: 0 <= i < n ==>
            (r.slots[i] <==> exists k :: 0 <= k < |olds| && Marks(olds[k], current, n, i)))
  {
    var st := Scan(s, [], Falses(TruncDiv(100, p)), previous, false);
    ScanAllRaises(st, olds, current);
    if !ScanAll(st, olds, current).raised {
      ScanAllSlots(st, olds, current);
    }
  }

  /** A stored open position that a current position matches keeps its key
      in the result: unless the exception was caught, some returned position
      has that key, and it is the current position some stored position
      matched. */
  lemma ReconcileHoldsMatchedKey(s: Store, name: string, percentText: string, start: Day, endTs: Day,
                                 current: seq<ApiPosition>, previous: seq<ApiPosition>, p: int, olds: seq<PositionRow>, k: nat)
    requires ParseInt(percentText) == Some(p) && p != 0
    requires endTs - 2 >= start
    requires FetchPositionsFromDatabase(s, name, endTs - 1) == Some(olds)
    requires k < |olds| && FirstWhere(current, OpenMatch(olds[k])).Some?
    ensures var r := Reconcile(s, name, percentText, start, endTs, current, previous);
      var c := current[FirstWhere(current, OpenMatch(olds[k])).value];
      !r.caught ==> exists i :: 0 <= i < |r.positions| && KeyOf(r.positions[i]) == KeyOf(c)
                                && Continues(r.positions[i], olds, current)
  {
    var r := Reconcile(s, name, percentText, start, endTs, current, previous);
    var c := current[FirstWhere(current, OpenMatch(olds[k])).value];
    var cap := TruncDiv(100, p);
    var cap' := if percentText == "-1" then |current| else cap;
    var init := Scan(s, [], Falses(cap), previous, false);
    var st := ScanAll(init, olds, current);
    if !r.caught {
      ScanAllContinuing(init, olds, current);
      ScanAllEntries(init, olds, current);
      var i :| 0 <= i < |st.entries| && st.entries[i].key == KeyOf(c);
      assert st.entries[i] in st.entries;
      var all := Admit(st.entries, current, cap', endTs);
      AdmitAppends(st.entries, current, cap', endTs);
      assert all[i] == all[..|st.entries|][i] == st.entries[i];
      assert r.positions == Values(all);
      assert r.positions[i] == st.entries[i].value;
    }
  }

  /** Every stored open position with a given key is matched by the same
      current position, the first with that key; so a continuing position
      is determined by its key. */
  lemma ContinuesByKey(q: ApiPosition, olds: seq<PositionRow>, current: seq<ApiPosition>, k: nat)
    requires k < |olds| && FirstWhere(current, OpenMatch(olds[k])).Some?
    requires Continues(q, olds, current)
    requires KeyOf(q) == KeyOf(current[FirstWhere(current, OpenMatch(olds[k])).value])
    ensures q == current[FirstWhere(current, OpenMatch(olds[k])).value]
  {
    var j := FirstWhere(current, OpenMatch(olds[k])).value;
    var m :| 0 <= m < |olds| && FirstWhere(current, OpenMatch(olds[m])).Some?
             && q == current[FirstWhere(current, OpenMatch(olds[m])).value];
    var j' := FirstWhere(current, OpenMatch(olds[m])).value;
    assert OpenMatch(olds[m])(current[j]);
    assert OpenMatch(olds[k])(current[j']);
    assert j == j';
  }

  /** get_positions returns the continuing positions: unless the exception
      was caught, the current position that a stored open position of the
      previous day matches is returned as the API gave it. */
  lemma ReconcileKeepsMatched(s: Store, name: string, percentText: string, start: Day, endTs: Day,
                              current: seq<ApiPosition>, previous: seq<ApiPosition>, p: int, olds: seq<PositionRow>, k: nat)
    requires ParseInt(percentText) == Some(p) && p != 0
    requires endTs - 2 >= start
    requires FetchPositionsFromDatabase(s, name, endTs - 1) == Some(olds)
    requires k < |olds| && FirstWhere(current, OpenMatch(olds[k])).Some?
    ensures var r := Reconcile(s, name, percentText, start, endTs, current, previous);
      !r.caught ==> current[FirstWhere(current, OpenMatch(olds[k])).value] in r.positions
  {
    var r := Reconcile(s, name, percentText, start, endTs, current, previous);
    var c := current[FirstWhere(current, OpenMatch(olds[k])).value];
    ReconcileHoldsMatchedKey(s, name, percentText, start, endTs, current, previous, p, olds, k);
    if !r.caught {
      var i :| 0 <= i < |r.positions| && KeyOf(r.positions[i]) == KeyOf(c) && Continues(r.positions[i], olds, current);
      ContinuesByKey(r.positions[i], olds, current, k);
    }
  }

  /** The stored positions `get_positions` scans: those of the previous
      day in the resume branch, none in the fresh branch. */
  function ScannedRows(s: Store, name: string, start: Day, endTs: Day): seq<PositionRow> {
    if endTs - 2 >= start && FetchPositionsFromDatabase(s, name, endTs - 1).Some? then
      FetchPositionsFromDatabase(s, name, endTs - 1).value
    else []
  }

  /** Every returned position is a current position: one a stored open
      position matched, as the API gave it, or one dated `end_ts` with its
      signals dumped. */
  lemma ReconcileProvenance(s: Store, name: string, percentText: string, start: Day, endTs: Day,
                            current: seq<ApiPosition>, previous: seq<ApiPosition>)
    ensures var r := Reconcile(s, name, percentText, start, endTs, current, previous);
      forall q :: q in r.positions ==>
        || (q in current && Continues(q, ScannedRows(s, name, start, endTs), current))
        || exists c :: c in current && c.buyDate == endTs && q == Encode(c)
  {
    var r := Reconcile(s, name, percentText, start, endTs, current, previous);
    var olds := ScannedRows(s, name, start, endTs);
    if !r.caught {
      var p := ParseInt(percentText).value;
      var cap := TruncDiv(100, p);
      if endTs - 2 >= start {
        var init := Scan(s, [], Falses(cap), previous, false);
        ScanAllContinuing(init, olds, current);
        AdmittedProvenance(ScanAll(init, olds, current).entries, current, if percentText == "-1" then |current| else cap, endTs, olds);
      } else {
        AdmittedProvenance([], current, cap, endTs, olds);
      }
    }
  }

  /** Admission after the scan returns the scanned continuing positions and
      encoded positions dated `end_ts`. */
  lemma AdmittedProvenance(entries: seq<Entry>, current: seq<ApiPosition>, cap: int, endTs: Day, olds: seq<PositionRow>)
    requires forall e :: e in entries ==> Continues(e.value, olds, current)
    ensures forall q :: q in Values(Admit(entries, current, cap, endTs)) ==>
      || (q in current && Continues(q, olds, current))
      || exists c :: c in current && c.buyDate == endTs && q == Encode(c)
  {
    var all := Admit(entries, current, cap, endTs);
    AdmitAppends(entries, current, cap, endTs);
    forall q | q in Values(all)
      ensures || (q in current && Continues(q, olds, current))
              || exists c :: c in current && c.buyDate == endTs && q == Encode(c)
    {
      var i :| 0 <= i < |Values(all)| && Values(all)[i] == q;
      if i < |entries| {
        assert all[i] == entries[i] && entries[i] in entries;
        var m :| 0 <= m < |olds| && FirstWhere(current, OpenMatch(olds[m])).Some?
                 && q == current[FirstWhere(current, OpenMatch(olds[m])).value];
      } else {
        assert Dated(all[i], current, endTs);
      }
    }
  }

  /** A returned position that continues no stored open position was
      bought on `end_ts`: an old current position is never taken up. */
  lemma ReconcileUnmatchedDated(s: Store, name: string, percentText: string, start: Day, endTs: Day,
                                current: seq<ApiPosition>, previous: seq<ApiPosition>)
    ensures var r := Reconcile(s, name, percentText, start, endTs, current, previous);
      forall q :: q in r.positions && !Continues(q, ScannedRows(s, name, start, endTs), current) ==>
        q.buyDate == endTs
  {
    ReconcileProvenance(s, name, percentText, start, endTs, current, previous);
  }

  /** The database changes only by closing rows of stored positions that no
      current position matched, and stays well formed. */
  lemma ReconcileOnlyCloses(s: Store, name: string, percentText: string, start: Day, endTs: Day,
                            current: seq<ApiPosition>, previous: seq<ApiPosition>, olds: seq<PositionRow>)
    requires s.Valid()
    requires FetchPositionsFromDatabase(s, name, endTs - 1) == Some(olds)
    ensures var r := Reconcile(s, name, percentText, start, endTs, current, previous);
      OnlyClosed(s, r.store, olds, current) && r.store.Valid()
  {
    var r := Reconcile(s, name, percentText, start, endTs, current, previous);
    if ParseInt(percentText).Some? && ParseInt(percentText).value != 0 && endTs - 2 >= start {
      var cap := TruncDiv(100, ParseInt(percentText).value);
      ScanAllOnlyCloses(Scan(s, [], Falses(cap), previous, false), olds, current);
    }
  }

  /** With percent `"-1"` the fresh branch returns nothing: its cap is
      `int(100 / -1) == -100`. */
  lemma MinusOneFreshAddsNothing(s: Store, name: string, start: Day, endTs: Day,
                                 current: seq<ApiPosition>, previous: seq<ApiPosition>)
    requires endTs - 2 < start
    ensures var r := Reconcile(s, name, "-1", start, endTs, current, previous);
      r.positions == [] && r.slots == [] && !r.caught
  {
    assert ParseInt("-1") == Some(-1) by {
      assert "-1"[1..] == "1";
    }
    AdmitAppends([], current, -100, endTs);
  }

  /** With percent `"-1"` the resume branch has no slots, so any stored
      open position a current position matches raises and the result is
      `([], [])`. */
  lemma MinusOneMatchRaises(s: Store, name: string, start: Day, endTs: Day,
                            current: seq<ApiPosition>, previous: seq<ApiPosition>, olds: seq<PositionRow>, k: nat)
    requires endTs - 2 >= start
    requires FetchPositionsFromDatabase(s, name, endTs - 1) == Some(olds)
    requires k < |olds| && FirstWhere(current, OpenMatch(olds[k])).Some?
    ensures Reconcile(s, name, "-1", start, endTs, current, previous).caught
  {
    assert ParseInt("-1") == Some(-1) by {
      assert "-1"[1..] == "1";
    }
    assert Breaks(olds[k], current, 0);
    ReconcileSlotsMarked(s, name, "-1", start, endTs, current, previous, -1, olds);
  }

  /** With percent `"-1"` and no stored position matched, the resume branch
      caps at the number of current positions and so returns every current
      position dated `end_ts` (one per key). */
  lemma MinusOneAdmitsAll(s: Store, name: string, start: Day, endTs: Day,
                          current: seq<ApiPosition>, previous: seq<ApiPosition>, olds: seq<PositionRow>)
    requires endTs - 2 >= start
    requires FetchPositionsFromDatabase(s, name, endTs - 1) == Some(olds)
    requires forall k :: 0 <= k < |olds| ==> FirstWhere(current, OpenMatch(olds[k])).None?
    ensures var r := Reconcile(s, name, "-1", start, endTs, current, previous);
      && !r.caught
      && forall c :: c in current && c.buyDate == endTs ==>
           exists i :: 0 <= i < |r.positions| && KeyOf(r.positions[i]) == KeyOf(c)
  {
    assert ParseInt("-1") == Some(-1) by {
      assert "-1"[1..] == "1";
    }
    var st := Scan(s, [], Falses(-100), previous, false);
    ScanAllNoMatch(st, olds, current);
    var all := Admit([], current, |current|, endTs);
    AdmitRoomForAll([], current, |current|, endTs);
    AdmitWellKeyed([], current, |current|, endTs);
    forall c | c in current && c.buyDate == endTs
      ensures exists i :: 0 <= i < |Values(all)| && KeyOf(Values(all)[i]) == KeyOf(c)
    {
      ValuesCarryKeys(all, KeyOf(c));
    }
  }
}
