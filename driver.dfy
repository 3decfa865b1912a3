/** `src/simulation/simulates.py`: the daily catch-up. For every configured
    simulation it resumes at the last recorded day, and for each day up to
    the configured end it records the day, then find-or-inserts every
    position of that day and links it to the day. The positions of a day are
    what `get_positions` returns for it, taken here as an input `feed`. */
module Driver {
  import opened Common
  import opened Store
  import opened Manager

  /** One entry of the simulations configuration: its name, `start_ts` and
      optional `end_ts`, as day numbers. */
  datatype SimulationConfig = SimulationConfig(name: string, start: Day, end: Option<Day>)

  /** `end_ts_config`: the configured end, or `datetime.now()`. A day's
      midnight is `<=` a `now` taken during `today` exactly when the day is
      not after `today`, so the last processed day is `today`. */
  function LastDay(cfg: SimulationConfig, today: Day): Day {
    if cfg.end.Some? then cfg.end.value else today
  }

  /** The recorded `end_ts` values of a simulation. */
  function Ends(cps: set<Checkpoint>, name: string): set<Day> {
    set c | c in cps && c.name == name :: c.end
  }

  /** `SELECT MAX(end_ts) FROM simulations WHERE simulation_name = ?`, with
      NULL when the simulation has no row. */
  predicate IsMaxEnd(cps: set<Checkpoint>, name: string, m: Option<Day>) {
    && (m.None? <==> Ends(cps, name) == {})
    && (m.Some? ==> m.value in Ends(cps, name) && forall d :: d in Ends(cps, name) ==> d <= m.value)
  }

  predicate IsMax(xs: set<int>, m: int) {
    m in xs && forall x :: x in xs ==> x <= m
  }

  /** A finite non-empty set of days has a largest element. */
  lemma {:induction false} MaxExists(xs: set<int>)
    requires xs != {}
    ensures exists m :: IsMax(xs, m)
    decreases |xs|
  {
    if forall z :: z !in xs {
      assert false;
    }
    var y :| y in xs;
    var rest := xs - {y};
    if rest == {} {
      forall x | x in xs
        ensures x <= y
      {
        assert x in rest || x == y;
      }
      assert IsMax(xs, y);
    } else {
      MaxExists(rest);
      var m :| IsMax(rest, m);
      var top := if y > m then y else m;
      forall x | x in xs
        ensures x <= top
      {
        if x != y {
          assert x in rest;
        }
      }
      assert IsMax(xs, top);
    }
  }

  /** The MAX query always has an answer. */
  lemma MaxEndExists(cps: set<Checkpoint>, name: string)
    ensures exists m :: IsMaxEnd(cps, name, m)
  {
    if Ends(cps, name) == {} {
      assert IsMaxEnd(cps, name, None);
    } else {
      MaxExists(Ends(cps, name));
      var m :| IsMax(Ends(cps, name), m);
      assert IsMaxEnd(cps, name, Some(m));
    }
  }

  /** The MAX query has only one answer. */
  lemma MaxEndUnique(cps: set<Checkpoint>, name: string, m: Option<Day>, m': Option<Day>)
    requires IsMaxEnd(cps, name, m) && IsMaxEnd(cps, name, m')
    ensures m == m'
  {
    if m.Some? && m'.Some? {
      assert m.value <= m'.value && m'.value <= m.value;
    }
  }

  ghost function MaxEnd(cps: set<Checkpoint>, name: string): (m: Option<Day>)
    ensures IsMaxEnd(cps, name, m)
  {
    MaxEndExists(cps, name);
    var m :| IsMaxEnd(cps, name, m);
    m
  }

  /** The first day processed: the largest recorded `end_ts` of the
      simulation (processed again), else the day after `start_ts`. */
  ghost function ResumeDay(s: Store, cfg: SimulationConfig): (r: Day)
    ensures Ends(s.simulations, cfg.name) == {} ==> r == cfg.start + 1
    ensures Ends(s.simulations, cfg.name) != {} ==>
      r in Ends(s.simulations, cfg.name) && forall d :: d in Ends(s.simulations, cfg.name) ==> d <= r
  {
    match MaxEnd(s.simulations, cfg.name)
    case Some(d) => d
    case None => cfg.start + 1
  }

  /** The WHERE clause of the driver's find step: pair, buy date and buy
      price equal, and a stored sell date and sell price that are equal or
      NULL. */
  function Lenient(p: ApiPosition): PositionRow -> bool {
    (row: PositionRow) =>
      && row.pair == p.pair && row.buyDate == p.buyDate && row.buyPrice == p.buyPrice
      && (SqlEq(row.sellDate, p.sellDate) || row.sellDate.None?)
      && (SqlEq(row.sellPrice, p.sellPrice) || row.sellPrice.None?)
  }

  /** The driver's INSERT names only pair, buy date, buy price, sell date
      and sell price; every other column is NULL. */
  function Bare(p: ApiPosition): PositionRow {
    PositionRow(0, p.pair, p.buyDate, p.buyPrice, p.sellDate, p.sellPrice, None, None, None, None, None, None, None)
  }

  /** A row holding nothing but the five columns the driver writes. */
  predicate BareRow(row: PositionRow) {
    && row.buyIndex.None? && row.sellIndex.None? && row.duration.None? && row.ratio.None?
    && row.buySignals.None? && row.sellSignals.None? && row.fundSlot.None?
  }

  /** One iteration of the position loop: reuse the id of the first row the
      lenient query finds, or insert a bare row; then `INSERT OR REPLACE`
      the link of the position to the day (the link's four columns are the
      primary key, so replacing is adding to a set). */
  function LinkOne(s: Store, name: string, start: Day, day: Day, p: ApiPosition): (r: Store)
    ensures r.(positions := s.positions, nextId := s.nextId, links := s.links) == s
    ensures FirstWhere(s.positions, Lenient(p)).Some? ==>
      && r.positions == s.positions && r.nextId == s.nextId
      && r.links == s.links + {Link(name, start, day, s.positions[FirstWhere(s.positions, Lenient(p)).value].id)}
    ensures FirstWhere(s.positions, Lenient(p)).None? ==>
      && r.positions == s.positions + [Bare(p).(id := s.nextId)] && r.nextId == s.nextId + 1
      && r.links == s.links + {Link(name, start, day, s.nextId)}
  {
    match FirstWhere(s.positions, Lenient(p))
    case Some(k) => s.(links := s.links + {Link(name, start, day, s.positions[k].id)})
    case None =>
      var t := Insert(s, Bare(p));
      t.(links := t.links + {Link(name, start, day, s.nextId)})
  }

  /** The loop over the positions of one day. */
  function LinkAll(s: Store, name: string, start: Day, day: Day, ps: seq<ApiPosition>): (r: Store)
    decreases |ps|
  {
    if ps == [] then s else LinkAll(LinkOne(s, name, start, day, ps[0]), name, start, day, ps[1..])
  }

  /** One day of the catch-up: record the day, then link its positions. */
  function DayStep(s: Store, name: string, start: Day, day: Day, ps: seq<ApiPosition>): Store {
    LinkAll(UpsertCheckpoint(s, Checkpoint(name, start, day)), name, start, day, ps)
  }

  /** The `while end_ts <= end_ts_config` loop from `day` on. */
  function CatchUpFrom(s: Store, name: string, start: Day, day: Day, last: Day,
                       feed: (string, Day) -> seq<ApiPosition>): Store
    decreases if day <= last then last - day + 1 else 0
  {
    if day > last then s
    else CatchUpFrom(DayStep(s, name, start, day, feed(name, day)), name, start, day + 1, last, feed)
  }

  /** The body of the loop over configured simulations. */
  ghost function RunConfig(s: Store, cfg: SimulationConfig, today: Day, feed: (string, Day) -> seq<ApiPosition>): Store {
    CatchUpFrom(s, cfg.name, cfg.start, ResumeDay(s, cfg), LastDay(cfg, today), feed)
  }

  /** `simulates`: the configured simulations in configuration order. */
  ghost function Simulates(s: Store, cfgs: seq<SimulationConfig>, today: Day, feed: (string, Day) -> seq<ApiPosition>): Store
    decreases |cfgs|
  {
    if cfgs == [] then s else Simulates(RunConfig(s, cfgs[0], today, feed), cfgs[1..], today, feed)
  }

  // ---------------------------------------------------------------------
  // The imperative driver

  /** The SELECT, the INSERT when nothing matches, and the link upsert for
      one position. */
  method LinkPosition(db: DatabaseManager, name: string, start: Day, day: Day, p: ApiPosition)
    modifies db
    ensures db.Snapshot() == LinkOne(old(db.Snapshot()), name, start, day, p)
  {
    var existing := Search(db.positions, Lenient(p));
    var id;
    if existing.Some? {
      id := db.positions[existing.value].id;
    } else {
      id := db.nextId;
      db.positions := db.positions + [Bare(p).(id := db.nextId)];
      db.nextId := db.nextId + 1;
    }
    db.links := db.links + {Link(name, start, day, id)};
  }

  /** The `for position in positions` loop of one day. */
  method LinkPositions(db: DatabaseManager, name: string, start: Day, day: Day, ps: seq<ApiPosition>)
    modifies db
    ensures db.Snapshot() == LinkAll(old(db.Snapshot()), name, start, day, ps)
  {
    for i := 0 to |ps|
      invariant LinkAll(db.Snapshot(), name, start, day, ps[i..]) == LinkAll(old(db.Snapshot()), name, start, day, ps)
    {
      assert ps[i..][1..] == ps[i + 1..];
      LinkPosition(db, name, start, day, ps[i]);
    }
    assert ps[|ps|..] == [];
  }

  /** One iteration of the `while` loop. */
  method ProcessDay(db: DatabaseManager, name: string, start: Day, day: Day, ps: seq<ApiPosition>)
    requires db.Valid() && db.Ready()
    modifies db
    ensures db.Valid() && db.Ready()
    ensures db.Snapshot() == DayStep(old(db.Snapshot()), name, start, day, ps)
  {
    db.SaveSimulationData(name, start, day);
    ghost var saved := db.Snapshot();
    LinkPositions(db, name, start, day, ps);
    LinkAllValid(saved, name, start, day, ps);
    LinkAllFrame(saved, name, start, day, ps);
  }

  /** The `SELECT MAX(end_ts)` step: the first day to process. */
  method ResumePoint(db: DatabaseManager, cfg: SimulationConfig) returns (day: Day)
    ensures day == ResumeDay(db.Snapshot(), cfg)
  {
    MaxEndExists(db.simulations, cfg.name);
    var m :| IsMaxEnd(db.simulations, cfg.name, m);
    MaxEndUnique(db.simulations, cfg.name, m, MaxEnd(db.simulations, cfg.name));
    day := if m.Some? then m.value else cfg.start + 1;
  }

  /** The catch-up of one configured simulation, with the positions of a
      day unpacked from `get_positions`' pair of results. */
  method CatchUp(db: DatabaseManager, cfg: SimulationConfig, today: Day, feed: (string, Day) -> seq<ApiPosition>)
    requires db.Valid() && db.Ready()
    modifies db
    ensures db.Valid() && db.Ready()
    ensures db.Snapshot() == RunConfig(old(db.Snapshot()), cfg, today, feed)
  {
    var last := LastDay(cfg, today);
    var day := ResumePoint(db, cfg);
    ghost var target := CatchUpFrom(db.Snapshot(), cfg.name, cfg.start, day, last, feed);
    assert target == RunConfig(old(db.Snapshot()), cfg, today, feed);
    while day <= last
      invariant db.Valid() && db.Ready()
      invariant CatchUpFrom(db.Snapshot(), cfg.name, cfg.start, day, last, feed) == target
      decreases last - day + 1
    {
      ghost var before := db.Snapshot();
      ProcessDay(db, cfg.name, cfg.start, day, feed(cfg.name, day));
      assert CatchUpFrom(before, cfg.name, cfg.start, day, last, feed) == CatchUpFrom(db.Snapshot(), cfg.name, cfg.start, day + 1, last, feed);
      day := day + 1;
    }
  }

  /** `simulates`: every configured simulation in turn. */
  method RunSimulations(db: DatabaseManager, cfgs: seq<SimulationConfig>, today: Day, feed: (string, Day) -> seq<ApiPosition>)
    requires db.Valid() && db.Ready()
    modifies db
    ensures db.Valid() && db.Ready()
    ensures db.Snapshot() == Simulates(old(db.Snapshot()), cfgs, today, feed)
  {
    for i := 0 to |cfgs|
      invariant db.Valid() && db.Ready()
      invariant Simulates(db.Snapshot(), cfgs[i..], today, feed) == Simulates(old(db.Snapshot()), cfgs, today, feed)
    {
      assert cfgs[i..][1..] == cfgs[i + 1..];
      CatchUp(db, cfgs[i], today, feed);
    }
    assert cfgs[|cfgs|..] == [];
  }

  // ---------------------------------------------------------------------
  // Properties

  /** Linking keeps rowids ascending below the counter. */
  lemma {:induction false} LinkAllValid(s: Store, name: string, start: Day, day: Day, ps: seq<ApiPosition>)
    requires s.Valid()
    ensures LinkAll(s, name, start, day, ps).Valid()
    decreases |ps|
  {
    if ps != [] {
      LinkAllValid(LinkOne(s, name, start, day, ps[0]), name, start, day, ps[1..]);
    }
  }

  /** Linking touches nothing but `positions`, the counter and the links;
      it keeps every stored row where it was, appends only bare rows and
      removes no link. */
  lemma {:induction false} LinkAllFrame(s: Store, name: string, start: Day, day: Day, ps: seq<ApiPosition>)
    ensures var r := LinkAll(s, name, start, day, ps);
      && r.(positions := s.positions, nextId := s.nextId, links := s.links) == s
      && |s.positions| <= |r.positions| && r.positions[..|s.positions|] == s.positions
      && (forall i :: |s.positions| <= i < |r.positions| ==> BareRow(r.positions[i]))
      && s.links <= r.links
    decreases |ps|
  {
    if ps != [] {
      var t := LinkOne(s, name, start, day, ps[0]);
      LinkAllFrame(t, name, start, day, ps[1..]);
      var r := LinkAll(s, name, start, day, ps);
      assert r.positions[..|s.positions|] == r.positions[..|t.positions|][..|s.positions|];
      forall i | |s.positions| <= i < |r.positions|
        ensures BareRow(r.positions[i])
      {
        if i < |t.positions| {
          assert r.positions[i] == r.positions[..|t.positions|][i];
        }
      }
    }
  }

  /** The position `p` of `day` is settled: the lenient query finds a
      stored row for it, and that row is linked to the day. */
  predicate Settled(s: Store, name: string, start: Day, day: Day, p: ApiPosition) {
    match FirstWhere(s.positions, Lenient(p))
    case Some(k) => Link(name, start, day, s.positions[k].id) in s.links
    case None => false
  }

  /** After its iteration a position is settled: a reused row is linked,
      and an inserted row is the one the query finds from then on. */
  lemma LinkOneSettles(s: Store, name: string, start: Day, day: Day, p: ApiPosition)
    ensures Settled(LinkOne(s, name, start, day, p), name, start, day, p)
  {
    if FirstWhere(s.positions, Lenient(p)).None? {
      var row := Bare(p).(id := s.nextId);
      assert Lenient(p)(row);
      assert FirstWhere([row], Lenient(p)) == Some(0);
      FirstWhereAfter(s.positions, [row], Lenient(p));
    }
  }

  /** Appending rows and adding links keeps a position settled. */
  lemma SettledPersists(s: Store, r: Store, name: string, start: Day, day: Day, p: ApiPosition)
    requires Settled(s, name, start, day, p)
    requires |s.positions| <= |r.positions| && r.positions[..|s.positions|] == s.positions
    requires s.links <= r.links
    ensures Settled(r, name, start, day, p)
  {
    assert r.positions == s.positions + r.positions[|s.positions|..];
    FirstWhereExtend(s.positions, r.positions[|s.positions|..], Lenient(p));
  }

  /** Every position of the day is settled once the loop is over. */
  lemma {:induction false} LinkAllSettles(s: Store, name: string, start: Day, day: Day, ps: seq<ApiPosition>)
    ensures forall p :: p in ps ==> Settled(LinkAll(s, name, start, day, ps), name, start, day, p)
    decreases |ps|
  {
    if ps != [] {
      var t := LinkOne(s, name, start, day, ps[0]);
      var r := LinkAll(s, name, start, day, ps);
      LinkAllSettles(t, name, start, day, ps[1..]);
      LinkOneSettles(s, name, start, day, ps[0]);
      LinkAllFrame(t, name, start, day, ps[1..]);
      SettledPersists(t, r, name, start, day, ps[0]);
      forall p | p in ps
        ensures Settled(r, name, start, day, p)
      {
        if p != ps[0] {
          assert p in ps[1..];
        }
      }
    }
  }

  /** Processing an already settled position changes nothing: no row and
      no duplicate link. */
  lemma {:induction false} LinkAllFixed(s: Store, name: string, start: Day, day: Day, ps: seq<ApiPosition>)
    requires forall p :: p in ps ==> Settled(s, name, start, day, p)
    ensures LinkAll(s, name, start, day, ps) == s
    decreases |ps|
  {
    if ps != [] {
      assert Settled(s, name, start, day, ps[0]);
      var k := FirstWhere(s.positions, Lenient(ps[0])).value;
      assert s.links + {Link(name, start, day, s.positions[k].id)} == s.links;
      assert LinkOne(s, name, start, day, ps[0]) == s;
      forall p | p in ps[1..]
        ensures Settled(s, name, start, day, p)
      {
        assert p in ps;
      }
      LinkAllFixed(s, name, start, day, ps[1..]);
    }
  }

  /** A processed day is recorded and each of its positions is settled. */
  lemma DayStepSettles(s: Store, name: string, start: Day, day: Day, ps: seq<ApiPosition>)
    ensures var r := DayStep(s, name, start, day, ps);
      && (Simulations in s.catalog ==> Checkpoint(name, start, day) in r.simulations)
      && forall p :: p in ps ==> Settled(r, name, start, day, p)
  {
    var u := UpsertCheckpoint(s, Checkpoint(name, start, day));
    LinkAllFrame(u, name, start, day, ps);
    LinkAllSettles(u, name, start, day, ps);
  }

  /** Processing the same day twice with the same positions is processing
      it once. */
  lemma DayStepIdempotent(s: Store, name: string, start: Day, day: Day, ps: seq<ApiPosition>)
    ensures DayStep(DayStep(s, name, start, day, ps), name, start, day, ps) == DayStep(s, name, start, day, ps)
  {
    var r := DayStep(s, name, start, day, ps);
    var c := Checkpoint(name, start, day);
    var u := UpsertCheckpoint(s, c);
    LinkAllFrame(u, name, start, day, ps);
    DayStepSettles(s, name, start, day, ps);
    if Simulations in r.catalog {
      assert r.simulations + {c} == r.simulations;
    }
    assert UpsertCheckpoint(r, c) == r;
    LinkAllFixed(r, name, start, day, ps);
  }

  /** The catch-up writes only checkpoints, positions and links: it adds
      checkpoints of this simulation for days in `[day, last]` only, keeps
      every stored row, appends only bare rows and removes no link. */
  lemma {:induction false} CatchUpFrame(s: Store, name: string, start: Day, day: Day, last: Day,
                                        feed: (string, Day) -> seq<ApiPosition>)
    ensures var r := CatchUpFrom(s, name, start, day, last, feed);
      && r.(simulations := s.simulations, positions := s.positions, nextId := s.nextId, links := s.links) == s
      && s.simulations <= r.simulations
      && (forall c :: c in r.simulations && c !in s.simulations ==> c.name == name && c.start == start && day <= c.end <= last)
      && |s.positions| <= |r.positions| && r.positions[..|s.positions|] == s.positions
      && (forall i :: |s.positions| <= i < |r.positions| ==> BareRow(r.positions[i]))
      && s.links <= r.links
    decreases if day <= last then last - day + 1 else 0
  {
    if day <= last {
      var u := UpsertCheckpoint(s, Checkpoint(name, start, day));
      var t := DayStep(s, name, start, day, feed(name, day));
      var r := CatchUpFrom(s, name, start, day, last, feed);
      LinkAllFrame(u, name, start, day, feed(name, day));
      CatchUpFrame(t, name, start, day + 1, last, feed);
      assert r.positions[..|s.positions|] == r.positions[..|t.positions|][..|s.positions|];
      forall i | |s.positions| <= i < |r.positions|
        ensures BareRow(r.positions[i])
      {
        if i < |t.positions| {
          assert r.positions[i] == r.positions[..|t.positions|][i];
        }
      }
    }
  }

  /** Every day from `day` to `last` is recorded in `simulations`. */
  lemma {:induction false} CatchUpRecordsDays(s: Store, name: string, start: Day, day: Day, last: Day,
                                              feed: (string, Day) -> seq<ApiPosition>)
    requires Simulations in s.catalog
    ensures forall d :: day <= d <= last ==> Checkpoint(name, start, d) in CatchUpFrom(s, name, start, day, last, feed).simulations
    decreases if day <= last then last - day + 1 else 0
  {
    if day <= last {
      var t := DayStep(s, name, start, day, feed(name, day));
      var r := CatchUpFrom(s, name, start, day, last, feed);
      assert r == CatchUpFrom(t, name, start, day + 1, last, feed);
      DayStepSettles(s, name, start, day, feed(name, day));
      LinkAllFrame(UpsertCheckpoint(s, Checkpoint(name, start, day)), name, start, day, feed(name, day));
      CatchUpRecordsDays(t, name, start, day + 1, last, feed);
      CatchUpFrame(t, name, start, day + 1, last, feed);
      forall d | day <= d <= last
        ensures Checkpoint(name, start, d) in r.simulations
      {
        if d == day {
          assert Checkpoint(name, start, day) in t.simulations;
        }
      }
    }
  }

  /** Every position fed for a processed day is stored and linked to that
      day. */
  lemma {:induction false} CatchUpLinksEveryPosition(s: Store, name: string, start: Day, day: Day, last: Day,
                                                     feed: (string, Day) -> seq<ApiPosition>)
    ensures forall d, p :: day <= d <= last && p in feed(name, d) ==>
      Settled(CatchUpFrom(s, name, start, day, last, feed), name, start, d, p)
    decreases if day <= last then last - day + 1 else 0
  {
    if day <= last {
      var t := DayStep(s, name, start, day, feed(name, day));
      var r := CatchUpFrom(s, name, start, day, last, feed);
      DayStepSettles(s, name, start, day, feed(name, day));
      CatchUpLinksEveryPosition(t, name, start, day + 1, last, feed);
      CatchUpFrame(t, name, start, day + 1, last, feed);
      forall p | p in feed(name, day)
        ensures Settled(r, name, start, day, p)
      {
        SettledPersists(t, r, name, start, day, p);
      }
    }
  }

  /** After the catch-up, processing its last day again changes nothing. */
  lemma CatchUpLastDayFixed(s: Store, name: string, start: Day, day: Day, last: Day,
                            feed: (string, Day) -> seq<ApiPosition>)
    requires day <= last
    ensures var r := CatchUpFrom(s, name, start, day, last, feed);
      DayStep(r, name, start, last, feed(name, last)) == r
  {
    var r := CatchUpFrom(s, name, start, day, last, feed);
    var c := Checkpoint(name, start, last);
    CatchUpFrame(s, name, start, day, last, feed);
    CatchUpLinksEveryPosition(s, name, start, day, last, feed);
    if Simulations in s.catalog {
      CatchUpRecordsDays(s, name, start, day, last, feed);
      assert r.simulations + {c} == r.simulations;
    }
    assert UpsertCheckpoint(r, c) == r;
    LinkAllFixed(r, name, start, last, feed(name, last));
  }

  /** After a run that processed any day, the largest recorded `end_ts` of
      the simulation is its last day, so the next run resumes there. */
  lemma RunConfigResumesAtLast(s: Store, cfg: SimulationConfig, today: Day, feed: (string, Day) -> seq<ApiPosition>)
    requires Simulations in s.catalog
    requires ResumeDay(s, cfg) <= LastDay(cfg, today)
    ensures ResumeDay(RunConfig(s, cfg, today, feed), cfg) == LastDay(cfg, today)
  {
    var day, last := ResumeDay(s, cfg), LastDay(cfg, today);
    var r := RunConfig(s, cfg, today, feed);
    CatchUpFrame(s, cfg.name, cfg.start, day, last, feed);
    CatchUpRecordsDays(s, cfg.name, cfg.start, day, last, feed);
    assert Checkpoint(cfg.name, cfg.start, last) in r.simulations;
    assert last in Ends(r.simulations, cfg.name);
    forall e | e in Ends(r.simulations, cfg.name)
      ensures e <= last
    {
      var c :| c in r.simulations && c.name == cfg.name && c.end == e;
      if c in s.simulations {
        assert e in Ends(s.simulations, cfg.name);
      }
    }
    assert IsMaxEnd(r.simulations, cfg.name, Some(last));
    MaxEndUnique(r.simulations, cfg.name, Some(last), MaxEnd(r.simulations, cfg.name));
  }

  /** Running a simulation again right after it ran changes nothing: the
      rerun processes only the last day, whose checkpoint, positions and
      links are all there already. */
  lemma RunConfigIdempotent(s: Store, cfg: SimulationConfig, today: Day, feed: (string, Day) -> seq<ApiPosition>)
    requires Simulations in s.catalog
    ensures RunConfig(RunConfig(s, cfg, today, feed), cfg, today, feed) == RunConfig(s, cfg, today, feed)
  {
    var day, last := ResumeDay(s, cfg), LastDay(cfg, today);
    var r := RunConfig(s, cfg, today, feed);
    if day <= last {
      CatchUpFrame(s, cfg.name, cfg.start, day, last, feed);
      RunConfigResumesAtLast(s, cfg, today, feed);
      CatchUpLastDayFixed(s, cfg.name, cfg.start, day, last, feed);
      assert CatchUpFrom(r, cfg.name, cfg.start, last + 1, last, feed) == r;
    }
  }

  /** `simulates` keeps the tables it needs and the ascending rowids. */
  lemma {:induction false} SimulatesValid(s: Store, cfgs: seq<SimulationConfig>, today: Day, feed: (string, Day) -> seq<ApiPosition>)
    requires s.Valid() && s.Ready()
    ensures var r := Simulates(s, cfgs, today, feed);
      r.Valid() && r.Ready() && r.catalog == s.catalog && r.fundTables == s.fundTables && r.funds == s.funds
    decreases |cfgs|
  {
    if cfgs != [] {
      var t := RunConfig(s, cfgs[0], today, feed);
      CatchUpValid(s, cfgs[0].name, cfgs[0].start, ResumeDay(s, cfgs[0]), LastDay(cfgs[0], today), feed);
      CatchUpFrame(s, cfgs[0].name, cfgs[0].start, ResumeDay(s, cfgs[0]), LastDay(cfgs[0], today), feed);
      SimulatesValid(t, cfgs[1..], today, feed);
    }
  }

  lemma {:induction false} CatchUpValid(s: Store, name: string, start: Day, day: Day, last: Day,
                                        feed: (string, Day) -> seq<ApiPosition>)
    requires s.Valid()
    ensures CatchUpFrom(s, name, start, day, last, feed).Valid()
    decreases if day <= last then last - day + 1 else 0
  {
    if day <= last {
      LinkAllValid(UpsertCheckpoint(s, Checkpoint(name, start, day)), name, start, day, feed(name, day));
      CatchUpValid(DayStep(s, name, start, day, feed(name, day)), name, start, day + 1, last, feed);
    }
  }

  // ---------------------------------------------------------------------
  // As written: `get_positions` returns the pair `(positions, fund_slots)`
  // (or `([], [])` after an error), and `for position in positions`
  // iterates that pair. Its first element is a list, so `position["pair"]`
  // raises TypeError on the first iteration of every day, after the day's
  // checkpoint is saved; nothing catches it, so `simulates` stops there.

  /** One configured simulation as written: skipped when there is no day
      to process, otherwise its first day is recorded and the loop raises. */
  ghost function RunConfigAsWritten(s: Store, cfg: SimulationConfig, today: Day): Effect {
    var day := ResumeDay(s, cfg);
    if day > LastDay(cfg, today) then Effect(s, false)
    else Effect(UpsertCheckpoint(s, Checkpoint(cfg.name, cfg.start, day)), true)
  }

  /** `simulates` as written: the first configuration with a day to process
      raises out of the loop over configurations. */
  ghost function SimulatesAsWritten(s: Store, cfgs: seq<SimulationConfig>, today: Day): Effect
    decreases |cfgs|
  {
    if cfgs == [] then Effect(s, false)
    else
      var e := RunConfigAsWritten(s, cfgs[0], today);
      if e.raised then e else SimulatesAsWritten(e.store, cfgs[1..], today)
  }

  /** As written, a run stores no position and links nothing. */
  lemma {:induction false} SimulatesAsWrittenLinksNothing(s: Store, cfgs: seq<SimulationConfig>, today: Day)
    ensures var r := SimulatesAsWritten(s, cfgs, today).store;
      r.positions == s.positions && r.links == s.links && r.nextId == s.nextId
    decreases |cfgs|
  {
    if cfgs != [] {
      var e := RunConfigAsWritten(s, cfgs[0], today);
      if !e.raised {
        SimulatesAsWrittenLinksNothing(e.store, cfgs[1..], today);
      }
    }
  }

  /** As written, a simulation with a day to process raises on it and
      leaves its resume day where it was, so every later run raises on the
      same day and the simulation never advances. */
  lemma RunConfigAsWrittenStuck(s: Store, cfg: SimulationConfig, today: Day)
    requires ResumeDay(s, cfg) <= LastDay(cfg, today)
    ensures var e := RunConfigAsWritten(s, cfg, today);
      e.raised && ResumeDay(e.store, cfg) == ResumeDay(s, cfg)
  {
    var day := ResumeDay(s, cfg);
    var e := RunConfigAsWritten(s, cfg, today);
    var c := Checkpoint(cfg.name, cfg.start, day);
    var before, after := Ends(s.simulations, cfg.name), Ends(e.store.simulations, cfg.name);
    assert day in after || Simulations !in s.catalog;
    forall x | x in after
      ensures x in before || x == day
    {
      var c' :| c' in e.store.simulations && c'.name == cfg.name && c'.end == x;
      if c' != c {
        assert c' in s.simulations;
      }
    }
    forall x | x in before
      ensures x in after
    {
      var c' :| c' in s.simulations && c'.name == cfg.name && c'.end == x;
      assert c' in e.store.simulations;
    }
    var m := MaxEnd(s.simulations, cfg.name);
    if Simulations in s.catalog {
      assert IsMaxEnd(e.store.simulations, cfg.name, Some(day));
      MaxEndUnique(e.store.simulations, cfg.name, Some(day), MaxEnd(e.store.simulations, cfg.name));
    } else {
      assert e.store == s;
    }
  }

  /** The discrepancy: on a database with the tables and a simulation
      behind by more than one day, the corrected run resumes at the last
      day next time, while the run as written resumes where it started. */
  lemma AsWrittenNeverCatchesUp(s: Store, cfg: SimulationConfig, today: Day, feed: (string, Day) -> seq<ApiPosition>)
    requires Simulations in s.catalog
    requires ResumeDay(s, cfg) < LastDay(cfg, today)
    ensures ResumeDay(RunConfigAsWritten(s, cfg, today).store, cfg) < ResumeDay(RunConfig(s, cfg, today, feed), cfg)
  {
    RunConfigAsWrittenStuck(s, cfg, today);
    RunConfigResumesAtLast(s, cfg, today, feed);
  }
}
