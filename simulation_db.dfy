/** `src/db/simulation.py`: moving, deleting and saving the checkpoint rows
    of a simulation. Every statement sits in a try whose `sqlite3.Error`
    handler only logs, so a failing statement leaves its table as it was and
    nothing reaches the caller. */
module SimulationDb {
  import opened Common
  import opened Store
  import opened Manager

  /** The checkpoint rows of one simulation. */
  function Named(cps: set<Checkpoint>, name: string): (r: set<Checkpoint>)
    ensures r <= cps
    ensures forall c :: c in r <==> c in cps && c.name == name
  {
    set c | c in cps && c.name == name
  }

  /** `update_simulation_data`: `UPDATE simulations SET start_ts, end_ts
      WHERE simulation_name = ?`. All three columns form the primary key, so
      two or more rows of the name would all become the same key: SQLite
      aborts the statement and the table is unchanged. With one row, that row
      is moved to the new days; with none, nothing happens. */
  function UpdateSimulationSpec(s: Store, name: string, start: Day, end: Day): (r: Store)
    ensures r.(simulations := s.simulations) == s
    ensures r.simulations - Named(r.simulations, name) == s.simulations - Named(s.simulations, name)
    ensures r != s ==> |Named(s.simulations, name)| == 1 && Named(r.simulations, name) == {Checkpoint(name, start, end)}
    ensures |Named(s.simulations, name)| >= 2 ==> r == s
    ensures Simulations !in s.catalog ==> r == s
    ensures Simulations in s.catalog && |Named(s.simulations, name)| == 1 ==> Named(r.simulations, name) == {Checkpoint(name, start, end)}
  {
    var rows := Named(s.simulations, name);
    if Simulations !in s.catalog || |rows| != 1 then s
    else
      var r := s.(simulations := (s.simulations - rows) + {Checkpoint(name, start, end)});
      assert Named(r.simulations, name) == {Checkpoint(name, start, end)};
      r
  }

  /** Moving the only row of a simulation leaves the links of its old days
      pointing at a checkpoint that no longer exists: the foreign key of
      `simulation_positions` is not enforced and links are not moved. */
  lemma UpdateSimulationOrphansLinks(s: Store, name: string, start: Day, end: Day, l: Link)
    requires Simulations in s.catalog && |Named(s.simulations, name)| == 1
    requires l in s.links && Checkpoint(l.name, l.start, l.end) in s.simulations && l.name == name
    requires (l.start, l.end) != (start, end)
    ensures var r := UpdateSimulationSpec(s, name, start, end);
      l in r.links && Checkpoint(l.name, l.start, l.end) !in r.simulations
  {
    var r := UpdateSimulationSpec(s, name, start, end);
    assert Named(r.simulations, name) == {Checkpoint(name, start, end)};
  }

  predicate OfTriple(l: Link, name: string, start: Day, end: Day) {
    l.name == name && l.start == start && l.end == end
  }

  /** `delete_simulation`: two DELETEs in one try. When the first fails (no
      `simulations` table) the second does not run; when only the second
      fails, the first keeps its effect. `positions` is never touched. */
  function DeleteSimulationSpec(s: Store, name: string, start: Day, end: Day): (r: Store)
    ensures r.(simulations := s.simulations, links := s.links) == s
    ensures Simulations in s.catalog ==> forall c :: c in r.simulations <==> c in s.simulations && c != Checkpoint(name, start, end)
    ensures Simulations !in s.catalog ==> r == s
    ensures Simulations in s.catalog && SimulationPositions in s.catalog ==>
      forall l :: l in r.links <==> l in s.links && !OfTriple(l, name, start, end)
    ensures SimulationPositions !in s.catalog ==> r.links == s.links
  {
    if Simulations !in s.catalog then s
    else
      var t := s.(simulations := s.simulations - {Checkpoint(name, start, end)});
      if SimulationPositions !in s.catalog then t
      else t.(links := set l | l in s.links && !OfTriple(l, name, start, end))
  }

  /** Deleting twice is deleting once. */
  lemma DeleteSimulationIdempotent(s: Store, name: string, start: Day, end: Day)
    ensures var once := DeleteSimulationSpec(s, name, start, end);
      DeleteSimulationSpec(once, name, start, end) == once
  {
    var once := DeleteSimulationSpec(s, name, start, end);
    var twice := DeleteSimulationSpec(once, name, start, end);
    assert twice.simulations == once.simulations;
    assert twice.links == once.links;
  }

  method UpdateSimulationData(db: DatabaseManager, name: string, start: Day, end: Day)
    requires db.Valid()
    modifies db
    ensures db.Valid()
    ensures db.Snapshot() == UpdateSimulationSpec(old(db.Snapshot()), name, start, end)
  {
    var rows := set c | c in db.simulations && c.name == name;
    if Simulations in db.catalog && |rows| == 1 {
      db.simulations := (db.simulations - rows) + {Checkpoint(name, start, end)};
    }
  }

  method DeleteSimulation(db: DatabaseManager, name: string, start: Day, end: Day)
    requires db.Valid()
    modifies db
    ensures db.Valid()
    ensures db.Snapshot() == DeleteSimulationSpec(old(db.Snapshot()), name, start, end)
  {
    if Simulations !in db.catalog {
      return;
    }
    db.simulations := db.simulations - {Checkpoint(name, start, end)};
    if SimulationPositions in db.catalog {
      db.links := set l | l in db.links && !OfTriple(l, name, start, end);
    }
  }

  /** `save_simulation_data` of `simulation.py`: the same upsert as the
      manager's method. */
  method SaveSimulationData(db: DatabaseManager, name: string, start: Day, end: Day)
    requires db.Valid()
    modifies db
    ensures db.Valid()
    ensures db.Snapshot() == UpsertCheckpoint(old(db.Snapshot()), Checkpoint(name, start, end))
  {
    if Simulations in db.catalog {
      db.simulations := db.simulations + {Checkpoint(name, start, end)};
    }
  }
}
