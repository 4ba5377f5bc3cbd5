// What the tables hold after any interleaving: each dataset table is one
// complete payload's rows, and the ledger is a serial run of its writes.
module SchedulerTables {
  import opened Jsons
  import opened Texts
  import opened Ledger
  import opened Scheduler
  import DocumentRows
  import LedgerRuns

  // ------------------------------------------------------------------
  // Running a list of inserts
  // ------------------------------------------------------------------

  // Inserts into one table, with distinct keys, nulls aside, and none that raises.
  ghost predicate Clean(inserts: seq<Statement>, d: Dataset) {
    && (forall i :: 0 <= i < |inserts| ==> inserts[i].Insert? && inserts[i].dataset == d)
    && (forall i, j :: 0 <= i < j < |inserts| ==> inserts[i].key.None? || inserts[i].key != inserts[j].key)
  }

  ghost predicate For(inserts: seq<Statement>, d: Dataset) {
    forall i :: 0 <= i < |inserts| ==> inserts[i].Raise? || (inserts[i].Insert? && inserts[i].dataset == d)
  }

  function Loaded(inserts: seq<Statement>): Table
    requires forall i :: 0 <= i < |inserts| ==> inserts[i].Insert?
  {
    if inserts == [] then NO_ROWS else
    WithRow(Loaded(inserts[..|inserts| - 1]), inserts[|inserts| - 1].key, inserts[|inserts| - 1].cached)
  }

  // The rows without a key, in order.
  function Unkeyed(inserts: seq<Statement>): seq<Cached> {
    if inserts == [] then [] else
    var last := inserts[|inserts| - 1];
    Unkeyed(inserts[..|inserts| - 1]) + if last.Insert? && last.key.None? then [last.cached] else []
  }

  // The table holds each row once and nothing else.
  ghost predicate IsExactly(table: Table, inserts: seq<Statement>) {
    && table.unkeyed == Unkeyed(inserts) && |table.keyed| + |table.unkeyed| == |inserts|
    && forall i :: 0 <= i < |inserts| ==> inserts[i].Insert? && Holds(table, inserts[i])
  }

  predicate Holds(table: Table, insert: Statement)
    requires insert.Insert?
  {
    insert.key.Some? ==> insert.key.value in table.keyed && table.keyed[insert.key.value] == insert.cached
  }

  ghost predicate HasKey(inserts: seq<Statement>, key: Option<string>) {
    key.Some? && exists i :: 0 <= i < |inserts| && inserts[i].Insert? && inserts[i].key == key
  }

  lemma CleanSnoc(front: seq<Statement>, last: Statement, d: Dataset)
    ensures Clean(front + [last], d)
       <==> Clean(front, d) && last.Insert? && last.dataset == d && !HasKey(front, last.key)
  {
    var all := front + [last];
    assert all[|front|] == last && forall i :: 0 <= i < |front| ==> all[i] == front[i];
  }

  lemma {:induction false} LoadedIsExactly(inserts: seq<Statement>, d: Dataset)
    requires Clean(inserts, d)
    ensures IsExactly(Loaded(inserts), inserts)
    ensures forall key: Option<string> :: Taken(Loaded(inserts), key) <==> HasKey(inserts, key)
  {
    if inserts != [] {
      var n := |inserts| - 1;
      var front, last := inserts[..n], inserts[n];
      assert inserts == front + [last];
      CleanSnoc(front, last, d);
      LoadedIsExactly(front, d);
      assert Loaded(inserts) == WithRow(Loaded(front), last.key, last.cached);
      hide Loaded, Clean;
      OneMoreRow(Loaded(front), front, last);
      forall key: Option<string> ensures Taken(Loaded(inserts), key) <==> HasKey(inserts, key) {
        OneMoreKey(Loaded(front), front, last, key);
      }
    }
  }

  lemma OneMoreRow(table: Table, front: seq<Statement>, last: Statement)
    requires IsExactly(table, front) && last.Insert? && !Taken(table, last.key)
    requires forall i :: 0 <= i < |front| ==> front[i].Insert? && (front[i].key.None? || front[i].key != last.key)
    ensures IsExactly(WithRow(table, last.key, last.cached), front + [last])
  {
    var all := front + [last];
    assert all[..|front|] == front && all[|front|] == last && forall i :: 0 <= i < |front| ==> all[i] == front[i];
  }

  lemma OneMoreKey(table: Table, front: seq<Statement>, last: Statement, key: Option<string>)
    requires last.Insert? && (Taken(table, key) <==> HasKey(front, key))
    ensures Taken(WithRow(table, last.key, last.cached), key) <==> HasKey(front + [last], key)
  {
    var all := front + [last];
    assert all[|front|] == last && forall i :: 0 <= i < |front| ==> all[i] == front[i];
    if HasKey(front, key) {
      var i :| 0 <= i < |front| && front[i].Insert? && front[i].key == key;
      assert all[i].key == key;
    }
  }

  function Put(db: Db, d: Dataset, table: Table): Db {
    db.(tables := db.tables[d := table])
  }

  lemma {:induction false} InsertsRun(inserts: seq<Statement>, d: Dataset, db: Db)
    requires For(inserts, d) && d in db.tables && db.tables[d] == NO_ROWS
    ensures Clean(inserts, d) ==> ExecuteAll(inserts, db) == Some(Put(db, d, Loaded(inserts)))
    ensures !Clean(inserts, d) ==> ExecuteAll(inserts, db) == None
  {
    if inserts == [] {
      assert db.tables[d := NO_ROWS] == db.tables;
    } else {
      var n := |inserts| - 1;
      var front, last := inserts[..n], inserts[n];
      assert inserts == front + [last];
      CleanSnoc(front, last, d);
      InsertsRun(front, d, db);
      hide Clean, HasKey, Execute;
      if Clean(front, d) {
        if last.Raise? {
          RaiseRuns(Put(db, d, Loaded(front)));
        } else {
          LastInsert(front, last, d, db);
        }
      }
    }
  }

  lemma RaiseRuns(db: Db)
    ensures Execute(Raise, db) == None
  {
  }

  lemma LastInsert(front: seq<Statement>, last: Statement, d: Dataset, db: Db)
    requires Clean(front, d) && last.Insert? && last.dataset == d
    ensures Execute(last, Put(db, d, Loaded(front)))
         == if HasKey(front, last.key) then None else Some(Put(db, d, WithRow(Loaded(front), last.key, last.cached)))
  {
    LoadedIsExactly(front, d);
    hide Loaded, HasKey, Clean, IsExactly, Taken, WithRow;
    var table := Loaded(front);
    var more := WithRow(table, last.key, last.cached);
    assert TableIn(Put(db, d, table), d) == table;
    assert db.tables[d := table][d := more] == db.tables[d := more];
  }

  lemma {:induction false} ExecutePlus(a: seq<Statement>, b: seq<Statement>, db: Db)
    ensures ExecuteAll(a + b, db) ==
      if ExecuteAll(a, db).None? then None else ExecuteAll(b, ExecuteAll(a, db).value)
  {
    hide Execute;
    if b == [] {
      assert a + b == a;
    } else {
      ExecutePlus(a, b[..|b| - 1], db);
      assert (a + b)[..|a + b| - 1] == a + b[..|b| - 1] && (a + b)[|a + b| - 1] == b[|b| - 1];
    }
  }

  lemma ExecuteOne(statement: Statement, db: Db)
    ensures ExecuteAll([statement], db) == Execute(statement, db)
  {
    assert [statement][..0] == [] && ExecuteAll([], db) == Some(db);
  }

  // ------------------------------------------------------------------
  // One refresh
  // ------------------------------------------------------------------

  function Targets(work: Work): set<Dataset> {
    match work
    case Booked(_) => {}
    case Refreshed(EntityList(_), _) => {Entities}
    case Refreshed(Portfolio(_, _), _) => {Holdings, Performance}
    case Refreshed(PositionList(_), _) => {Positions}
    case Refreshed(DocumentList(_), _) => {Documents}
  }

  // The rows a payload has for a table.
  function RowsFor(work: Work, d: Dataset): seq<Statement>
    requires work.Refreshed?
  {
    match work.payload
    case EntityList(entries) => Inserts(d, entries, work.fetchedAt)
    case Portfolio(holdings, performance) =>
      Inserts(d, if d == Holdings then holdings else performance, work.fetchedAt)
    case PositionList(entries) => Inserts(d, entries, work.fetchedAt)
    case DocumentList(items) => DocumentInserts(DocumentRows.KeptRows(items, work.fetchedAt))
  }

  // No element was dropped, raised on or written twice.
  ghost predicate Complete(work: Work) {
    work.Refreshed? ==> forall d :: d in Targets(work) ==> Clean(RowsFor(work, d), d)
  }

  lemma RowsAreFor(work: Work, d: Dataset)
    requires work.Refreshed? && d in Targets(work)
    ensures For(RowsFor(work, d), d)
  {
  }

  // What is malformed or repeated among documents was skipped; a refresh fails
  // on a text the driver cannot store, and on nothing else.
  lemma DocumentsAreComplete(items: seq<Json>, t: string)
    ensures Complete(Refreshed(DocumentList(items), t)) <==> DocumentRows.AllStorable(DocumentRows.KeptRows(items, t))
  {
    hide DocumentRows.KeptRows, DocumentRows.RowStorable;
    DocumentRows.KeptAreDistinct(items, t);
    InsertsAreClean(DocumentRows.KeptRows(items, t));
    var work := Refreshed(DocumentList(items), t);
    assert Documents in Targets(work) && RowsFor(work, Documents) == DocumentInserts(DocumentRows.KeptRows(items, t));
    hide Clean, DocumentInserts, RowsFor;
  }

  lemma InsertsAreClean(rows: seq<DocumentRows.Row>)
    requires DocumentRows.Distinct(rows)
    ensures Clean(DocumentInserts(rows), Documents) <==> DocumentRows.AllStorable(rows)
  {
    hide DocumentRows.RowStorable;
    var inserts := DocumentInserts(rows);
    if DocumentRows.AllStorable(rows) {
      forall i | 0 <= i < |inserts| ensures inserts[i] == Insert(Documents, Some(rows[i].id), Document(rows[i])) {
        assert DocumentRows.RowStorable(rows[i]);
      }
    } else {
      var i :| 0 <= i < |rows| && !DocumentRows.RowStorable(rows[i]);
      assert inserts[i] == Raise;
    }
  }

  // One document whose title cannot be stored fails the refresh of them all.
  lemma OneTitleFailsAll(items: seq<Json>, item: Json, t: string)
    requires item.Object? && DocumentRows.DocumentId(item.fields).Some?
    requires DocumentRows.DocumentTitle(item.fields).Some?
    requires !DocumentRows.STORABLE(DocumentRows.DocumentTitle(item.fields).value)
    requires DocumentRows.DocumentId(item.fields).value !in DocumentRows.IdsOf(DocumentRows.KeptRows(items, t))
    ensures !Complete(Refreshed(DocumentList(items + [item]), t))
  {
    var row := DocumentRows.DocumentRow(item, t);
    assert row.Some? && !DocumentRows.RowStorable(row.value);
    var all := items + [item];
    assert all[..|items|] == items && all[|items|] == item;
    hide DocumentRows.DocumentRow, DocumentRows.RowStorable;
    var rows := DocumentRows.KeptRows(all, t);
    assert rows[|rows| - 1] == row.value;
    DocumentsAreComplete(all, t);
  }

  // Clearing one table and inserting a payload's rows replaces it or raises.
  lemma ReplaceRuns(d: Dataset, rows: seq<Statement>, db: Db)
    requires For(rows, d)
    ensures ExecuteAll([Clear(d)] + rows, db)
         == if Clean(rows, d) then Some(Put(db, d, Loaded(rows))) else None
  {
    ExecutePlus([Clear(d)], rows, db);
    ExecuteOne(Clear(d), db);
    var cleared := Put(db, d, NO_ROWS);
    InsertsRun(rows, d, cleared);
    if Clean(rows, d) {
      assert cleared.tables[d := Loaded(rows)] == db.tables[d := Loaded(rows)];
    }
  }

  lemma TwoClears(db: Db)
    ensures ExecuteAll([Clear(Holdings), Clear(Performance)], db)
         == Some(Put(Put(db, Holdings, NO_ROWS), Performance, NO_ROWS))
  {
    assert [Clear(Holdings), Clear(Performance)] == [Clear(Holdings)] + [Clear(Performance)];
    ExecutePlus([Clear(Holdings)], [Clear(Performance)], db);
    ExecuteOne(Clear(Holdings), db);
    ExecuteOne(Clear(Performance), Put(db, Holdings, NO_ROWS));
  }

  lemma PutTwice(db: Db, holdings: Table, performance: Table)
    ensures Put(Put(Put(Put(db, Holdings, NO_ROWS), Performance, NO_ROWS), Holdings, holdings), Performance, performance)
         == Put(Put(db, Holdings, holdings), Performance, performance)
  {
    var start := db.tables;
    assert start[Holdings := NO_ROWS][Performance := NO_ROWS][Holdings := holdings][Performance := performance]
        == start[Holdings := holdings][Performance := performance];
  }

  lemma ReplaceTwoRuns(hs: seq<Statement>, ps: seq<Statement>, db: Db)
    requires For(hs, Holdings) && For(ps, Performance)
    ensures ExecuteAll([Clear(Holdings), Clear(Performance)] + hs + ps, db)
         == if Clean(hs, Holdings) && Clean(ps, Performance)
            then Some(Put(Put(db, Holdings, Loaded(hs)), Performance, Loaded(ps))) else None
  {
    hide Loaded, Clean, For, ExecuteAll, Execute;
    var clears := [Clear(Holdings), Clear(Performance)];
    var cleared := Put(Put(db, Holdings, NO_ROWS), Performance, NO_ROWS);
    TwoClears(db);
    ExecutePlus(clears + hs, ps, db);
    ExecutePlus(clears, hs, db);
    InsertsRun(hs, Holdings, cleared);
    if Clean(hs, Holdings) {
      CleanIsInserts(hs, Holdings);
      InsertsRun(ps, Performance, Put(cleared, Holdings, Loaded(hs)));
      if Clean(ps, Performance) {
        CleanIsInserts(ps, Performance);
        PutTwice(db, Loaded(hs), Loaded(ps));
      }
    }
  }

  lemma CleanIsInserts(rows: seq<Statement>, d: Dataset)
    requires Clean(rows, d)
    ensures forall i :: 0 <= i < |rows| ==> rows[i].Insert?
  {
  }

  // A refresh gets through exactly when its payload is complete; it then
  // replaces its tables whole and leaves the others and the ledger alone.
  lemma RefreshRuns(work: Work, db: Db)
    requires work.Refreshed?
    ensures ExecuteAll(Plan(work), db).Some? <==> Complete(work)
    ensures Complete(work) ==>
      var after := ExecuteAll(Plan(work), db).value;
      && after.ledger == db.ledger
      && forall d :: if d in Targets(work)
        then Clean(RowsFor(work, d), d) && TableIn(after, d) == Loaded(RowsFor(work, d))
        else TableIn(after, d) == TableIn(db, d)
  {
    hide ExecuteAll, Loaded, Clean, For, Inserts, DocumentInserts, DocumentRows.KeptRows;
    match work.payload
    case EntityList(_) =>
      RowsAreFor(work, Entities);
      ReplaceRuns(Entities, RowsFor(work, Entities), db);
    case PositionList(_) =>
      RowsAreFor(work, Positions);
      ReplaceRuns(Positions, RowsFor(work, Positions), db);
    case DocumentList(_) =>
      RowsAreFor(work, Documents);
      ReplaceRuns(Documents, RowsFor(work, Documents), db);
    case Portfolio(_, _) =>
      RowsAreFor(work, Holdings);
      RowsAreFor(work, Performance);
      ReplaceTwoRuns(RowsFor(work, Holdings), RowsFor(work, Performance), db);
  }

  // ------------------------------------------------------------------
  // Tables over whole runs
  // ------------------------------------------------------------------

  ghost predicate LastFor(commits: seq<Work>, d: Dataset, i: nat) {
    && i < |commits| && d in Targets(commits[i])
    && forall j :: i < j < |commits| ==> d !in Targets(commits[j])
  }

  ghost predicate NeverWritten(commits: seq<Work>, d: Dataset) {
    forall i :: 0 <= i < |commits| ==> d !in Targets(commits[i])
  }

  // The table is empty and was never written, or it holds exactly the rows of
  // the latest commit for it, whose payload was complete.
  ghost predicate Whole(commits: seq<Work>, table: Table, d: Dataset) {
    || (NeverWritten(commits, d) && table == NO_ROWS)
    || exists i: nat :: LastFor(commits, d, i) && Complete(commits[i]) && IsExactly(table, RowsFor(commits[i], d))
  }

  // Two services never write the same table.
  lemma ServicesWriteApart(a: Service, b: Service, v: Work, w: Work)
    requires Fits(Refresh(a), v) && Fits(Refresh(b), w) && a != b
    ensures Targets(v) !! Targets(w)
  {
  }

  // After a refresh every element stands in its table with its own columns and
  // the fetch time: under its id, a null id as the text None; a performance
  // row under its date, one with a null date beside the others.
  lemma EntriesAreStored(work: Work, db: Db, d: Dataset, i: nat)
    requires work.Refreshed? && d in Targets(work) && !work.payload.DocumentList? && Complete(work)
    requires i < |EntriesOf(work.payload, d)|
    ensures EntriesOf(work.payload, d)[i].Entry? && ExecuteAll(Plan(work), db).Some?
    ensures var Entry(key, values) := EntriesOf(work.payload, d)[i];
      var table, row := TableIn(ExecuteAll(Plan(work), db).value, d), Columns(values, work.fetchedAt);
      && (key.Some? ==> key.value in table.keyed && table.keyed[key.value] == row)
      && (key.None? && d != Performance ==> "None" in table.keyed && table.keyed["None"] == row)
      && (key.None? && d == Performance ==> row in table.unkeyed)
  {
    var rows := RowsFor(work, d);
    RefreshRuns(work, db);
    LoadedIsExactly(rows, d);
    EntryInsert(work, d, i);
    hide ExecuteAll, Plan, Loaded, RowsFor, Inserts, Complete;
    assert rows[i].Insert? && Holds(Loaded(rows), rows[i]);
    if rows[i].key.None? { UnkeyedHas(rows, i); }
  }

  function EntriesOf(payload: Payload, d: Dataset): seq<Entry> {
    match payload
    case EntityList(entries) => entries
    case PositionList(entries) => entries
    case Portfolio(holdings, performance) => if d == Holdings then holdings else performance
    case DocumentList(_) => []
  }

  lemma EntryInsert(work: Work, d: Dataset, i: nat)
    requires work.Refreshed? && d in Targets(work) && !work.payload.DocumentList? && Complete(work)
    requires i < |EntriesOf(work.payload, d)|
    ensures i < |RowsFor(work, d)| && Clean(RowsFor(work, d), d) && EntriesOf(work.payload, d)[i].Entry?
    ensures var Entry(key, values) := EntriesOf(work.payload, d)[i];
      RowsFor(work, d)[i] == Insert(d, if key.None? && d != Performance then Some("None") else key, Columns(values, work.fetchedAt))
  {
    assert RowsFor(work, d)[i] == InsertOf(d, EntriesOf(work.payload, d)[i], work.fetchedAt);
  }

  lemma {:induction false} UnkeyedHas(inserts: seq<Statement>, i: nat)
    requires i < |inserts| && inserts[i].Insert? && inserts[i].key.None?
    ensures inserts[i].cached in Unkeyed(inserts)
  {
    var n := |inserts| - 1;
    if i < n { UnkeyedHas(inserts[..n], i); }
  }

  lemma BookedLeavesTables(work: Work, db: Db)
    requires work.Booked? && ExecuteAll(Plan(work), db).Some?
    ensures ExecuteAll(Plan(work), db).value.tables == db.tables
  {
    BookedRuns(work, db);
  }

  lemma BookedRuns(work: Work, db: Db)
    requires work.Booked?
    ensures ExecuteAll(Plan(work), db).Some? <==> (work.write.Delivery? ==> ValidDelivery(work.write.rows))
    ensures ExecuteAll(Plan(work), db).Some? ==>
      && ExecuteAll(Plan(work), db).value.tables == db.tables
      && (work.write.Delivery? ==> ValidDelivery(work.write.rows))
      && (work.write.ok ==> ExecuteAll(Plan(work), db).value.ledger == LedgerRuns.Step(db.ledger, work.write))
  {
    hide ValidDelivery, Replaced, Dropped, Snapshot;
    match work.write
    case DailySnapshot(day, _) => ExecuteOne(CopyDay(day), db);
    case Delivery(rows, t, day, _) =>
      var first, second, third := StoreRows(rows, t), DropDay(day, ProvidersOf(rows)), CopyDay(day);
      assert Plan(work) == [first] + [second] + [third];
      ExecuteOne(first, db);
      hide ExecuteAll;
      ExecutePlus([first] + [second], [third], db);
      ExecutePlus([first], [second], db);
      if ValidDelivery(rows) {
        var stored := Execute(first, db).value;
        ExecuteOne(second, stored);
        ExecuteOne(third, Execute(second, stored).value);
      }
  }

  lemma WholeAfter(commits: seq<Work>, work: Work, before: Table, after: Table, d: Dataset)
    requires Whole(commits, before, d)
    requires d in Targets(work) ==> Complete(work) && IsExactly(after, RowsFor(work, d))
    requires d !in Targets(work) ==> after == before
    ensures Whole(commits + [work], after, d)
  {
    hide Complete, IsExactly, RowsFor;
    var more := commits + [work];
    if d in Targets(work) {
      assert LastFor(more, d, |commits|);
    } else if NeverWritten(commits, d) && before == NO_ROWS {
      assert NeverWritten(more, d);
    } else {
      var i: nat :| LastFor(commits, d, i) && Complete(commits[i]) && IsExactly(before, RowsFor(commits[i], d));
      assert LastFor(more, d, i) && more[i] == commits[i];
    }
  }

  // One commit replaces the tables it is for and leaves the others.
  lemma CommitTable(work: Work, before: Db, d: Dataset)
    requires ExecuteAll(Plan(work), before).Some?
    ensures var after := ExecuteAll(Plan(work), before).value;
      if d in Targets(work) then Complete(work) && IsExactly(TableIn(after, d), RowsFor(work, d))
      else TableIn(after, d) == TableIn(before, d)
  {
    hide ExecuteAll, Plan, Complete, IsExactly, Loaded, Clean;
    if work.Refreshed? {
      RefreshRuns(work, before);
      if d in Targets(work) { LoadedIsExactly(RowsFor(work, d), d); }
    } else {
      BookedLeavesTables(work, before);
    }
  }

  lemma SerialLast(front: seq<Work>, work: Work)
    requires Serial(front + [work]).Some?
    ensures Serial(front).Some? && Serial(front + [work]) == ExecuteAll(Plan(work), Serial(front).value)
  {
    hide Plan, ExecuteAll, Execute;
    var commits := front + [work];
    assert commits[..|commits| - 1] == front && commits[|commits| - 1] == work;
  }

  lemma WholeAtStart(d: Dataset)
    ensures Serial([]) == Some(EMPTY) && Whole([], TableIn(EMPTY, d), d)
  {
    assert NeverWritten([], d);
  }

  lemma {:induction false} SerialIsWhole(commits: seq<Work>, d: Dataset)
    requires Serial(commits).Some?
    ensures Whole(commits, TableIn(Serial(commits).value, d), d)
  {
    hide *;
    if commits == [] {
      WholeAtStart(d);
    } else {
      var front, work := commits[..|commits| - 1], commits[|commits| - 1];
      assert front + [work] == commits;
      SerialLast(front, work);
      SerialIsWhole(front, d);
      var before := Serial(front).value;
      CommitTable(work, before, d);
      WholeAfter(front, work, TableIn(before, d), TableIn(Serial(commits).value, d), d);
    }
  }

  // In every interleaving, with any failures and restarts, each dataset table
  // holds the rows of exactly one complete payload, or is still empty.
  lemma TablesAreWhole(events: seq<Event>, d: Dataset)
    requires Possible(events)
    ensures Whole(After(events).commits, TableIn(After(events).db, d), d)
  {
    Serializable(events);
    SerialIsWhole(After(events).commits, d);
  }

  // ------------------------------------------------------------------
  // The ledger over whole runs
  // ------------------------------------------------------------------

  function Writes(commits: seq<Work>): seq<LedgerRuns.Write> {
    if commits == [] then [] else
    var last := commits[|commits| - 1];
    Writes(commits[..|commits| - 1]) + if last.Booked? then [last.write] else []
  }

  ghost predicate Proper(work: Work) {
    work.Booked? ==> work.write.ok && (work.write.Delivery? ==> ValidDelivery(work.write.rows) && work.write.fetchedAt.Valid())
  }

  lemma FitsIsProper(job: Job, work: Work)
    requires Fits(job, work)
    ensures Proper(work)
  {
  }

  lemma ProperStays(s: Scheduler.State, e: Event)
    requires Consistent(s) && Enabled(s, e) && forall i :: 0 <= i < |s.commits| ==> Proper(s.commits[i])
    ensures forall i :: 0 <= i < |Step(s, e).commits| ==> Proper(Step(s, e).commits[i])
  {
    if e.Commit? {
      FitsIsProper(s.procs[e.pid].job, s.procs[e.pid].at.work);
      hide Proper, Fits, Plan, ExecuteAll, Serial;
      assert Step(s, e).commits == s.commits + [s.procs[e.pid].at.work];
    } else {
      hide *;
      OnlyCommitCommits(s, e);
    }
  }

  lemma OnlyCommitCommits(s: Scheduler.State, e: Event)
    requires Enabled(s, e) && !e.Commit?
    ensures Step(s, e).commits == s.commits
  {
    hide Execute, Plan, Fits;
  }

  lemma {:induction false} CommitsAreProper(events: seq<Event>)
    requires Possible(events)
    ensures forall i :: 0 <= i < |After(events).commits| ==> Proper(After(events).commits[i])
  {
    if events != [] {
      var n := |events| - 1;
      CommitsAreProper(events[..n]);
      RunKeeps(events[..n]);
      hide Proper, Consistent, LocksMatch, WriterMatches, Enabled, Step;
      ProperStays(After(events[..n]), events[n]);
    }
  }

  lemma {:induction false} SerialLedger(commits: seq<Work>)
    requires Serial(commits).Some? && forall i :: 0 <= i < |commits| ==> Proper(commits[i])
    ensures LedgerRuns.Valid(Writes(commits))
    ensures Serial(commits).value.ledger == LedgerRuns.After(Writes(commits))
  {
    if commits != [] {
      hide ExecuteAll, Plan, ValidDelivery, LedgerRuns.Step;
      var n := |commits| - 1;
      var front, work := commits[..n], commits[n];
      assert forall i :: 0 <= i < n ==> front[i] == commits[i];
      SerialLedger(front);
      var before := Serial(front).value;
      assert Serial(commits) == ExecuteAll(Plan(work), before);
      if work.Refreshed? {
        RefreshRuns(work, before);
        assert Writes(commits) == Writes(front);
      } else {
        assert Proper(commits[n]);
        BookedRuns(work, before);
        LedgerRuns.OneMore(Writes(front), work.write);
      }
    }
  }

  // Interleaved with any refreshes, failures and restarts, the ledger is a
  // serial run of its committed writes.
  lemma LedgerIsSerial(events: seq<Event>)
    requires Possible(events)
    ensures LedgerRuns.Valid(Writes(After(events).commits))
    ensures After(events).db.ledger == LedgerRuns.After(Writes(After(events).commits))
  {
    Serializable(events);
    CommitsAreProper(events);
    SerialLedger(After(events).commits);
  }

  // So its history is faithful whenever its writes committed in day order.
  lemma HistoryUnderConcurrency(events: seq<Event>, day: Day)
    requires Possible(events) && LedgerRuns.InDayOrder(Writes(After(events).commits))
    ensures LedgerRuns.Valid(Writes(After(events).commits))
    ensures LedgerRuns.OnDay(After(events).db.ledger.daily, day)
         == LedgerRuns.AsOf(Writes(After(events).commits), day)
  {
    LedgerIsSerial(events);
    LedgerRuns.HistoryIsFaithful(Writes(After(events).commits), day);
  }
}
