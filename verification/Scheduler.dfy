// The refresh scheduler as a state machine: any number of scheduled jobs,
// manual triggers, snapshots and intake deliveries, interleaved step by step.
// A service lock is only ever tried; the write lock is waited for.
module Scheduler {
  import opened Jsons
  import opened Texts
  import opened Timestamps
  import opened Ledger
  import LedgerRuns
  import DocumentRows

  // ------------------------------------------------------------------
  // The database
  // ------------------------------------------------------------------

  datatype Dataset = Entities | Holdings | Performance | Positions | Documents

  datatype Cached = Columns(values: seq<string>, fetchedAt: string) | Document(row: DocumentRows.Row)

  // Rows by primary key, and the rows whose key is null: SQLite keeps any
  // number of those where the key column is not declared NOT NULL.
  datatype Table = Table(keyed: map<string, Cached>, unkeyed: seq<Cached>)

  const NO_ROWS := Table(map[], [])

  datatype Db = Db(tables: map<Dataset, Table>, ledger: LedgerRuns.State)

  const EMPTY := Db(map[], LedgerRuns.State(map[], map[]))

  function TableIn(db: Db, d: Dataset): Table {
    if d in db.tables then db.tables[d] else NO_ROWS
  }

  predicate Taken(table: Table, key: Option<string>) {
    key.Some? && key.value in table.keyed
  }

  function WithRow(table: Table, key: Option<string>, cached: Cached): Table {
    if key.Some? then table.(keyed := table.keyed[key.value := cached])
    else table.(unkeyed := table.unkeyed + [cached])
  }

  datatype Statement =
    | Clear(dataset: Dataset)
    | Insert(dataset: Dataset, key: Option<string>, cached: Cached)
    | Raise
    | StoreRows(rows: seq<BalanceRow>, fetchedAt: Stamp)
    | DropDay(day: Day, providers: set<string>)
    | CopyDay(day: Day)

  // None is an exception: a repeated key, a field that is missing.
  ghost function Execute(statement: Statement, db: Db): Option<Db> {
    match statement
    case Clear(d) => Some(db.(tables := db.tables[d := NO_ROWS]))
    case Insert(d, key, cached) =>
      if Taken(TableIn(db, d), key) then None
      else Some(db.(tables := db.tables[d := WithRow(TableIn(db, d), key, cached)]))
    case Raise => None
    case StoreRows(rows, fetchedAt) =>
      if !ValidDelivery(rows) then None else
      Some(db.(ledger := db.ledger.(balances := Replaced(db.ledger.balances, rows, fetchedAt))))
    case DropDay(day, providers) =>
      Some(db.(ledger := db.ledger.(daily := Dropped(db.ledger.daily, day, providers, db.ledger.balances))))
    case CopyDay(day) =>
      Some(db.(ledger := db.ledger.(daily := Snapshot(db.ledger.daily, day, db.ledger.balances))))
  }

  ghost function ExecuteAll(plan: seq<Statement>, db: Db): Option<Db> {
    if plan == [] then Some(db) else
    var before := ExecuteAll(plan[..|plan| - 1], db);
    if before.None? then None else Execute(plan[|plan| - 1], before.value)
  }

  // ------------------------------------------------------------------
  // What a job writes
  // ------------------------------------------------------------------

  // One list element: its id or date (None is a JSON null) and columns, or one
  // the writer raises on.
  datatype Entry = Entry(key: Option<string>, values: seq<string>) | Malformed

  // Ids are stored as text, a null as "None"; a date is stored as it is.
  function KeyFor(d: Dataset, key: Option<string>): Option<string> {
    if d == Performance || key.Some? then key else Some("None")
  }

  datatype Payload =
    | EntityList(entries: seq<Entry>)
    | Portfolio(holdings: seq<Entry>, performance: seq<Entry>)
    | PositionList(entries: seq<Entry>)
    | DocumentList(items: seq<Json>)

  datatype Service = LlcManager | PpSecurityMaster | XeroCrypto | LlcManagerDocuments | BalancesDaily

  function ServiceOf(payload: Payload): Service {
    match payload
    case EntityList(_) => LlcManager
    case Portfolio(_, _) => PpSecurityMaster
    case PositionList(_) => XeroCrypto
    case DocumentList(_) => LlcManagerDocuments
  }

  datatype Work = Refreshed(payload: Payload, fetchedAt: string) | Booked(write: LedgerRuns.Write)

  function InsertOf(d: Dataset, entry: Entry, fetchedAt: string): Statement {
    if entry.Malformed? then Raise else Insert(d, KeyFor(d, entry.key), Columns(entry.values, fetchedAt))
  }

  function Inserts(d: Dataset, entries: seq<Entry>, fetchedAt: string): seq<Statement> {
    seq(|entries|, i requires 0 <= i < |entries| => InsertOf(d, entries[i], fetchedAt))
  }

  function DocumentInsert(row: DocumentRows.Row): Statement {
    if DocumentRows.RowStorable(row) then Insert(Documents, Some(row.id), Document(row)) else Raise
  }

  function DocumentInserts(rows: seq<DocumentRows.Row>): seq<Statement> {
    seq(|rows|, i requires 0 <= i < |rows| => DocumentInsert(rows[i]))
  }

  function Plan(work: Work): seq<Statement> {
    match work
    case Refreshed(EntityList(entries), t) => [Clear(Entities)] + Inserts(Entities, entries, t)
    case Refreshed(Portfolio(holdings, performance), t) =>
      [Clear(Holdings), Clear(Performance)] + Inserts(Holdings, holdings, t) + Inserts(Performance, performance, t)
    case Refreshed(PositionList(entries), t) => [Clear(Positions)] + Inserts(Positions, entries, t)
    case Refreshed(DocumentList(items), t) =>
      [Clear(Documents)] + DocumentInserts(DocumentRows.KeptRows(items, t))
    case Booked(Delivery(rows, t, day, _)) => [StoreRows(rows, t), DropDay(day, ProvidersOf(rows)), CopyDay(day)]
    case Booked(DailySnapshot(day, _)) => [CopyDay(day)]
  }

  // ------------------------------------------------------------------
  // Processes and locks
  // ------------------------------------------------------------------

  datatype Job = Refresh(service: Service) | SnapshotJob | Intake(rows: seq<BalanceRow>)

  function LockOf(job: Job): Option<Service> {
    match job
    case Refresh(service) => Some(service)
    case SnapshotJob => Some(BalancesDaily)
    case Intake(_) => None
  }

  // What a job may come back with: any payload of its service, any day.
  ghost predicate Fits(job: Job, work: Work) {
    match job
    case Refresh(service) => work.Refreshed? && ServiceOf(work.payload) == service
    case SnapshotJob => work.Booked? && work.write.DailySnapshot? && work.write.ok
    case Intake(rows) =>
      work.Booked? && work.write.Delivery? && work.write.ok && work.write.rows == rows
      && ValidDelivery(rows) && work.write.fetchedAt.Valid()
  }

  // Ended: the transaction is over, the write lock still held. Leaving: the
  // write lock is released, the service lock not yet.
  datatype Point =
    | Start | Preparing | Waiting(work: Work) | Writing(work: Work, done: nat, working: Db) | Ended | Leaving | Done

  datatype Process = Process(job: Job, at: Point)

  datatype State = State(
    db: Db, holders: map<Service, nat>, writer: Option<nat>, procs: map<nat, Process>, commits: seq<Work>)

  const BOOT := State(EMPTY, map[], None, map[], [])

  datatype Event =
    | Spawn(pid: nat, job: Job)
    | Skip(pid: nat)                  // the backend is not connected
    | Enter(pid: nat)                 // try the service lock
    | Prepared(pid: nat, work: Work)  // the fetch succeeded
    | Unprepared(pid: nat)            // the fetch failed
    | LockWrite(pid: nat)
    | Run(pid: nat)                   // one statement
    | Fail(pid: nat)                  // any statement, or the commit, may fail
    | Commit(pid: nat)
    | Unlock(pid: nat)
    | Leave(pid: nat)
    | Restart                         // the whole process dies and comes back

  ghost predicate Enabled(s: State, e: Event) {
    match e
    case Spawn(p, job) => p !in s.procs
    case Restart => true
    case Skip(p) => p in s.procs && s.procs[p].at.Start?
    case Enter(p) => p in s.procs && s.procs[p].at.Start?
    case Prepared(p, work) => p in s.procs && s.procs[p].at.Preparing? && Fits(s.procs[p].job, work)
    case Unprepared(p) => p in s.procs && s.procs[p].at.Preparing?
    case LockWrite(p) => p in s.procs && s.procs[p].at.Waiting? && s.writer.None?
    case Run(p) => p in s.procs && s.procs[p].at.Writing? && s.procs[p].at.done < |Plan(s.procs[p].at.work)|
    case Fail(p) => p in s.procs && s.procs[p].at.Writing?
    case Commit(p) => p in s.procs && s.procs[p].at.Writing? && s.procs[p].at.done == |Plan(s.procs[p].at.work)|
    case Unlock(p) => p in s.procs && s.procs[p].at.Ended?
    case Leave(p) => p in s.procs && s.procs[p].at.Leaving?
  }

  function MoveTo(s: State, p: nat, at: Point): State
    requires p in s.procs
  {
    s.(procs := s.procs[p := s.procs[p].(at := at)])
  }

  ghost function Step(s: State, e: Event): State
    requires Enabled(s, e)
  {
    match e
    case Spawn(p, job) => s.(procs := s.procs[p := Process(job, Start)])
    case Restart => s.(holders := map[], writer := None, procs := map[])
    case Skip(p) => MoveTo(s, p, Done)
    case Enter(p) =>
      var lock := LockOf(s.procs[p].job);
      if lock.None? then MoveTo(s, p, Preparing)
      else if lock.value in s.holders then MoveTo(s, p, Done)
      else MoveTo(s, p, Preparing).(holders := s.holders[lock.value := p])
    case Prepared(p, work) => MoveTo(s, p, Waiting(work))
    case Unprepared(p) => MoveTo(s, p, Leaving)
    case LockWrite(p) => MoveTo(s, p, Writing(s.procs[p].at.work, 0, s.db)).(writer := Some(p))
    case Run(p) =>
      var Writing(work, done, working) := s.procs[p].at;
      var next := Execute(Plan(work)[done], working);
      MoveTo(s, p, if next.None? then Ended else Writing(work, done + 1, next.value))
    case Fail(p) => MoveTo(s, p, Ended)
    case Commit(p) =>
      var Writing(work, _, working) := s.procs[p].at;
      MoveTo(s, p, Ended).(db := working, commits := s.commits + [work])
    case Unlock(p) => MoveTo(s, p, Leaving).(writer := None)
    case Leave(p) =>
      var lock := LockOf(s.procs[p].job);
      var left := MoveTo(s, p, Done);
      if lock.None? then left else left.(holders := s.holders - {lock.value})
  }

  ghost predicate Possible(events: seq<Event>)
    decreases |events|, 0
  {
    events == [] || (Possible(events[..|events| - 1]) && Enabled(After(events[..|events| - 1]), events[|events| - 1]))
  }

  ghost function After(events: seq<Event>): State
    requires Possible(events)
    decreases |events|, 1
  {
    if events == [] then BOOT else Step(After(events[..|events| - 1]), events[|events| - 1])
  }

  // The database the committed work gives when done one after the other.
  ghost function Serial(commits: seq<Work>): Option<Db> {
    if commits == [] then Some(EMPTY) else
    var before := Serial(commits[..|commits| - 1]);
    if before.None? then None else ExecuteAll(Plan(commits[|commits| - 1]), before.value)
  }

  // ------------------------------------------------------------------
  // The invariant
  // ------------------------------------------------------------------

  predicate InWrite(at: Point) {
    at.Writing? || at.Ended?
  }

  predicate Holding(process: Process) {
    LockOf(process.job).Some? && !process.at.Start? && !process.at.Done?
  }

  ghost predicate LocksMatch(s: State) {
    && (forall p :: p in s.procs && Holding(s.procs[p]) ==>
        LockOf(s.procs[p].job).value in s.holders && s.holders[LockOf(s.procs[p].job).value] == p)
    && (forall service :: service in s.holders ==>
        s.holders[service] in s.procs && Holding(s.procs[s.holders[service]])
        && LockOf(s.procs[s.holders[service]].job) == Some(service))
  }

  ghost predicate WriterMatches(s: State) {
    && (forall p :: p in s.procs && InWrite(s.procs[p].at) ==> s.writer == Some(p))
    && (s.writer.Some? ==> s.writer.value in s.procs && InWrite(s.procs[s.writer.value].at))
  }

  // An open transaction is its first statements, run on the database as it is.
  ghost predicate OnTrack(at: Point, db: Db) {
    at.Writing? ==> at.done <= |Plan(at.work)| && ExecuteAll(Plan(at.work)[..at.done], db) == Some(at.working)
  }

  ghost predicate WorkFits(process: Process) {
    && (process.at.Waiting? ==> Fits(process.job, process.at.work))
    && (process.at.Writing? ==> Fits(process.job, process.at.work))
  }

  ghost predicate Consistent(s: State) {
    && (forall p :: p in s.procs ==> OnTrack(s.procs[p].at, s.db) && WorkFits(s.procs[p]))
    && Serial(s.commits) == Some(s.db)
  }

  lemma MoveKeepsLocks(s: State, p: nat, at: Point)
    requires LocksMatch(s) && p in s.procs && Holding(s.procs[p]) == Holding(s.procs[p].(at := at))
    ensures LocksMatch(MoveTo(s, p, at))
  {
  }

  // LocksMatch reads only the processes and the holders.
  lemma SameLocks(s: State, t: State)
    requires LocksMatch(s) && s.procs == t.procs && s.holders == t.holders
    ensures LocksMatch(t)
  {
  }

  lemma EnterKeepsLocks(s: State, p: nat)
    requires LocksMatch(s) && Enabled(s, Enter(p))
    ensures LocksMatch(Step(s, Enter(p)))
  {
    var t, lock := Step(s, Enter(p)), LockOf(s.procs[p].job);
    if lock.None? {
      MoveKeepsLocks(s, p, Preparing);
    } else if lock.value in s.holders {
      MoveKeepsLocks(s, p, Done);
    }
  }

  lemma LeaveKeepsLocks(s: State, p: nat)
    requires LocksMatch(s) && Enabled(s, Leave(p))
    ensures LocksMatch(Step(s, Leave(p)))
  {
  }

  lemma LocksStay(s: State, e: Event)
    requires LocksMatch(s) && Enabled(s, e)
    ensures LocksMatch(Step(s, e))
  {
    match e
    case Enter(p) => EnterKeepsLocks(s, p);
    case Leave(p) => LeaveKeepsLocks(s, p);
    case Spawn(p, job) =>
    case Restart =>
    case _ =>
      hide ExecuteAll, Execute, Plan, Fits, LocksMatch, LockOf;
      var t := Step(s, e);
      MoveKeepsLocks(s, e.pid, t.procs[e.pid].at);
      SameLocks(MoveTo(s, e.pid, t.procs[e.pid].at), t);
  }

  lemma WriterStays(s: State, e: Event)
    requires WriterMatches(s) && Enabled(s, e)
    ensures WriterMatches(Step(s, e))
  {
    hide ExecuteAll, Execute, Plan, Fits, ServiceOf;
  }

  lemma SerialSnoc(commits: seq<Work>, work: Work, db: Db)
    requires Serial(commits) == Some(db)
    ensures Serial(commits + [work]) == ExecuteAll(Plan(work), db)
  {
    assert (commits + [work])[..|commits|] == commits;
  }

  lemma ExecuteSnoc(plan: seq<Statement>, done: nat, db: Db, working: Db)
    requires done < |plan| && ExecuteAll(plan[..done], db) == Some(working)
    ensures ExecuteAll(plan[..done + 1], db) == Execute(plan[done], working)
  {
    assert plan[..done + 1][..done] == plan[..done];
  }

  lemma ConsistencyStays(s: State, e: Event)
    requires WriterMatches(s) && Consistent(s) && Enabled(s, e)
    ensures Consistent(Step(s, e))
  {
    hide ExecuteAll, Execute, Plan, Fits, Serial;
    match e
    case Run(p) =>
      var at := s.procs[p].at;
      ExecuteSnoc(Plan(at.work), at.done, s.db, at.working);
    case LockWrite(p) =>
      assert Plan(s.procs[p].at.work)[..0] == [];
      NothingExecuted(s.db);
    case Commit(p) =>
      var at := s.procs[p].at;
      assert Plan(at.work)[..at.done] == Plan(at.work);
      SerialSnoc(s.commits, at.work, s.db);
    case _ =>
  }

  lemma NothingExecuted(db: Db)
    ensures ExecuteAll([], db) == Some(db)
  {
  }

  lemma {:induction false} RunKeeps(events: seq<Event>)
    requires Possible(events)
    ensures LocksMatch(After(events)) && WriterMatches(After(events)) && Consistent(After(events))
  {
    if events != [] {
      var n := |events| - 1;
      RunKeeps(events[..n]);
      var s := After(events[..n]);
      LocksStay(s, events[n]);
      WriterStays(s, events[n]);
      ConsistencyStays(s, events[n]);
    }
  }

  // ------------------------------------------------------------------
  // Lock discipline
  // ------------------------------------------------------------------

  // Two processes past the try-lock of one service are the same process.
  lemma OneRunPerService(events: seq<Event>, p: nat, q: nat)
    requires Possible(events) && p in After(events).procs && q in After(events).procs
    requires Holding(After(events).procs[p]) && Holding(After(events).procs[q])
    requires LockOf(After(events).procs[p].job) == LockOf(After(events).procs[q].job)
    ensures p == q
  {
    RunKeeps(events);
  }

  lemma OneWriter(events: seq<Event>, p: nat, q: nat)
    requires Possible(events) && p in After(events).procs && q in After(events).procs
    requires InWrite(After(events).procs[p].at) && InWrite(After(events).procs[q].at)
    ensures p == q
  {
    RunKeeps(events);
  }

  // Interleaving is invisible: the database is what the committed work gives
  // when run one after the other.
  lemma Serializable(events: seq<Event>)
    requires Possible(events)
    ensures Serial(After(events).commits) == Some(After(events).db)
  {
    RunKeeps(events);
  }

  // ------------------------------------------------------------------
  // No deadlock, no leaked lock
  // ------------------------------------------------------------------

  ghost predicate ByProcess(e: Event, p: nat) {
    !e.Restart? && !e.Spawn? && e.pid == p
  }

  // The process that an unfinished one depends on: itself, or the holder of
  // the write lock it waits for.
  function Awaited(s: State, p: nat): nat
    requires p in s.procs
  {
    if s.procs[p].at.Waiting? && s.writer.Some? then s.writer.value else p
  }

  lemma OwnEvent(s: State, p: nat) returns (e: Event)
    requires p in s.procs && !s.procs[p].at.Done? && OnTrack(s.procs[p].at, s.db)
    requires s.procs[p].at.Waiting? ==> s.writer.None?
    ensures Enabled(s, e) && ByProcess(e, p) && !e.Skip? && !e.Fail?
  {
    hide Fits, Plan, ExecuteAll, Execute;
    match s.procs[p].at
    case Start => e := Enter(p);
    case Preparing => e := Unprepared(p);
    case Waiting(_) => e := LockWrite(p);
    case Writing(work, done, _) => e := if done < |Plan(work)| then Run(p) else Commit(p);
    case Ended => e := Unlock(p);
    case Leaving => e := Leave(p);
  }

  // An unfinished process can move, or the process it waits for can, without
  // waiting for anyone.
  lemma NeverStuck(events: seq<Event>, p: nat) returns (e: Event)
    requires Possible(events) && p in After(events).procs && !After(events).procs[p].at.Done?
    ensures Awaited(After(events), p) in After(events).procs
    ensures Enabled(After(events), e) && ByProcess(e, Awaited(After(events), p))
    ensures !e.Skip? && !e.Fail?
  {
    RunKeeps(events);
    hide Possible, After, Serial, OnTrack, Enabled;
    e := OwnEvent(After(events), Awaited(After(events), p));
  }

  function Rank(at: Point): nat {
    match at
    case Start => 6
    case Preparing => 5
    case Waiting(_) => 4
    case Writing(_, _, _) => 3
    case Ended => 2
    case Leaving => 1
    case Done => 0
  }

  function StatementsLeft(at: Point): int {
    if at.Writing? then |Plan(at.work)| - at.done else 0
  }

  // Every event of a process brings it nearer to its end and moves no other.
  lemma EveryEventAdvances(s: State, e: Event, p: nat)
    requires Enabled(s, e) && ByProcess(e, p)
    ensures p in s.procs && Step(s, e).procs.Keys == s.procs.Keys
    ensures Rank(Step(s, e).procs[p].at) < Rank(s.procs[p].at)
         || (Rank(Step(s, e).procs[p].at) == Rank(s.procs[p].at)
             && 0 <= StatementsLeft(Step(s, e).procs[p].at) < StatementsLeft(s.procs[p].at))
    ensures forall q :: q in s.procs && q != p ==> Step(s, e).procs[q] == s.procs[q]
  {
    hide Fits, Plan, ExecuteAll, Execute;
  }

  // Once every process is done, every lock is free again.
  lemma NoLockLeaks(events: seq<Event>)
    requires Possible(events)
    requires forall p :: p in After(events).procs ==> After(events).procs[p].at.Done?
    ensures After(events).holders == map[] && After(events).writer == None
  {
    RunKeeps(events);
    var s := After(events);
    assert forall service :: service !in s.holders;
  }
}
