// The scheduler with a calendar. A job reads the date when it comes back with
// its work: a snapshot with its service lock held, a delivery with no lock.
// Which sequences of ledger writes can commit, and when they are in day order.
module LedgerDays {
  import opened Texts
  import opened Ledger
  import opened Scheduler
  import opened SchedulerTables
  import LedgerRuns

  // The date at each event: it never goes back, and a ledger write carries the
  // date at which its job read it.
  ghost predicate Dated(events: seq<Event>, dates: seq<Day>) {
    && |dates| == |events|
    && (forall i, j :: 0 <= i <= j < |dates| ==> dates[i] <= dates[j])
    && forall i :: 0 <= i < |events| && events[i].Prepared? && events[i].work.Booked? ==>
      events[i].work.write.day == dates[i]
  }

  ghost predicate OneByOne(events: seq<Event>, e: Event, dates: seq<Day>, d: Day) {
    && Possible(events) && Enabled(After(events), e) && Dated(events, dates)
    && (dates != [] ==> dates[|dates| - 1] <= d)
    && (e.Prepared? && e.work.Booked? ==> e.work.write.day == d)
  }

  lemma OneMoreEvent(events: seq<Event>, e: Event, dates: seq<Day>, d: Day)
    requires OneByOne(events, e, dates, d)
    ensures Possible(events + [e]) && Dated(events + [e], dates + [d])
    ensures After(events + [e]) == Step(After(events), e)
  {
    hide Enabled, Step;
    assert (events + [e])[..|events|] == events && (events + [e])[|events|] == e;
  }

  lemma LastEvent(events: seq<Event>, dates: seq<Day>)
    requires events != [] && Possible(events) && Dated(events, dates)
    ensures var n := |events| - 1; OneByOne(events[..n], events[n], dates[..n], dates[n])
    ensures After(events) == Step(After(events[..|events| - 1]), events[|events| - 1])
  {
    hide Enabled, Step;
  }

  function LedgerOf(s: Scheduler.State): seq<LedgerRuns.Write> {
    Writes(s.commits)
  }

  predicate Pending(at: Point) {
    (at.Waiting? && at.work.Booked?) || (at.Writing? && at.work.Booked?)
  }

  function PendingWrite(at: Point): LedgerRuns.Write
    requires Pending(at)
  {
    at.work.write
  }

  // What one event does to the ledger's commits and the writes under way.
  lemma EventEffect(s: Scheduler.State, e: Event)
    requires Enabled(s, e)
    ensures if e.Commit? && s.procs[e.pid].at.work.Booked?
      then LedgerOf(Step(s, e)) == LedgerOf(s) + [s.procs[e.pid].at.work.write]
      else LedgerOf(Step(s, e)) == LedgerOf(s)
    ensures forall p :: p in Step(s, e).procs && Pending(Step(s, e).procs[p].at) ==>
      || (e.Prepared? && e.pid == p && Step(s, e).procs[p].at == Waiting(e.work))
      || (p in s.procs && Pending(s.procs[p].at) && PendingWrite(s.procs[p].at) == PendingWrite(Step(s, e).procs[p].at)
          && s.procs[p].job == Step(s, e).procs[p].job && !(e.Commit? && e.pid == p))
  {
    hide Execute, Plan, Fits;
    if e.Commit? {
      var work := s.procs[e.pid].at.work;
      assert (s.commits + [work])[..|s.commits|] == s.commits;
    } else {
      hide Writes;
      OnlyCommitCommits(s, e);
    }
  }

  // ------------------------------------------------------------------
  // A quiet change of date
  // ------------------------------------------------------------------

  ghost predicate NonePending(s: Scheduler.State) {
    forall p :: p in s.procs ==> !Pending(s.procs[p].at)
  }

  // Whenever the date changes, no ledger write is between reading the date
  // and committing.
  ghost predicate QuietNights(events: seq<Event>, dates: seq<Day>)
    requires Possible(events) && Dated(events, dates)
  {
    if |events| <= 1 then true else
    var n := |events| - 1;
    LastEvent(events, dates);
    QuietNights(events[..n], dates[..n]) && (dates[n - 1] < dates[n] ==> NonePending(After(events[..n])))
  }

  ghost predicate UpTo(writes: seq<LedgerRuns.Write>, d: Day) {
    forall i :: 0 <= i < |writes| ==> writes[i].day <= d
  }

  ghost predicate Today(s: Scheduler.State, d: Day) {
    && LedgerRuns.InDayOrder(LedgerOf(s)) && UpTo(LedgerOf(s), d)
    && forall p :: p in s.procs && Pending(s.procs[p].at) ==> PendingWrite(s.procs[p].at).day == d
  }

  lemma OneMoreInOrder(writes: seq<LedgerRuns.Write>, w: LedgerRuns.Write)
    requires LedgerRuns.InDayOrder(writes) && UpTo(writes, w.day)
    ensures LedgerRuns.InDayOrder(writes + [w]) && UpTo(writes + [w], w.day)
  {
  }

  lemma TodayStays(s: Scheduler.State, e: Event, d0: Day, d: Day)
    requires Enabled(s, e) && Today(s, d0) && d0 <= d && (d0 < d ==> NonePending(s))
    requires e.Prepared? && e.work.Booked? ==> e.work.write.day == d
    ensures Today(Step(s, e), d)
  {
    hide Enabled, Step, LedgerOf;
    EventEffect(s, e);
    if e.Commit? {
      CommitIsPending(s, e);
      var work := s.procs[e.pid].at.work;
      if work.Booked? { OneMoreInOrder(LedgerOf(s), work.write); }
    }
  }

  lemma CommitIsPending(s: Scheduler.State, e: Event)
    requires Enabled(s, e) && e.Commit?
    ensures e.pid in s.procs && s.procs[e.pid].at.Writing?
    ensures s.procs[e.pid].at.work.Booked? ==>
      Pending(s.procs[e.pid].at) && PendingWrite(s.procs[e.pid].at) == s.procs[e.pid].at.work.write
  {
    hide Plan;
  }

  lemma {:induction false} QuietToday(events: seq<Event>, dates: seq<Day>)
    requires events != [] && Possible(events) && Dated(events, dates) && QuietNights(events, dates)
    ensures Today(After(events), dates[|dates| - 1])
  {
    var n := |events| - 1;
    LastEvent(events, dates);
    hide Dated, Enabled, Step, Today;
    if n > 0 {
      QuietToday(events[..n], dates[..n]);
      TodayStays(After(events[..n]), events[n], dates[n - 1], dates[n]);
    } else {
      assert events[..n] == [] && After([]) == BOOT;
      TodayAtBoot(dates[n]);
      TodayStays(BOOT, events[n], dates[n], dates[n]);
    }
  }

  lemma TodayAtBoot(d: Day)
    ensures Today(BOOT, d)
  {
  }

  // If no ledger write is under way when the date changes, writes commit in
  // day order, so every day's history is faithful.
  lemma QuietNightsAreFaithful(events: seq<Event>, dates: seq<Day>, day: Day)
    requires Possible(events) && Dated(events, dates) && QuietNights(events, dates)
    ensures LedgerRuns.InDayOrder(LedgerOf(After(events))) && LedgerRuns.Valid(LedgerOf(After(events)))
    ensures LedgerRuns.OnDay(After(events).db.ledger.daily, day) == LedgerRuns.AsOf(LedgerOf(After(events)), day)
  {
    if events == [] { TodayAtBoot(0); } else { QuietToday(events, dates); }
    hide QuietNights, Dated, Possible, After, LedgerRuns.OnDay, LedgerRuns.AsOf;
    HistoryUnderConcurrency(events, day);
  }

  // ------------------------------------------------------------------
  // Snapshots wait for one another
  // ------------------------------------------------------------------

  // A snapshot reads its date after the snapshot before it has committed, so
  // its day is not before that of anything committed up to then.
  ghost predicate SnapshotsWait(writes: seq<LedgerRuns.Write>) {
    forall j :: 0 <= j < |writes| && writes[j].DailySnapshot? ==> MayFollow(writes[..j], writes[j].day)
  }

  ghost predicate MayFollow(writes: seq<LedgerRuns.Write>, day: Day) {
    forall k, i :: 0 <= k <= i < |writes| && writes[i].DailySnapshot? ==> writes[k].day <= day
  }

  ghost predicate Waited(s: Scheduler.State, d: Day) {
    && SnapshotsWait(LedgerOf(s)) && UpTo(LedgerOf(s), d)
    && forall p :: p in s.procs && Pending(s.procs[p].at) ==>
      var w := PendingWrite(s.procs[p].at);
      w.day <= d && (w.DailySnapshot? ==> s.procs[p].job.SnapshotJob? && MayFollow(LedgerOf(s), w.day))
  }

  lemma OneMoreWaits(writes: seq<LedgerRuns.Write>, w: LedgerRuns.Write)
    requires SnapshotsWait(writes) && (w.DailySnapshot? ==> MayFollow(writes, w.day))
    ensures SnapshotsWait(writes + [w])
  {
    var all := writes + [w];
    forall j | 0 <= j < |all| && all[j].DailySnapshot? ensures MayFollow(all[..j], all[j].day) {
      if j < |writes| { assert all[..j] == writes[..j]; } else { assert all[..j] == writes; }
    }
  }

  lemma FollowsDelivery(writes: seq<LedgerRuns.Write>, w: LedgerRuns.Write, day: Day)
    requires MayFollow(writes, day) && !w.DailySnapshot?
    ensures MayFollow(writes + [w], day)
  {
  }

  lemma OneSnapshotAtATime(s: Scheduler.State, p: nat, q: nat)
    requires LocksMatch(s) && p in s.procs && q in s.procs && Pending(s.procs[p].at) && Pending(s.procs[q].at)
    requires s.procs[p].job.SnapshotJob? && s.procs[q].job.SnapshotJob?
    ensures p == q
  {
  }

  // The writes under way in t were under way in s, but for a new one of today.
  ghost predicate NoneButToday(s: Scheduler.State, t: Scheduler.State, d: Day, committed: Option<nat>) {
    forall p :: p in t.procs && Pending(t.procs[p].at) ==>
      var w := PendingWrite(t.procs[p].at);
      || (w.day == d && (w.DailySnapshot? ==> t.procs[p].job.SnapshotJob?) && committed.None?)
      || (committed != Some(p) && p in s.procs && Pending(s.procs[p].at) && PendingWrite(s.procs[p].at) == w
          && t.procs[p].job == s.procs[p].job)
  }

  lemma EventPending(s: Scheduler.State, e: Event, d: Day)
    requires Enabled(s, e) && (e.Prepared? && e.work.Booked? ==> e.work.write.day == d)
    ensures NoneButToday(s, Step(s, e), d, if e.Commit? then Some(e.pid) else None)
  {
    EventEffect(s, e);
    if e.Prepared? { PreparedJob(s, e); }
    hide Enabled, Step, LedgerOf;
  }

  lemma WaitedStays(s: Scheduler.State, e: Event, d0: Day, d: Day)
    requires LocksMatch(s) && Enabled(s, e) && Waited(s, d0) && d0 <= d
    requires e.Prepared? && e.work.Booked? ==> e.work.write.day == d
    ensures Waited(Step(s, e), d)
  {
    EventEffect(s, e);
    EventPending(s, e, d);
    if e.Commit? { CommitIsPending(s, e); }
    hide Enabled, Step, LedgerOf, LocksMatch, MayFollow, SnapshotsWait, NoneButToday, Waited;
    if e.Commit? && s.procs[e.pid].at.work.Booked? {
      WaitedCommit(s, Step(s, e), e.pid, d0, d);
    } else {
      WaitedOther(s, Step(s, e), d0, d, if e.Commit? then Some(e.pid) else None);
    }
  }

  lemma WaitedOther(s: Scheduler.State, t: Scheduler.State, d0: Day, d: Day, committed: Option<nat>)
    requires Waited(s, d0) && d0 <= d && NoneButToday(s, t, d, committed) && LedgerOf(t) == LedgerOf(s)
    ensures Waited(t, d)
  {
    UpToMayFollow(LedgerOf(s), d);
    hide LedgerOf, MayFollow, SnapshotsWait;
  }

  lemma WaitedCommit(s: Scheduler.State, t: Scheduler.State, c: nat, d0: Day, d: Day)
    requires LocksMatch(s) && Waited(s, d0) && d0 <= d && c in s.procs && Pending(s.procs[c].at)
    requires NoneButToday(s, t, d, Some(c)) && LedgerOf(t) == LedgerOf(s) + [PendingWrite(s.procs[c].at)]
    ensures Waited(t, d)
  {
    hide LedgerOf, LocksMatch, MayFollow, SnapshotsWait;
    var w := PendingWrite(s.procs[c].at);
    OneMoreWaits(LedgerOf(s), w);
    forall p | p in t.procs && Pending(t.procs[p].at) && PendingWrite(t.procs[p].at).DailySnapshot?
      ensures t.procs[p].job.SnapshotJob? && MayFollow(LedgerOf(t), PendingWrite(t.procs[p].at).day)
    {
      if w.DailySnapshot? { OneSnapshotAtATime(s, c, p); }
      FollowsDelivery(LedgerOf(s), w, PendingWrite(t.procs[p].at).day);
    }
  }

  lemma UpToMayFollow(writes: seq<LedgerRuns.Write>, d: Day)
    requires UpTo(writes, d)
    ensures MayFollow(writes, d)
  {
  }

  lemma PreparedJob(s: Scheduler.State, e: Event)
    requires Enabled(s, e) && e.Prepared?
    ensures e.pid in Step(s, e).procs && Step(s, e).procs[e.pid].job == s.procs[e.pid].job
    ensures e.work.Booked? && e.work.write.DailySnapshot? ==> s.procs[e.pid].job.SnapshotJob?
  {
  }

  lemma {:induction false} SnapshotsWaited(events: seq<Event>, dates: seq<Day>)
    requires events != [] && Possible(events) && Dated(events, dates)
    ensures Waited(After(events), dates[|dates| - 1])
  {
    var n := |events| - 1;
    LastEvent(events, dates);
    hide Enabled, Step, Waited, LocksMatch, Consistent, WriterMatches;
    RunKeeps(events[..n]);
    if n > 0 {
      SnapshotsWaited(events[..n], dates[..n]);
      WaitedStays(After(events[..n]), events[n], dates[n - 1], dates[n]);
    } else {
      assert events[..n] == [] && After([]) == BOOT;
      WaitedAtBoot(dates[n]);
      WaitedStays(BOOT, events[n], dates[n], dates[n]);
    }
  }

  lemma WaitedAtBoot(d: Day)
    ensures Waited(BOOT, d)
  {
  }

  // ------------------------------------------------------------------
  // Nothing else waits
  // ------------------------------------------------------------------

  // The first k writes committed, these later ones prepared and waiting.
  ghost predicate Stage(s: Scheduler.State, writes: seq<LedgerRuns.Write>, k: nat, ready: set<nat>) {
    && k <= |writes| && s.writer == None && LedgerOf(s) == writes[..k]
    && (forall p :: p in ready ==> k <= p < |writes|)
    && (forall p: nat :: p in s.procs <==> p < k || p in ready)
    && forall p: nat :: p in s.procs ==> s.procs[p] == ProcessFor(writes[p], p < k)
  }

  function JobFor(w: LedgerRuns.Write): Job {
    match w
    case Delivery(rows, _, _, _) => Intake(rows)
    case DailySnapshot(_, _) => SnapshotJob
  }

  function ProcessFor(w: LedgerRuns.Write, done: bool): Process {
    Process(JobFor(w), if done then Done else Waiting(Booked(w)))
  }

  ghost predicate Sound(w: LedgerRuns.Write) {
    w.ok && (w.Delivery? ==> ValidDelivery(w.rows) && w.fetchedAt.Valid())
  }

  // A run so far, its last date not after this one.
  ghost predicate RunUpTo(events: seq<Event>, dates: seq<Day>, d: Day) {
    Possible(events) && Dated(events, dates) && (dates != [] ==> dates[|dates| - 1] <= d)
  }

  lemma Do(events: seq<Event>, dates: seq<Day>, e: Event, d: Day) returns (events': seq<Event>, dates': seq<Day>)
    requires RunUpTo(events, dates, d) && Enabled(After(events), e)
    requires e.Prepared? && e.work.Booked? ==> e.work.write.day == d
    ensures RunUpTo(events', dates', d) && After(events') == Step(After(events), e)
    ensures dates' != [] && dates'[|dates'| - 1] == d
  {
    hide Enabled, Step, After, Possible, Dated;
    OneMoreEvent(events, e, dates, d);
    events', dates' := events + [e], dates + [d];
  }

  // Without a prepared snapshot the snapshot lock is free.
  lemma LockIsFree(s: Scheduler.State, writes: seq<LedgerRuns.Write>, k: nat, ready: set<nat>, x: nat)
    requires Stage(s, writes, k, ready) && x < |writes| && LocksMatch(s)
    requires forall y :: y in ready ==> !writes[y].DailySnapshot?
    ensures BalancesDaily !in s.holders
  {
  }

  // One more job spawned, through its lock, and back with its work.
  lemma PrepareOne(events: seq<Event>, dates: seq<Day>, writes: seq<LedgerRuns.Write>, k: nat, ready: set<nat>, x: nat)
    returns (events': seq<Event>, dates': seq<Day>)
    requires k <= x < |writes| && x !in ready && Sound(writes[x])
    requires RunUpTo(events, dates, writes[x].day) && Stage(After(events), writes, k, ready)
    requires writes[x].DailySnapshot? ==> forall y :: y in ready ==> !writes[y].DailySnapshot?
    ensures RunUpTo(events', dates', writes[x].day) && Stage(After(events'), writes, k, ready + {x})
    ensures dates' != [] && dates'[|dates'| - 1] == writes[x].day
  {
    var w := writes[x];
    var s0 := After(events);
    RunKeeps(events);
    if w.DailySnapshot? { LockIsFree(s0, writes, k, ready, x); }
    assert x !in s0.procs;
    ThreeEvents(s0, x, w);
    hide After, RunUpTo, Stage, ValidDelivery, Step, Enabled;
    var events1, dates1 := Do(events, dates, Spawn(x, JobFor(w)), w.day);
    var events2, dates2 := Do(events1, dates1, Enter(x), w.day);
    events', dates' := Do(events2, dates2, Prepared(x, Booked(w)), w.day);
    StageWith(s0, After(events'), writes, k, ready, x);
  }

  lemma ThreeEvents(s: Scheduler.State, x: nat, w: LedgerRuns.Write)
    requires x !in s.procs && Sound(w) && (w.DailySnapshot? ==> BalancesDaily !in s.holders)
    ensures Enabled(s, Spawn(x, JobFor(w)))
    ensures Enabled(Step(s, Spawn(x, JobFor(w))), Enter(x))
    ensures Enabled(Step(Step(s, Spawn(x, JobFor(w))), Enter(x)), Prepared(x, Booked(w)))
    ensures var t := Step(Step(Step(s, Spawn(x, JobFor(w))), Enter(x)), Prepared(x, Booked(w)));
      t.writer == s.writer && t.commits == s.commits && t.procs == s.procs[x := ProcessFor(w, false)]
  {
    hide ValidDelivery, Plan, Execute;
  }

  lemma StageWith(s: Scheduler.State, t: Scheduler.State, writes: seq<LedgerRuns.Write>, k: nat, ready: set<nat>, x: nat)
    requires Stage(s, writes, k, ready) && k <= x < |writes|
    requires t.writer == s.writer && t.commits == s.commits && t.procs == s.procs[x := ProcessFor(writes[x], false)]
    ensures Stage(t, writes, k, ready + {x})
  {
  }

  // ------------------------------------------------------------------
  // One commit
  // ------------------------------------------------------------------

  // Everything about a state but one process, the writer and the locks.
  ghost predicate OnlyMoved(s: Scheduler.State, t: Scheduler.State, p: nat, at: Point) {
    && p in s.procs && t.db == s.db && t.commits == s.commits && t.procs == s.procs[p := s.procs[p].(at := at)]
  }

  lemma {:induction false} PrefixRuns(plan: seq<Statement>, db: Db, n: nat)
    requires ExecuteAll(plan, db).Some? && n <= |plan|
    ensures ExecuteAll(plan[..n], db).Some?
    decreases |plan| - n
  {
    if n < |plan| {
      PrefixRuns(plan, db, n + 1);
      assert plan[..n + 1][..n] == plan[..n];
    } else {
      assert plan[..n] == plan;
    }
  }

  // The transaction that p opened in s, n statements on, in t.
  ghost predicate InWork(s: Scheduler.State, t: Scheduler.State, p: nat, work: Work, n: nat) {
    && n <= |Plan(work)| && ExecuteAll(Plan(work)[..n], s.db).Some? && t.writer == s.writer
    && OnlyMoved(s, t, p, Writing(work, n, ExecuteAll(Plan(work)[..n], s.db).value))
  }

  lemma OpenWork(s: Scheduler.State, p: nat, work: Work)
    requires p in s.procs && s.procs[p].at == Writing(work, 0, s.db)
    ensures InWork(s, s, p, work, 0)
  {
    assert Plan(work)[..0] == [];
    assert s.procs[p := s.procs[p]] == s.procs;
  }

  lemma NextStatement(s: Scheduler.State, t: Scheduler.State, p: nat, work: Work, n: nat)
    requires InWork(s, t, p, work, n) && n < |Plan(work)| && ExecuteAll(Plan(work), s.db).Some?
    ensures Enabled(t, Run(p)) && InWork(s, Step(t, Run(p)), p, work, n + 1)
  {
    var working := ExecuteAll(Plan(work)[..n], s.db).value;
    PrefixRuns(Plan(work), s.db, n + 1);
    ExecuteSnoc(Plan(work), n, s.db, working);
    hide ExecuteAll, Execute, Plan;
    RunEvent(t, p, work, n, working);
    assert s.procs[p := t.procs[p]] == t.procs;
  }

  lemma RunEvent(t: Scheduler.State, p: nat, work: Work, n: nat, working: Db)
    requires p in t.procs && t.procs[p].at == Writing(work, n, working) && n < |Plan(work)|
    requires Execute(Plan(work)[n], working).Some?
    ensures Enabled(t, Run(p)) && Step(t, Run(p)).writer == t.writer
    ensures OnlyMoved(t, Step(t, Run(p)), p, Writing(work, n + 1, Execute(Plan(work)[n], working).value))
  {
    hide Execute, Plan;
  }

  // The first n statements of an open transaction.
  lemma {:induction false} RunStatements(events: seq<Event>, dates: seq<Day>, d: Day, p: nat, work: Work, n: nat)
    returns (events': seq<Event>, dates': seq<Day>)
    requires RunUpTo(events, dates, d) && InWork(After(events), After(events), p, work, 0)
    requires ExecuteAll(Plan(work), After(events).db).Some? && n <= |Plan(work)|
    requires dates != [] && dates[|dates| - 1] == d
    ensures RunUpTo(events', dates', d) && InWork(After(events), After(events'), p, work, n)
    ensures dates' != [] && dates'[|dates'| - 1] == d
  {
    hide *;
    RunIsPossible(events, dates, d);
    events', dates' := events, dates;
    if n > 0 {
      events', dates' := RunStatements(events, dates, d, p, work, n - 1);
      RunIsPossible(events', dates', d);
      NextStatement(After(events), After(events'), p, work, n - 1);
      events', dates' := Do(events', dates', Run(p), d);
    }
  }

  lemma RunIsPossible(events: seq<Event>, dates: seq<Day>, d: Day)
    requires RunUpTo(events, dates, d)
    ensures Possible(events)
  {
  }

  lemma CommitEvents(s: Scheduler.State, t: Scheduler.State, p: nat, work: Work)
    requires s.writer == None && p in s.procs && s.procs[p].at == Waiting(work)
    requires InWork(Step(s, LockWrite(p)), t, p, work, |Plan(work)|)
    ensures Enabled(t, Commit(p)) && Enabled(Step(t, Commit(p)), Unlock(p))
    ensures Enabled(Step(Step(t, Commit(p)), Unlock(p)), Leave(p))
    ensures var u := Step(Step(Step(t, Commit(p)), Unlock(p)), Leave(p));
      u.writer == None && u.commits == s.commits + [work] && u.procs == s.procs[p := s.procs[p].(at := Done)]
  {
    hide ExecuteAll, Execute, Plan;
  }

  lemma WorkOpens(s: Scheduler.State, p: nat, work: Work)
    requires s.writer == None && p in s.procs && s.procs[p].at == Waiting(work)
    ensures Enabled(s, LockWrite(p)) && Step(s, LockWrite(p)).db == s.db
    ensures InWork(Step(s, LockWrite(p)), Step(s, LockWrite(p)), p, work, 0)
  {
    OpenWork(Step(s, LockWrite(p)), p, work);
  }

  // The next write takes the write lock, runs, commits and leaves.
  lemma CommitOne(events: seq<Event>, dates: seq<Day>, d: Day, writes: seq<LedgerRuns.Write>, k: nat, ready: set<nat>)
    returns (events': seq<Event>, dates': seq<Day>)
    requires RunUpTo(events, dates, d) && dates != [] && dates[|dates| - 1] == d
    requires Stage(After(events), writes, k, ready) && k in ready && k < |writes| && Sound(writes[k])
    ensures RunUpTo(events', dates', d) && Stage(After(events'), writes, k + 1, ready - {k})
    ensures dates' != [] && dates'[|dates'| - 1] == d
  {
    var s, work := After(events), Booked(writes[k]);
    assert s.procs[k] == ProcessFor(writes[k], false);
    BookedRuns(work, s.db);
    WorkOpens(s, k, work);
    StageDone(s, writes, k, ready);
    hide *;
    events', dates' := Do(events, dates, LockWrite(k), d);
    events', dates' := RunStatements(events', dates', d, k, work, |Plan(work)|);
    RunIsPossible(events', dates', d);
    CommitEvents(s, After(events'), k, work);
    events', dates' := Do(events', dates', Commit(k), d);
    events', dates' := Do(events', dates', Unlock(k), d);
    events', dates' := Do(events', dates', Leave(k), d);
    RunIsPossible(events', dates', d);
  }

  lemma StageDone(s: Scheduler.State, writes: seq<LedgerRuns.Write>, k: nat, ready: set<nat>)
    requires Stage(s, writes, k, ready) && k in ready && k < |writes|
    ensures k in s.procs && s.procs[k].at == Waiting(Booked(writes[k])) && s.writer == None
    ensures forall t: Scheduler.State ::
      t.writer == None && t.commits == s.commits + [Booked(writes[k])] && t.procs == s.procs[k := s.procs[k].(at := Done)]
      ==> Stage(t, writes, k + 1, ready - {k})
  {
    forall t: Scheduler.State |
      t.writer == None && t.commits == s.commits + [Booked(writes[k])] && t.procs == s.procs[k := s.procs[k].(at := Done)]
      ensures Stage(t, writes, k + 1, ready - {k})
    {
      assert t.commits[..|s.commits|] == s.commits;
      assert writes[..k + 1] == writes[..k] + [writes[k]];
    }
  }

  // ------------------------------------------------------------------
  // Exactly these sequences of writes
  // ------------------------------------------------------------------

  // The first snapshot not committed yet.
  ghost predicate NextSnapshot(writes: seq<LedgerRuns.Write>, k: nat, x: nat)
    requires x < |writes|
  {
    k <= x && writes[x].DailySnapshot? && forall y :: k <= y < x ==> !writes[y].DailySnapshot?
  }

  // What may be prepared once k writes are committed: any delivery, and the
  // next snapshot.
  ghost predicate MayPrepare(writes: seq<LedgerRuns.Write>, k: nat, x: nat) {
    k <= x < |writes| && (writes[x].Delivery? || NextSnapshot(writes, k, x))
  }

  ghost function ToPrepare(writes: seq<LedgerRuns.Write>, k: nat, ready: set<nat>): set<nat> {
    set x: nat | x < |writes| && x !in ready && MayPrepare(writes, k, x)
  }

  ghost predicate SnapshotsReady(writes: seq<LedgerRuns.Write>, k: nat, ready: set<nat>) {
    forall x :: x in ready ==> x < |writes| && (writes[x].DailySnapshot? ==> NextSnapshot(writes, k, x))
  }

  // The date is not past any write that is still to be prepared, nor past
  // every write up to the one at hand.
  ghost predicate InTime(dates: seq<Day>, writes: seq<LedgerRuns.Write>, k: nat, ready: set<nat>) {
    dates != [] ==>
      && (forall x :: x in ToPrepare(writes, k, ready) ==> dates[|dates| - 1] <= writes[x].day)
      && exists l: nat :: l < |writes| && l <= k && dates[|dates| - 1] <= writes[l].day
  }

  lemma {:induction false} Earliest(writes: seq<LedgerRuns.Write>, some: set<nat>) returns (x: nat)
    requires some != {} && forall y :: y in some ==> y < |writes|
    ensures x in some && forall y :: y in some ==> writes[x].day <= writes[y].day
  {
    x :| x in some;
    if some != {x} {
      var rest := Earliest(writes, some - {x});
      if writes[rest].day < writes[x].day { x := rest; }
    }
  }

  lemma PreparedInTime(writes: seq<LedgerRuns.Write>, k: nat, ready: set<nat>, x: nat, dates: seq<Day>)
    requires k < |writes| && k !in ready && x in ToPrepare(writes, k, ready) && SnapshotsReady(writes, k, ready)
    requires forall y :: y in ToPrepare(writes, k, ready) ==> writes[x].day <= writes[y].day
    requires dates != [] && dates[|dates| - 1] == writes[x].day
    ensures InTime(dates, writes, k, ready + {x}) && SnapshotsReady(writes, k, ready + {x})
    ensures ToPrepare(writes, k, ready + {x}) < ToPrepare(writes, k, ready)
    ensures writes[x].DailySnapshot? ==> forall y :: y in ready ==> !writes[y].DailySnapshot?
  {
    assert k in ToPrepare(writes, k, ready);
  }

  // A commit makes at most one more snapshot preparable, and that one waited.
  lemma CommittedInTime(writes: seq<LedgerRuns.Write>, k: nat, ready: set<nat>, dates: seq<Day>)
    requires k < |writes| && k in ready && SnapshotsReady(writes, k, ready) && InTime(dates, writes, k, ready)
    requires SnapshotsWait(writes)
    ensures InTime(dates, writes, k + 1, ready - {k}) && SnapshotsReady(writes, k + 1, ready - {k})
  {
    forall x | x in ToPrepare(writes, k + 1, ready - {k}) && dates != []
      ensures dates[|dates| - 1] <= writes[x].day
    {
      if writes[k].DailySnapshot? && writes[x].DailySnapshot? {
        var l: nat :| l < |writes| && l <= k && dates[|dates| - 1] <= writes[l].day;
        assert MayFollow(writes[..x], writes[x].day);
        assert writes[..x][k] == writes[k] && writes[..x][l] == writes[l];
      } else {
        assert x in ToPrepare(writes, k, ready);
      }
    }
  }

  // Prepares what may be, earliest first, until the next write is.
  lemma {:induction false} PrepareNext(events: seq<Event>, dates: seq<Day>, writes: seq<LedgerRuns.Write>, k: nat, ready: set<nat>)
    returns (events': seq<Event>, dates': seq<Day>, ready': set<nat>)
    requires forall x :: 0 <= x < |writes| ==> Sound(writes[x])
    requires Possible(events) && Dated(events, dates) && Stage(After(events), writes, k, ready)
    requires k < |writes| && InTime(dates, writes, k, ready) && SnapshotsReady(writes, k, ready)
    ensures Possible(events') && Dated(events', dates') && Stage(After(events'), writes, k, ready')
    ensures InTime(dates', writes, k, ready') && SnapshotsReady(writes, k, ready') && k in ready'
    decreases ToPrepare(writes, k, ready)
  {
    hide Stage, After, Possible, Dated, Sound;
    events', dates', ready' := events, dates, ready;
    if k !in ready {
      assert k in ToPrepare(writes, k, ready);
      var x := Earliest(writes, ToPrepare(writes, k, ready));
      assert RunUpTo(events, dates, writes[x].day);
      assert writes[x].DailySnapshot? ==> forall y :: y in ready ==> !writes[y].DailySnapshot?;
      events', dates' := PrepareOne(events, dates, writes, k, ready, x);
      PreparedInTime(writes, k, ready, x, dates');
      hide ToPrepare, InTime, SnapshotsReady;
      events', dates', ready' := PrepareNext(events', dates', writes, k, ready + {x});
    }
  }

  lemma {:induction false} CommitFirst(writes: seq<LedgerRuns.Write>, k: nat)
    returns (events: seq<Event>, dates: seq<Day>, ready: set<nat>)
    requires (forall x :: 0 <= x < |writes| ==> Sound(writes[x])) && SnapshotsWait(writes) && k <= |writes|
    ensures Possible(events) && Dated(events, dates) && Stage(After(events), writes, k, ready)
    ensures InTime(dates, writes, k, ready) && SnapshotsReady(writes, k, ready)
  {
    if k == 0 {
      events, dates, ready := [], [], {};
      NothingYet(writes);
    } else {
      hide Stage, After, Possible, Dated, Sound, InTime, SnapshotsReady, SnapshotsWait;
      events, dates, ready := CommitFirst(writes, k - 1);
      events, dates, ready := PrepareNext(events, dates, writes, k - 1, ready);
      events, dates := CommitNext(events, dates, writes, k - 1, ready);
      ready := ready - {k - 1};
    }
  }

  lemma NothingYet(writes: seq<LedgerRuns.Write>)
    ensures Possible([]) && Dated([], []) && Stage(After([]), writes, 0, {})
    ensures InTime([], writes, 0, {}) && SnapshotsReady(writes, 0, {})
  {
    assert writes[..0] == [] && LedgerOf(BOOT) == [];
  }

  lemma CommitNext(events: seq<Event>, dates: seq<Day>, writes: seq<LedgerRuns.Write>, k: nat, ready: set<nat>)
    returns (events': seq<Event>, dates': seq<Day>)
    requires k < |writes| && Sound(writes[k]) && SnapshotsWait(writes) && k in ready
    requires Possible(events) && Dated(events, dates) && Stage(After(events), writes, k, ready)
    requires InTime(dates, writes, k, ready) && SnapshotsReady(writes, k, ready)
    ensures Possible(events') && Dated(events', dates') && Stage(After(events'), writes, k + 1, ready - {k})
    ensures InTime(dates', writes, k + 1, ready - {k}) && SnapshotsReady(writes, k + 1, ready - {k})
  {
    hide Stage, After, Possible, Dated, Sound, InTime, SnapshotsReady, SnapshotsWait;
    CommittedInTime(writes, k, ready, dates);
    NotEmpty(events, dates, writes, k, ready);
    events', dates' := CommitOne(events, dates, dates[|dates| - 1], writes, k, ready);
    SameDate(dates, dates', writes, k + 1, ready - {k});
  }

  lemma SameDate(dates: seq<Day>, dates': seq<Day>, writes: seq<LedgerRuns.Write>, k: nat, ready: set<nat>)
    requires dates != [] && dates' != [] && dates[|dates| - 1] == dates'[|dates'| - 1]
    ensures InTime(dates, writes, k, ready) ==> InTime(dates', writes, k, ready)
  {
  }

  lemma NotEmpty(events: seq<Event>, dates: seq<Day>, writes: seq<LedgerRuns.Write>, k: nat, ready: set<nat>)
    requires Possible(events) && Dated(events, dates) && Stage(After(events), writes, k, ready) && k in ready
    ensures dates != []
  {
    assert k in After(events).procs;
    hide Stage, After;
    ProcessMeansEvent(events);
  }

  lemma ProcessMeansEvent(events: seq<Event>)
    requires Possible(events)
    ensures After(events).procs != map[] ==> events != []
  {
  }

  // Some run of the scheduler commits these ledger writes in this order.
  ghost predicate CanCommit(writes: seq<LedgerRuns.Write>) {
    exists events: seq<Event>, dates: seq<Day> ::
      Possible(events) && Dated(events, dates) && LedgerOf(After(events)) == writes
  }

  lemma {:induction false} ProperWrites(commits: seq<Work>)
    requires forall i :: 0 <= i < |commits| ==> Proper(commits[i])
    ensures forall i :: 0 <= i < |Writes(commits)| ==> Sound(Writes(commits)[i])
  {
    if commits != [] {
      var n := |commits| - 1;
      assert forall i :: 0 <= i < n ==> commits[..n][i] == commits[i];
      ProperWrites(commits[..n]);
      assert Proper(commits[n]);
      hide ValidDelivery;
    }
  }

  // In any order of days, as long as each snapshot waits for the one before.
  lemma CanCommitIff(writes: seq<LedgerRuns.Write>)
    ensures CanCommit(writes) <==> SnapshotsWait(writes) && forall i :: 0 <= i < |writes| ==> Sound(writes[i])
  {
    hide Stage, After, Possible, Dated, Sound, InTime, SnapshotsReady, SnapshotsWait, Proper, Writes;
    if CanCommit(writes) {
      var events: seq<Event>, dates: seq<Day> :|
        Possible(events) && Dated(events, dates) && LedgerOf(After(events)) == writes;
      CommitsAreProper(events);
      ProperWrites(After(events).commits);
      WaitedFrom(events, dates);
    }
    if SnapshotsWait(writes) && forall i :: 0 <= i < |writes| ==> Sound(writes[i]) {
      var events, dates, ready := CommitFirst(writes, |writes|);
      AllCommitted(After(events), writes, ready);
    }
  }

  lemma WaitedFrom(events: seq<Event>, dates: seq<Day>)
    requires Possible(events) && Dated(events, dates)
    ensures SnapshotsWait(LedgerOf(After(events)))
  {
    if events == [] { WaitedAtBoot(0); } else { SnapshotsWaited(events, dates); }
  }

  lemma AllCommitted(s: Scheduler.State, writes: seq<LedgerRuns.Write>, ready: set<nat>)
    requires Stage(s, writes, |writes|, ready)
    ensures LedgerOf(s) == writes
  {
    assert writes[..|writes|] == writes;
  }
}
