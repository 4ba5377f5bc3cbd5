// Whole runs of the ledger: any deliveries and snapshots, any of them rolled
// back. A day and a fetch time are read before the write lock is taken, so
// writes may in principle commit out of day order; the history theorem says
// what order buys, and OutOfOrderKeepsGhost what its absence costs.
module LedgerRuns {
  import opened Sets
  import opened Texts
  import opened Timestamps
  import opened Ledger
  import Cents

  datatype Write =
    | Delivery(rows: seq<BalanceRow>, fetchedAt: Stamp, day: Day, ok: bool)
    | DailySnapshot(day: Day, ok: bool)

  datatype State = State(balances: Balances, daily: History)

  ghost predicate Valid(writes: seq<Write>) {
    forall i :: 0 <= i < |writes| && writes[i].Delivery? ==> ValidDelivery(writes[i].rows) && writes[i].fetchedAt.Valid()
  }

  ghost function Step(s: State, w: Write): State
    requires w.Delivery? ==> ValidDelivery(w.rows)
  {
    if !w.ok then s else
    match w
    case Delivery(rows, fetchedAt, day, _) =>
      var balances := Replaced(s.balances, rows, fetchedAt);
      State(balances, Snapshot(Dropped(s.daily, day, ProvidersOf(rows), balances), day, balances))
    case DailySnapshot(day, _) => State(s.balances, Snapshot(s.daily, day, s.balances))
  }

  ghost function After(writes: seq<Write>): State
    requires Valid(writes)
  {
    if writes == [] then State(map[], map[]) else Step(After(writes[..|writes| - 1]), writes[|writes| - 1])
  }

  // One day's history, as a table of accounts.
  function OnDay(daily: History, day: Day): map<string, Figure> {
    map id | id in (set k | k in daily && k.0 == day :: k.1) :: daily[(day, id)]
  }

  function Figures(balances: Balances): map<string, Figure> {
    map id | id in balances :: balances[id].figure
  }

  // ------------------------------------------------------------------
  // One write
  // ------------------------------------------------------------------

  // A write touches no row of another day.
  lemma OtherDaysUntouched(s: State, w: Write, day: Day)
    requires w.Delivery? ==> ValidDelivery(w.rows)
    requires w.day != day
    ensures OnDay(Step(s, w).daily, day) == OnDay(s.daily, day)
  {
    hide Replaced, ValidDelivery, OnDay;
    match w {
      case Delivery(rows, fetchedAt, written, _) =>
        var balances := Replaced(s.balances, rows, fetchedAt);
        DropElsewhere(s.daily, written, ProvidersOf(rows), balances, day);
        SnapshotElsewhere(Dropped(s.daily, written, ProvidersOf(rows), balances), written, balances, day);
      case DailySnapshot(written, _) =>
        SnapshotElsewhere(s.daily, written, s.balances, day);
    }
  }

  lemma SameDay(a: History, b: History, day: Day)
    requires forall id :: (day, id) in a <==> (day, id) in b
    requires forall id :: (day, id) in a ==> a[(day, id)] == b[(day, id)]
    ensures OnDay(a, day) == OnDay(b, day)
  {
    assert forall id :: id in OnDay(a, day) <==> (day, id) in a;
    assert forall id :: id in OnDay(b, day) <==> (day, id) in b;
  }

  lemma DropElsewhere(daily: History, written: Day, providers: set<string>, balances: Balances, day: Day)
    requires written != day
    ensures OnDay(Dropped(daily, written, providers, balances), day) == OnDay(daily, day)
  {
    SameDay(Dropped(daily, written, providers, balances), daily, day);
  }

  lemma SnapshotElsewhere(daily: History, written: Day, balances: Balances, day: Day)
    requires written != day
    ensures OnDay(Snapshot(daily, written, balances), day) == OnDay(daily, day)
  {
    SameDay(Snapshot(daily, written, balances), daily, day);
  }

  // Before a write: an account already in the history of the write's day, no
  // longer stored, whose provider the write does not name.
  ghost predicate Leftover(s: State, w: Write, id: string) {
    && id in OnDay(s.daily, w.day)
    && id !in s.balances
    && (w.Delivery? ==> ProviderOf(id) !in ProvidersOf(w.rows))
  }

  // A successful write leaves its day's history equal to the stored balances
  // exactly when it leaves no account of an absent provider behind.
  lemma DayExactIff(s: State, w: Write)
    requires w.Delivery? ==> ValidDelivery(w.rows)
    requires w.ok
    ensures OnDay(Step(s, w).daily, w.day) == Figures(Step(s, w).balances) <==> forall id :: !Leftover(s, w, id)
  {
    var after := Step(s, w);
    hide Step, OnDay, Leftover, Replaced, ValidDelivery, ProviderOf, ProvidersOf;
    var day := OnDay(after.daily, w.day);
    forall id
      ensures id in day <==> id in after.balances || Leftover(s, w, id)
      ensures id in after.balances ==> id in day && day[id] == after.balances[id].figure
      ensures Leftover(s, w, id) ==> id !in after.balances
    {
      DayMember(s, w, id);
      if Leftover(s, w, id) { LeftoverGone(s, w, id); }
    }
    if forall id :: !Leftover(s, w, id) {
      assert day.Keys == after.balances.Keys;
    }
  }

  lemma LeftoverGone(s: State, w: Write, id: string)
    requires w.Delivery? ==> ValidDelivery(w.rows)
    requires Leftover(s, w, id)
    ensures id !in Step(s, w).balances
  {
    if w.Delivery? { UnnamedAccount(s.balances, w.rows, w.fetchedAt, id); }
  }

  // A delivery leaves the accounts of a provider it does not name as they were.
  lemma UnnamedAccount(balances: Balances, rows: seq<BalanceRow>, t: Stamp, id: string)
    requires ValidDelivery(rows) && ProviderOf(id) !in ProvidersOf(rows)
    ensures id in Replaced(balances, rows, t) <==> id in balances
  {
    RowMapKeys(rows, t);
    hide ProviderOf;
    assert id !in AccountsOf(rows);
  }

  // What the written day holds for one account.
  lemma DayMember(s: State, w: Write, id: string)
    requires w.Delivery? ==> ValidDelivery(w.rows)
    requires w.ok
    ensures id in OnDay(Step(s, w).daily, w.day) <==> id in Step(s, w).balances || Leftover(s, w, id)
    ensures id in Step(s, w).balances ==>
      id in OnDay(Step(s, w).daily, w.day) && OnDay(Step(s, w).daily, w.day)[id] == Step(s, w).balances[id].figure
  {
    var after := Step(s, w);
    hide Replaced, ValidDelivery;
    assert id in OnDay(s.daily, w.day) <==> (w.day, id) in s.daily;
    assert id in OnDay(after.daily, w.day) <==> (w.day, id) in after.daily;
  }

  // ------------------------------------------------------------------
  // The history of a run
  // ------------------------------------------------------------------

  ghost predicate InDayOrder(writes: seq<Write>) {
    forall i, j :: 0 <= i < j < |writes| && writes[i].ok && writes[j].ok ==> writes[i].day <= writes[j].day
  }

  // The balances as they stood after the last successful write of a day.
  ghost function AsOf(writes: seq<Write>, day: Day): map<string, Figure>
    requires Valid(writes)
  {
    if writes == [] then map[] else
    var last := writes[|writes| - 1];
    if last.ok && last.day == day then Figures(After(writes).balances) else AsOf(writes[..|writes| - 1], day)
  }

  ghost predicate Written(writes: seq<Write>, day: Day) {
    exists i :: 0 <= i < |writes| && writes[i].ok && writes[i].day == day
  }

  // If no later day was written, the day's last write left today's balances.
  lemma {:induction false} AsOfLatest(writes: seq<Write>, day: Day)
    requires Valid(writes) && InDayOrder(writes) && Written(writes, day)
    requires forall i :: 0 <= i < |writes| && writes[i].ok ==> writes[i].day <= day
    ensures AsOf(writes, day) == Figures(After(writes).balances)
  {
    hide Replaced, ValidDelivery, Snapshot, Dropped, Figures;
    var n := |writes| - 1;
    if !(writes[n].ok && writes[n].day == day) {
      var i :| 0 <= i < |writes| && writes[i].ok && writes[i].day == day;
      assert i < n && !writes[n].ok;
      assert writes[..n][i] == writes[i];
      AsOfLatest(writes[..n], day);
    }
  }

  lemma {:induction false} NeverWritten(writes: seq<Write>, day: Day)
    requires Valid(writes) && !Written(writes, day)
    ensures AsOf(writes, day) == map[]
  {
    if writes != [] {
      var n := |writes| - 1;
      assert !(writes[n].ok && writes[n].day == day);
      assert forall i :: 0 <= i < n ==> writes[..n][i] == writes[i];
      NeverWritten(writes[..n], day);
    }
  }

  // Every day's history is the balances as they stood after that day's last
  // successful write, however many writes were rolled back around it.
  lemma {:induction false} HistoryIsFaithful(writes: seq<Write>, day: Day)
    requires Valid(writes) && InDayOrder(writes)
    ensures OnDay(After(writes).daily, day) == AsOf(writes, day)
  {
    if writes != [] {
      var n := |writes| - 1;
      var before, w := writes[..n], writes[n];
      assert before + [w] == writes;
      HistoryIsFaithful(before, day);
      hide ValidDelivery, OnDay, Figures, Leftover;
      if w.ok && w.day != day {
        OtherDaysUntouched(After(before), w, day);
      } else if w.ok {
        NothingLeftOver(before, w);
        DayExactIff(After(before), w);
      }
    }
  }

  lemma NothingLeftOver(before: seq<Write>, w: Write)
    requires Valid(before + [w]) && InDayOrder(before + [w]) && w.ok
    requires Valid(before) && (w.Delivery? ==> ValidDelivery(w.rows))
    requires OnDay(After(before).daily, w.day) == AsOf(before, w.day)
    ensures forall id :: !Leftover(After(before), w, id)
  {
    var s := After(before);
    forall i, j | 0 <= i < j < |before| && before[i].ok && before[j].ok ensures before[i].day <= before[j].day {
      assert (before + [w])[i] == before[i] && (before + [w])[j] == before[j];
    }
    forall i | 0 <= i < |before| && before[i].ok ensures before[i].day <= w.day {
      assert (before + [w])[i] == before[i] && (before + [w])[|before|] == w;
    }
    if Written(before, w.day) { AsOfLatest(before, w.day); } else { NeverWritten(before, w.day); }
    forall id ensures !Leftover(s, w, id) {
      if id in s.balances && w.Delivery? && ProviderOf(id) !in ProvidersOf(w.rows) {
        assert id in Keeping(s.balances, ProvidersOf(w.rows));
      }
    }
  }

  lemma OneMore(writes: seq<Write>, w: Write)
    requires Valid(writes) && (w.Delivery? ==> ValidDelivery(w.rows) && w.fetchedAt.Valid())
    ensures Valid(writes + [w]) && After(writes + [w]) == Step(After(writes), w)
    ensures w.ok ==> AsOf(writes + [w], w.day) == Figures(After(writes + [w]).balances)
  {
    assert (writes + [w])[..|writes|] == writes;
  }

  // The day's last successful write, if any, left no account behind.
  ghost predicate LeavesNothing(writes: seq<Write>, day: Day)
    requires Valid(writes)
  {
    if writes == [] then true else
    var before, last := writes[..|writes| - 1], writes[|writes| - 1];
    if last.ok && last.day == day then forall id :: !Leftover(After(before), last, id) else LeavesNothing(before, day)
  }

  // In any order of days: a day's history is the balances as they stood after
  // its last successful write exactly when that write left nothing behind.
  lemma {:induction false} HistoryExactIff(writes: seq<Write>, day: Day)
    requires Valid(writes)
    ensures OnDay(After(writes).daily, day) == AsOf(writes, day) <==> LeavesNothing(writes, day)
  {
    if writes == [] {
      assert OnDay(map[], day) == map[];
    } else {
      var before, last := writes[..|writes| - 1], writes[|writes| - 1];
      HistoryExactIff(before, day);
      hide ValidDelivery, OnDay, Figures, Leftover;
      if last.ok && last.day == day {
        DayExactIff(After(before), last);
      } else if last.ok {
        OtherDaysUntouched(After(before), last, day);
      }
    }
  }

  // Running the real tables over any run of writes, each failing statement
  // anywhere in its transaction, gives the state the run stands for.
  method Replay(writes: seq<Write>, failAt: seq<nat>) returns (tables: Tables)
    requires Valid(writes) && |failAt| == |writes|
    ensures fresh(tables) && State(tables.balances, tables.daily) == After(writes)
  {
    tables := new Tables();
    assert writes[..0] == [];
    for n := 0 to |writes|
      invariant Valid(writes[..n]) && fresh(tables)
      invariant State(tables.balances, tables.daily) == After(writes[..n])
    {
      var w := writes[n];
      ghost var before := writes[..n];
      assert writes[..n + 1] == before + [w];
      hide ValidDelivery, Replaced, Dropped, Snapshot;
      OneMore(before, w);
      match w {
        case Delivery(rows, fetchedAt, day, ok) =>
          var stored := tables.StoreDelivery(rows, fetchedAt, day, if ok then None else Some(failAt[n]));
        case DailySnapshot(day, ok) =>
          var written := tables.SnapshotBalancesDaily(day, !ok);
      }
    }
    assert writes[..|writes|] == writes;
  }

  // Without day order the theorem fails. An account delivered on one day and
  // replaced on another stays in the first day's history; a snapshot of that
  // day committed afterwards does not remove it, although the account is no
  // longer among the balances the day was last written from.
  lemma OutOfOrderKeepsGhost(writes: seq<Write>, w0: Write, w1: Write, id: string)
    requires Valid(writes)
    requires w0.Delivery? && w0.ok && ValidDelivery(w0.rows) && w0.fetchedAt.Valid() && id in AccountsOf(w0.rows)
    requires w1.Delivery? && w1.ok && ValidDelivery(w1.rows) && w1.fetchedAt.Valid() && id !in AccountsOf(w1.rows)
    requires ProviderOf(id) in ProvidersOf(w1.rows) && w1.day != w0.day
    ensures var run := writes + [w0] + [w1] + [DailySnapshot(w0.day, true)];
      && Valid(run) && !InDayOrder(run)
      && id in OnDay(After(run).daily, w0.day) && id !in AsOf(run, w0.day)
  {
    var w2 := DailySnapshot(w0.day, true);
    var run0, run1, run2 := writes + [w0], writes + [w0] + [w1], writes + [w0] + [w1] + [w2];
    assert !InDayOrder(run2) by {
      assert run2[|writes|] == w0 && run2[|writes| + 1] == w1 && run2[|writes| + 2] == w2;
    }
    OneMore(writes, w0);
    OneMore(run0, w1);
    OneMore(run1, w2);
    Delivered(After(writes).balances, w0.rows, w0.fetchedAt, id);
    Delivered(After(run0).balances, w1.rows, w1.fetchedAt, id);
    DayMember(After(writes), w0, id);
    OtherDaysUntouched(After(run0), w1, w0.day);
    assert id !in After(run1).balances;
    assert id in OnDay(After(run1).daily, w0.day);
    LeftoverIs(After(run1), w2, id);
    DayMember(After(run1), w2, id);
  }

  lemma LeftoverIs(s: State, w: Write, id: string)
    requires w.DailySnapshot? && id in OnDay(s.daily, w.day) && id !in s.balances
    ensures Leftover(s, w, id) && Step(s, w).balances == s.balances
  {
  }

  // After a delivery, a named provider's stored accounts are those delivered.
  lemma Delivered(balances: Balances, rows: seq<BalanceRow>, t: Stamp, id: string)
    requires ValidDelivery(rows)
    ensures id in AccountsOf(rows) ==> id in Replaced(balances, rows, t)
    ensures ProviderOf(id) in ProvidersOf(rows) && id !in AccountsOf(rows) ==> id !in Replaced(balances, rows, t)
  {
    RowMapKeys(rows, t);
  }

  // ------------------------------------------------------------------
  // Freshness
  // ------------------------------------------------------------------

  // When the last successful delivery that names a provider was fetched.
  ghost function Latest(writes: seq<Write>, provider: string): Option<Stamp> {
    if writes == [] then None else
    var last := writes[|writes| - 1];
    if last.Delivery? && last.ok && provider in ProvidersOf(last.rows) then Some(last.fetchedAt)
    else Latest(writes[..|writes| - 1], provider)
  }

  // All of a provider's rows carry the fetch time of its last delivery.
  lemma {:induction false} RowsShareFetchTime(writes: seq<Write>, id: string)
    requires Valid(writes) && id in After(writes).balances
    ensures Latest(writes, ProviderOf(id)) == Some(After(writes).balances[id].fetchedAt)
    ensures After(writes).balances[id].fetchedAt.Valid() && ProviderOf(id) in PROVIDERS
  {
    var n := |writes| - 1;
    var before, w := writes[..n], writes[n];
    if w.Delivery? && w.ok {
      ReplacedRow(After(before).balances, w.rows, w.fetchedAt, id);
      if ProviderOf(id) !in ProvidersOf(w.rows) { RowsShareFetchTime(before, id); }
    } else {
      RowsShareFetchTime(before, id);
    }
  }

  lemma ReplacedRow(balances: Balances, rows: seq<BalanceRow>, t: Stamp, id: string)
    requires ValidDelivery(rows) && id in Replaced(balances, rows, t)
    ensures if ProviderOf(id) in ProvidersOf(rows)
      then (exists i :: 0 <= i < |rows| && rows[i].accountId == id && Replaced(balances, rows, t)[id] == StoredRow(rows[i], t))
           && ProviderOf(id) in PROVIDERS
      else id in balances && Replaced(balances, rows, t)[id] == balances[id]
  {
    RowMapKeys(rows, t);
    if id in AccountsOf(rows) {
      var i :| 0 <= i < |rows| && rows[i].accountId == id;
      RowMapValue(rows, t, i);
    }
  }

  // What MIN over the stored text returns.
  ghost predicate IsOldestText(balances: Balances, text: string) {
    && (exists id :: id in balances && text == Iso(balances[id].fetchedAt))
    && (forall id :: id in balances ==> !TextLess(Iso(balances[id].fetchedAt), text))
  }

  ghost predicate HasRows(balances: Balances, provider: string) {
    exists id :: id in balances && ProviderOf(id) == provider
  }

  // The freshness the pages show is the latest delivery of the provider that
  // has gone longest without one.
  lemma FreshnessIsLaggard(writes: seq<Write>, t: Stamp)
    requires Valid(writes) && t.Valid()
    ensures IsOldestText(After(writes).balances, Iso(t)) <==>
      && (exists p :: HasRows(After(writes).balances, p) && Latest(writes, p) == Some(t))
      && (forall p :: HasRows(After(writes).balances, p) ==> Latest(writes, p).Some? && !Latest(writes, p).value.Before(t))
  {
    var balances := After(writes).balances;
    forall id | id in balances
      ensures Latest(writes, ProviderOf(id)) == Some(balances[id].fetchedAt)
      ensures TextLess(Iso(balances[id].fetchedAt), Iso(t)) <==> balances[id].fetchedAt.Before(t)
      ensures Iso(balances[id].fetchedAt) == Iso(t) <==> balances[id].fetchedAt == t
      ensures HasRows(balances, ProviderOf(id))
    {
      RowsShareFetchTime(writes, id);
      IsoOrder(balances[id].fetchedAt, t);
      if Iso(balances[id].fetchedAt) == Iso(t) { IsoInjective(balances[id].fetchedAt, t); }
    }
    hide Iso, TextLess, After, Latest;
    if IsOldestText(balances, Iso(t)) {
      var id :| id in balances && Iso(t) == Iso(balances[id].fetchedAt);
      assert HasRows(balances, ProviderOf(id)) && Latest(writes, ProviderOf(id)) == Some(t);
    }
  }

  // ------------------------------------------------------------------
  // Size
  // ------------------------------------------------------------------

  function RowsOf(balances: Balances, provider: string): set<string> {
    set id | id in balances && ProviderOf(id) == provider
  }

  lemma {:induction false} ProviderBound(writes: seq<Write>, provider: string)
    requires Valid(writes)
    ensures |RowsOf(After(writes).balances, provider)| <= MAX_DELIVERY_ROWS
  {
    if writes != [] {
      var n := |writes| - 1;
      var before, w := writes[..n], writes[n];
      ProviderBound(before, provider);
      if w.Delivery? && w.ok {
        ReplacedBound(After(before).balances, w.rows, w.fetchedAt, provider);
      }
    }
  }

  lemma ReplacedBound(balances: Balances, rows: seq<BalanceRow>, t: Stamp, provider: string)
    requires ValidDelivery(rows) && |RowsOf(balances, provider)| <= MAX_DELIVERY_ROWS
    ensures |RowsOf(Replaced(balances, rows, t), provider)| <= MAX_DELIVERY_ROWS
  {
    var after := RowsOf(Replaced(balances, rows, t), provider);
    forall id | id in Replaced(balances, rows, t) { ReplacedRow(balances, rows, t, id); }
    hide Replaced, ValidDelivery, ProviderOf;
    if provider in ProvidersOf(rows) {
      AccountsCount(rows);
      assert after <= AccountsOf(rows);
      SubsetSize(after, AccountsOf(rows));
    } else {
      assert after <= RowsOf(balances, provider);
      SubsetSize(after, RowsOf(balances, provider));
    }
  }

  lemma {:induction false} AccountsCount(rows: seq<BalanceRow>)
    ensures |AccountsOf(rows)| <= |rows|
  {
    if rows != [] {
      var n := |rows| - 1;
      AccountsCount(rows[..n]);
      AccountsSnoc(rows, n);
      assert rows[..n + 1] == rows;
    }
  }

  // No reachable table has more than three full deliveries of rows, and every
  // amount in it is within the bound of the accepted text.
  lemma TableBound(writes: seq<Write>)
    requires Valid(writes)
    ensures |After(writes).balances| <= 3 * MAX_DELIVERY_ROWS
    ensures forall id :: id in After(writes).balances ==> Cents.Abs(After(writes).balances[id].figure.cents) <= 100_000_000_000_000
  {
    var balances := After(writes).balances;
    ProviderBound(writes, "pp");
    ProviderBound(writes, "xero");
    ProviderBound(writes, "crypto");
    forall id | id in balances ensures ProviderOf(id) in PROVIDERS { RowsShareFetchTime(writes, id); }
    forall id | id in balances ensures Cents.Abs(balances[id].figure.cents) <= 100_000_000_000_000 { AmountBound(writes, id); }
    hide After, Valid;
    ThreeProviders(balances);
  }

  lemma ThreeProviders(balances: Balances)
    requires forall id :: id in balances ==> ProviderOf(id) in PROVIDERS
    ensures |balances| <= |RowsOf(balances, "pp")| + |RowsOf(balances, "xero")| + |RowsOf(balances, "crypto")|
  {
    var pp, xero, crypto := RowsOf(balances, "pp"), RowsOf(balances, "xero"), RowsOf(balances, "crypto");
    hide ProviderOf;
    SubsetSize(balances.Keys, pp + xero + crypto);
    assert |balances.Keys| == |balances|;
    assert |pp + xero + crypto| <= |pp + xero| + |crypto|;
  }

  lemma {:induction false} AmountBound(writes: seq<Write>, id: string)
    requires Valid(writes) && id in After(writes).balances
    ensures Cents.Abs(After(writes).balances[id].figure.cents) <= 100_000_000_000_000
  {
    var n := |writes| - 1;
    var before, w := writes[..n], writes[n];
    if w.Delivery? && w.ok {
      ReplacedRow(After(before).balances, w.rows, w.fetchedAt, id);
      if ProviderOf(id) in ProvidersOf(w.rows) {
        var i :| 0 <= i < |w.rows| && w.rows[i].accountId == id && After(writes).balances[id] == StoredRow(w.rows[i], w.fetchedAt);
        Cents.CentsBound(w.rows[i].value);
      } else {
        AmountBound(before, id);
      }
    } else {
      AmountBound(before, id);
    }
  }
}
