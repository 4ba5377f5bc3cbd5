// Account balances and their daily history: the two tables, the three steps
// that write them, and the two transactions made of those steps.
module Ledger {
  import opened Texts
  import opened Timestamps
  import Cents

  const PROVIDERS: set<string> := {"pp", "xero", "crypto"}
  const MAX_DELIVERY_ROWS := 2000

  // ISO dates order as text the way the days do, so a day is its ordinal.
  type Day = int

  datatype BalanceRow = BalanceRow(
    accountId: string, accountName: string, entityId: string, category: string, source: string,
    value: string, currency: string, asOf: Day, reconciledThrough: Option<Day>)

  datatype Stored = Stored(
    accountName: string, source: string, fetchedAt: Stamp, reconciledThrough: Option<Day>, figure: Figure)

  // The columns the history keeps of a balance.
  datatype Figure = Figure(entityId: string, category: string, cents: int, asOf: Day, currency: string)

  type Balances = map<string, Stored>
  type History = map<(Day, string), Figure>

  // ------------------------------------------------------------------
  // Providers
  // ------------------------------------------------------------------

  // The text before the first colon, or nothing when there is no colon.
  function ProviderOf(accountId: string): string {
    if ':' in accountId then UpToColon(accountId) else ""
  }

  function UpToColon(s: string): string
    requires ':' in s
  {
    if s[0] == ':' then "" else [s[0]] + UpToColon(s[1..])
  }

  // How the SQL deletes pick a provider's rows: by the prefix with its colon.
  predicate HasPrefix(accountId: string, provider: string) {
    var prefix := provider + ":";
    |prefix| <= |accountId| && accountId[..|prefix|] == prefix
  }

  lemma {:induction false} UpToColonIs(s: string)
    requires ':' in s
    ensures |UpToColon(s)| < |s| && s[..|UpToColon(s)|] == UpToColon(s) && s[|UpToColon(s)|] == ':'
    ensures ':' !in UpToColon(s)
  {
    if s[0] != ':' {
      UpToColonIs(s[1..]);
      var n := |UpToColon(s[1..])|;
      assert s[..n + 1] == [s[0]] + s[1..][..n];
    }
  }

  lemma PrefixIsProvider(accountId: string, provider: string)
    requires provider != "" && ':' !in provider
    ensures HasPrefix(accountId, provider) <==> ProviderOf(accountId) == provider
  {
    var n := |provider|;
    if ':' in accountId {
      UpToColonIs(accountId);
      var k := |UpToColon(accountId)|;
      assert accountId[..k + 1] == UpToColon(accountId) + ":";
      if HasPrefix(accountId, provider) {
        assert accountId[..n + 1][n] == ':';
        assert forall i :: 0 <= i < n ==> accountId[i] == provider[i];
        assert forall i :: 0 <= i < k ==> accountId[i] == UpToColon(accountId)[i];
        assert n == k;
        assert provider == accountId[..n];
      }
    }
    assert HasPrefix(accountId, provider) ==> accountId[..n + 1][n] == ':';
  }

  // ------------------------------------------------------------------
  // The steps, as functions of the tables
  // ------------------------------------------------------------------

  ghost predicate ValidDelivery(rows: seq<BalanceRow>) {
    && |rows| <= MAX_DELIVERY_ROWS
    && (forall i :: 0 <= i < |rows| ==> Cents.IsAmount(rows[i].value) && ProviderOf(rows[i].accountId) in PROVIDERS)
    && (forall i, j :: 0 <= i < j < |rows| ==> rows[i].accountId != rows[j].accountId)
  }

  function ProvidersOf(rows: seq<BalanceRow>): set<string> {
    set i | 0 <= i < |rows| :: ProviderOf(rows[i].accountId)
  }

  function StoredRow(row: BalanceRow, fetchedAt: Stamp): Stored
    requires Cents.IsAmount(row.value)
  {
    Stored(row.accountName, row.source, fetchedAt, row.reconciledThrough,
           Figure(row.entityId, row.category, Cents.ToCents(row.value), row.asOf, row.currency))
  }

  function Keeping(balances: Balances, gone: set<string>): Balances {
    map id | id in balances && ProviderOf(id) !in gone :: balances[id]
  }

  // Other providers' rows as they were, and this delivery's rows.
  ghost function Replaced(balances: Balances, rows: seq<BalanceRow>, fetchedAt: Stamp): Balances
    requires ValidDelivery(rows)
  {
    Keeping(balances, ProvidersOf(rows)) + RowMap(rows, fetchedAt)
  }

  ghost function RowMap(rows: seq<BalanceRow>, fetchedAt: Stamp): Balances
    requires forall i :: 0 <= i < |rows| ==> Cents.IsAmount(rows[i].value)
  {
    if rows == [] then map[] else
    var last := rows[|rows| - 1];
    RowMap(rows[..|rows| - 1], fetchedAt)[last.accountId := StoredRow(last, fetchedAt)]
  }

  function AccountsOf(rows: seq<BalanceRow>): set<string> {
    set i | 0 <= i < |rows| :: rows[i].accountId
  }

  lemma AccountsSnoc(rows: seq<BalanceRow>, n: nat)
    requires n < |rows|
    ensures AccountsOf(rows[..n + 1]) == AccountsOf(rows[..n]) + {rows[n].accountId}
  {
    assert forall i :: 0 <= i < n ==> rows[..n + 1][i] == rows[..n][i];
    assert rows[..n + 1][n] == rows[n];
  }

  lemma {:induction false} RowMapKeys(rows: seq<BalanceRow>, fetchedAt: Stamp)
    requires forall i :: 0 <= i < |rows| ==> Cents.IsAmount(rows[i].value)
    ensures RowMap(rows, fetchedAt).Keys == AccountsOf(rows)
  {
    hide Cents.IsAmount, StoredRow;
    if rows != [] {
      var n := |rows| - 1;
      RowMapKeys(rows[..n], fetchedAt);
      AccountsSnoc(rows, n);
      assert rows[..n + 1] == rows;
    }
  }

  lemma {:induction false} RowMapValue(rows: seq<BalanceRow>, fetchedAt: Stamp, i: nat)
    requires ValidDelivery(rows) && i < |rows|
    ensures rows[i].accountId in RowMap(rows, fetchedAt)
    ensures RowMap(rows, fetchedAt)[rows[i].accountId] == StoredRow(rows[i], fetchedAt)
  {
    hide Cents.IsAmount, StoredRow, ProviderOf;
    var n := |rows| - 1;
    if i < n {
      ValidFront(rows, n);
      RowMapValue(rows[..n], fetchedAt, i);
    }
  }

  lemma KeepingStep(start: Balances, gone: set<string>, provider: string)
    requires provider in PROVIDERS
    ensures (map id | id in Keeping(start, gone) && !HasPrefix(id, provider) :: start[id]) == Keeping(start, gone + {provider})
  {
    forall id { PrefixIsProvider(id, provider); }
    hide ProviderOf, HasPrefix;
  }

  lemma DroppedStep(start: History, day: Day, gone: set<string>, balances: Balances, provider: string)
    requires provider in PROVIDERS
    ensures var daily := Dropped(start, day, gone, balances);
      daily - ReplacedAway(daily, day, provider, balances) == Dropped(start, day, gone + {provider}, balances)
  {
    forall id { PrefixIsProvider(id, provider); }
    hide ProviderOf, HasPrefix;
  }

  function ReplacedAway(daily: History, day: Day, provider: string, balances: Balances): set<(Day, string)> {
    set k | k in daily && k.0 == day && HasPrefix(k.1, provider) && k.1 !in balances
  }

  function Dropped(daily: History, day: Day, providers: set<string>, balances: Balances): History {
    map k | k in daily && !(k.0 == day && ProviderOf(k.1) in providers && k.1 !in balances) :: daily[k]
  }

  function DayRows(balances: Balances, day: Day): History {
    map k | k in (set id | id in balances :: (day, id)) :: balances[k.1].figure
  }

  function Snapshot(daily: History, day: Day, balances: Balances): History {
    daily + DayRows(balances, day)
  }

  // ------------------------------------------------------------------
  // The tables and their writers
  // ------------------------------------------------------------------

  function OnTheDay(ids: set<string>, day: Day): set<(Day, string)> {
    set id | id in ids :: (day, id)
  }

  lemma {:induction false} DayRowsCount(ids: set<string>, day: Day)
    ensures |OnTheDay(ids, day)| == |ids|
  {
    if id :| id in ids {
      DayRowsCount(ids - {id}, day);
      assert OnTheDay(ids, day) == OnTheDay(ids - {id}, day) + {(day, id)};
      assert ids == (ids - {id}) + {id};
    } else {
      assert OnTheDay(ids, day) == {};
    }
  }

  class Tables {
    var balances: Balances
    var daily: History

    constructor ()
      ensures balances == map[] && daily == map[]
    {
      balances, daily := map[], map[];
    }

    // Deletes every named provider's rows, then inserts row by row. An insert
    // on a taken account id would break the primary key; it never happens.
    method ReplaceBalances(rows: seq<BalanceRow>, fetchedAt: Stamp) returns (count: nat, keyClash: bool)
      requires ValidDelivery(rows)
      modifies this`balances
      ensures !keyClash && count == |rows|
      ensures balances == Replaced(old(balances), rows, fetchedAt)
    {
      assert ProvidersOf(rows) <= PROVIDERS;
      hide RowMap, Keeping, ProviderOf, ProvidersOf, Cents.IsAmount;
      DeleteProviders(ProvidersOf(rows));
      keyClash := InsertRows(rows, fetchedAt, old(balances));
      count := |rows|;
    }

    method InsertRows(rows: seq<BalanceRow>, fetchedAt: Stamp, ghost start: Balances) returns (keyClash: bool)
      requires ValidDelivery(rows) && balances == Keeping(start, ProvidersOf(rows))
      modifies this`balances
      ensures !keyClash && balances == Keeping(start, ProvidersOf(rows)) + RowMap(rows, fetchedAt)
    {
      ghost var kept := balances;
      assert rows[..0] == [] && kept == kept + RowMap(rows[..0], fetchedAt);
      hide RowMap, Keeping, ProviderOf, ProvidersOf, StoredRow, Cents.IsAmount;
      for n := 0 to |rows|
        invariant balances == kept + RowMap(rows[..n], fetchedAt)
      {
        RowIsNew(start, rows, fetchedAt, n);
        if rows[n].accountId in balances { return true; }
        balances := balances[rows[n].accountId := StoredRow(rows[n], fetchedAt)];
      }
      assert rows[..|rows|] == rows;
      keyClash := false;
    }

    method DeleteProviders(providers: set<string>)
      requires providers <= PROVIDERS
      modifies this`balances
      ensures balances == Keeping(old(balances), providers)
    {
      var start := balances;
      var rest := providers;
      while rest != {}
        invariant rest <= providers && balances == Keeping(start, providers - rest)
      {
        var provider :| provider in rest;
        KeepingStep(start, providers - rest, provider);
        assert providers - rest + {provider} == providers - (rest - {provider});
        balances := map id | id in balances && !HasPrefix(id, provider) :: balances[id];
        rest := rest - {provider};
      }
    }

    method DropUnreportedFromDay(day: Day, providers: set<string>) returns (removed: nat)
      requires providers <= PROVIDERS
      modifies this`daily
      ensures daily == Dropped(old(daily), day, providers, balances)
      ensures removed == |old(daily)| - |daily|
    {
      var start := daily;
      var rest := providers;
      removed := 0;
      assert providers - providers == {} && Dropped(start, day, {}, balances) == start;
      hide Dropped, ReplacedAway;
      while rest != {}
        invariant rest <= providers
        invariant daily == Dropped(start, day, providers - rest, balances)
        invariant removed == |start| - |daily|
      {
        var provider :| provider in rest;
        var gone := ReplacedAway(daily, day, provider, balances);
        DroppedStep(start, day, providers - rest, balances, provider);
        SizeAfter(daily, day, provider, balances);
        assert providers - rest + {provider} == providers - (rest - {provider});
        removed := removed + |gone|;
        daily := daily - gone;
        rest := rest - {provider};
      }
    }

    // Every stored account is on the day with its own figures; nothing else
    // changes, and nothing is deleted.
    method SnapshotDaily(day: Day) returns (written: nat)
      modifies this`daily
      ensures daily == Snapshot(old(daily), day, balances)
      ensures forall id :: id in balances ==> (day, id) in daily && daily[(day, id)] == balances[id].figure
      ensures forall k: (Day, string) :: k.0 != day || k.1 !in balances ==>
        (k in daily <==> k in old(daily)) && (k in daily ==> daily[k] == old(daily)[k])
      ensures written == |set k | k in daily && k.0 == day && k.1 in balances|
    {
      daily := daily + DayRows(balances, day);
      written := |balances|;
      DayRowsCount(balances.Keys, day);
      assert (set k | k in daily && k.0 == day && k.1 in balances) == OnTheDay(balances.Keys, day);
      assert |balances.Keys| == |balances|;
    }

    // One delivery and its snapshot, in one transaction. A failing statement,
    // or a failing commit, rolls everything back.
    method StoreDelivery(rows: seq<BalanceRow>, fetchedAt: Stamp, today: Day, failAt: Option<nat>) returns (ok: bool)
      requires ValidDelivery(rows)
      modifies this
      ensures ok <==> failAt.None?
      ensures !ok ==> balances == old(balances) && daily == old(daily)
      ensures ok ==> balances == Replaced(old(balances), rows, fetchedAt)
      ensures ok ==> daily == Snapshot(Dropped(old(daily), today, ProvidersOf(rows), balances), today, balances)
    {
      hide Replaced, Dropped, Snapshot;
      var before, beforeDaily := balances, daily;
      if failAt == Some(0) { return false; }
      var count, keyClash := ReplaceBalances(rows, fetchedAt);
      if failAt != Some(1) {
        var removed := DropUnreportedFromDay(today, ProvidersOf(rows));
        if failAt != Some(2) {
          var written := SnapshotDaily(today);
          if failAt.None? { return true; }
        }
      }
      balances, daily := before, beforeDaily;
      ok := false;
    }

    method SnapshotBalancesDaily(today: Day, fails: bool) returns (ok: bool)
      modifies this`daily
      ensures ok <==> !fails
      ensures daily == if ok then Snapshot(old(daily), today, balances) else old(daily)
    {
      var before := daily;
      var written := SnapshotDaily(today);
      if fails { daily := before; }
      ok := !fails;
    }
  }

  // While inserting, the next account id is never taken: its provider's rows
  // are gone and no earlier row of the delivery has it.
  lemma RowIsNew(start: Balances, rows: seq<BalanceRow>, fetchedAt: Stamp, n: nat)
    requires ValidDelivery(rows) && n < |rows|
    ensures var kept, id := Keeping(start, ProvidersOf(rows)), rows[n].accountId;
      && id !in kept + RowMap(rows[..n], fetchedAt)
      && (kept + RowMap(rows[..n], fetchedAt))[id := StoredRow(rows[n], fetchedAt)] == kept + RowMap(rows[..n + 1], fetchedAt)
  {
    hide Cents.IsAmount, StoredRow, ProviderOf;
    assert ProviderOf(rows[n].accountId) in ProvidersOf(rows);
    RowMapKeys(rows[..n], fetchedAt);
    assert rows[..n + 1][..n] == rows[..n];
  }

  lemma ValidFront(rows: seq<BalanceRow>, n: nat)
    requires ValidDelivery(rows) && n <= |rows|
    ensures ValidDelivery(rows[..n])
  {
  }

  lemma SizeAfter(daily: History, day: Day, provider: string, balances: Balances)
    ensures var gone := ReplacedAway(daily, day, provider, balances);
      |daily - gone| == |daily| - |gone|
  {
    var gone := ReplacedAway(daily, day, provider, balances);
    assert (daily - gone).Keys == daily.Keys - gone;
    assert |(daily - gone).Keys| == |daily - gone| && |daily.Keys| == |daily|;
  }

  // Every delivered row is stored under its own account with its own columns,
  // its value in cents, and the delivery's fetch time.
  lemma DeliveredIsStored(balances: Balances, rows: seq<BalanceRow>, fetchedAt: Stamp, i: nat)
    requires ValidDelivery(rows) && i < |rows|
    ensures var row, after := rows[i], Replaced(balances, rows, fetchedAt);
      && row.accountId in after
      && var stored := after[row.accountId];
      && stored.accountName == row.accountName && stored.source == row.source && stored.fetchedAt == fetchedAt
      && stored.reconciledThrough == row.reconciledThrough && stored.figure.entityId == row.entityId
      && stored.figure.category == row.category && stored.figure.cents == Cents.ToCents(row.value)
      && stored.figure.asOf == row.asOf && stored.figure.currency == row.currency
  {
    RowMapValue(rows, fetchedAt, i);
    hide RowMap, Cents.ToCents, Cents.IsAmount, ProviderOf, ProvidersOf;
  }
}
