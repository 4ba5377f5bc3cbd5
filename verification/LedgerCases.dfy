// Runs of the ledger on which the order of days, or the loss of the last US
// dollar account, makes the difference; the scheduler can commit each of them.
module LedgerCases {
  import opened Texts
  import opened Decimals
  import opened Timestamps
  import opened Ledger
  import opened LedgerRuns
  import opened BalanceReaders
  import Cents
  import LedgerDays

  const MIDNIGHT := Stamp(2026, 1, 1, 0, 0, 0, 0)
  const OWNER := "11111111-2222-4333-8444-555555555555"

  function OneUnit(accountId: string, currency: string): BalanceRow {
    BalanceRow(accountId, "Savings", OWNER, "Cash", "broker", "1", currency, 0, None)
  }

  function Deliver(accountId: string, currency: string, day: Day): Write {
    Delivery([OneUnit(accountId, currency)], MIDNIGHT, day, true)
  }

  lemma OneIsAnAmount()
    ensures Cents.IsAmount("1")
  {
    var s := "1";
    assert s[1..] == "" && Cents.PointAt("") == 0 && Cents.PointAt(s) == 1;
    assert s[..1] == s && AllDigits(s);
  }

  lemma PpAccount(letter: char)
    requires letter != ':'
    ensures ProviderOf(['p', 'p', ':', letter]) == "pp"
  {
    var s := ['p', 'p', ':', letter];
    assert s[2] == ':' && s[1..][1..][0] == ':';
    assert UpToColon(s[1..][1..]) == "";
    assert UpToColon(s[1..]) == "p";
    assert UpToColon(s) == "pp";
  }

  lemma DeliverIsValid(letter: char, currency: string, day: Day)
    requires letter != ':'
    ensures ValidDelivery(Deliver(['p', 'p', ':', letter], currency, day).rows) && MIDNIGHT.Valid()
    ensures AccountsOf(Deliver(['p', 'p', ':', letter], currency, day).rows) == {['p', 'p', ':', letter]}
    ensures ProvidersOf(Deliver(['p', 'p', ':', letter], currency, day).rows) == {"pp"}
  {
    OneIsAnAmount();
    PpAccount(letter);
    var id := ['p', 'p', ':', letter];
    var rows := [OneUnit(id, currency)];
    assert rows[0].accountId == id;
    assert id in AccountsOf(rows) && ProviderOf(rows[0].accountId) in ProvidersOf(rows);
  }

  const A := "pp:a"
  const B := "pp:b"

  // Account a on day 1, account b in its place on day 2, and a snapshot of
  // day 1 that commits last: day 1 still holds a.
  lemma HistoryGoesWrong()
    ensures var run := [Deliver(A, "USD", 1)] + [Deliver(B, "USD", 2)] + [DailySnapshot(1, true)];
      && LedgerDays.CanCommit(run) && Valid(run) && OnDay(LedgerRuns.After(run).daily, 1) != AsOf(run, 1)
      && !LeavesNothing(run, 1) && !InDayOrder(run)
  {
    DeliverIsValid('a', "USD", 1);
    DeliverIsValid('b', "USD", 2);
    assert ['p', 'p', ':', 'a'] == A && ['p', 'p', ':', 'b'] == B;
    PpAccount('a');
    var w0, w1 := Deliver(A, "USD", 1), Deliver(B, "USD", 2);
    assert [] + [w0] + [w1] + [DailySnapshot(1, true)] == [w0] + [w1] + [DailySnapshot(1, true)];
    hide ValidDelivery, ProviderOf, AccountsOf, ProvidersOf, After, OnDay, AsOf, Leftover, LeavesNothing;
    OutOfOrderKeepsGhost([], w0, w1, A);
    HistoryExactIff([w0] + [w1] + [DailySnapshot(1, true)], 1);
    OneSnapshotCanCommit(w0, w1);
  }

  lemma OneSnapshotCanCommit(w0: Write, w1: Write)
    requires LedgerDays.Sound(w0) && LedgerDays.Sound(w1) && w0.Delivery? && w1.Delivery?
    ensures LedgerDays.CanCommit([w0] + [w1] + [DailySnapshot(1, true)])
  {
    hide LedgerDays.CanCommit;
    LedgerDays.CanCommitIff([w0] + [w1] + [DailySnapshot(1, true)]);
  }

  lemma UsdDelivered(w: Write)
    requires Valid([w]) && w == Deliver(A, "USD", 1) && ValidDelivery(w.rows)
    requires AccountsOf(w.rows) == {A}
    ensures (1, A) in LedgerRuns.After([w]).daily && LedgerRuns.After([w]).daily[(1, A)].currency == "USD"
  {
    var s := LedgerRuns.State(map[], map[]);
    assert [w][..0] == [] && LedgerRuns.After([]) == s;
    RowMapKeys(w.rows, MIDNIGHT);
    RowMapValue(w.rows, MIDNIGHT, 0);
    hide ValidDelivery, ProviderOf, AccountsOf, StoredRow, RowMap, Keeping;
    DayMember(s, w, A);
    assert w.rows[0].accountId == A && A in RowMap(w.rows, MIDNIGHT);
    DayMemberIsRow(LedgerRuns.After([w]).daily, 1, A);
    assert RowMap(w.rows, MIDNIGHT)[A].figure.currency == "USD" by { StoredCurrency(w.rows[0]); }
  }

  lemma DayMemberIsRow(daily: History, day: Day, id: string)
    ensures id in OnDay(daily, day) <==> (day, id) in daily
    ensures id in OnDay(daily, day) ==> OnDay(daily, day)[id] == daily[(day, id)]
  {
  }

  lemma StoredCurrency(row: BalanceRow)
    requires Cents.IsAmount(row.value)
    ensures StoredRow(row, MIDNIGHT).figure.currency == row.currency
  {
  }

  // A dollar account on day 1, replaced by a euro account on day 2: the
  // headline is empty and chat still states day 1.
  lemma ChatGoesStale()
    ensures var run := [Deliver(A, "USD", 1)] + [Deliver(B, "EUR", 2)];
      && LedgerDays.CanCommit(run) && Valid(run) && InDayOrder(run) && LastDay(run, 2)
      && Headline(LedgerRuns.After(run).balances) == None
      && ChatOverall(LedgerRuns.After(run).daily, LedgerRuns.After(run).balances).Some?
  {
    DeliverIsValid('a', "USD", 1);
    DeliverIsValid('b', "EUR", 2);
    PpAccount('a');
    assert ['p', 'p', ':', 'a'] == A && ['p', 'p', ':', 'b'] == B;
    var w0, w1 := Deliver(A, "USD", 1), Deliver(B, "EUR", 2);
    hide ValidDelivery, ProviderOf, AccountsOf, ProvidersOf, LedgerRuns.After, Headline, ChatOverall, InDayOrder, LastDay;
    hide LedgerDays.CanCommit;
    OneMore([], w0);
    OneMore([w0], w1);
    assert [] + [w0] == [w0];
    TwoInOrder(w0, w1);
    StoredOnlyA(w0);
    UsdDelivered(w0);
    StillInHistory(w0, w1);
    EurosOnly([w0], w1);
    NoHeadline(LedgerRuns.After([w0] + [w1]).balances);
    UsdInHistory([w0] + [w1], 2);
    TwoCanCommit(w0, w1);
  }

  lemma TwoInOrder(w0: Write, w1: Write)
    requires w0.day == 1 && w1.day == 2 && w0.ok && w1.ok
    ensures InDayOrder([w0] + [w1]) && LastDay([w0] + [w1], 2)
  {
    var run := [w0] + [w1];
    assert run[1].ok && run[1].day == 2;
  }

  lemma StoredOnlyA(w: Write)
    requires Valid([w]) && w == Deliver(A, "USD", 1) && ValidDelivery(w.rows) && AccountsOf(w.rows) == {A}
    ensures LedgerRuns.After([w]).balances.Keys == {A}
  {
    assert [w][..0] == [] && LedgerRuns.After([]) == LedgerRuns.State(map[], map[]);
    RowMapKeys(w.rows, MIDNIGHT);
    hide ValidDelivery, AccountsOf, StoredRow;
  }

  lemma StillInHistory(w0: Write, w1: Write)
    requires Valid([w0]) && Valid([w0] + [w1]) && w1.Delivery? && ValidDelivery(w1.rows) && w1.day == 2
    requires LedgerRuns.After([w0] + [w1]) == Step(LedgerRuns.After([w0]), w1)
    requires (1, A) in LedgerRuns.After([w0]).daily && LedgerRuns.After([w0]).daily[(1, A)].currency == "USD"
    ensures var daily := LedgerRuns.After([w0] + [w1]).daily; (1, A) in daily && daily[(1, A)].currency == "USD"
  {
    hide ValidDelivery, LedgerRuns.After, Step;
    OtherDaysUntouched(LedgerRuns.After([w0]), w1, 1);
    DayMemberIsRow(LedgerRuns.After([w0]).daily, 1, A);
    DayMemberIsRow(LedgerRuns.After([w0] + [w1]).daily, 1, A);
  }

  lemma NoHeadline(balances: Balances)
    requires Usd(Figures(balances)) == map[]
    ensures Headline(balances) == None
  {
  }

  lemma UsdInHistory(run: seq<Write>, day: Day)
    requires Valid(run) && InDayOrder(run) && LastDay(run, day) && Usd(Figures(LedgerRuns.After(run).balances)) == map[]
    requires exists k :: k in LedgerRuns.After(run).daily && LedgerRuns.After(run).daily[k].currency == "USD"
    ensures ChatOverall(LedgerRuns.After(run).daily, LedgerRuns.After(run).balances).Some?
  {
    hide LedgerRuns.After, InDayOrder, LastDay, Figures, Usd, ChatOverall;
    NoHeadline(LedgerRuns.After(run).balances);
    ChatAgreesIff(run, day);
  }

  lemma EurosOnly(before: seq<Write>, w: Write)
    requires Valid(before) && w == Deliver(B, "EUR", 2) && ValidDelivery(w.rows)
    requires forall id :: id in LedgerRuns.After(before).balances ==> ProviderOf(id) == "pp"
    requires ProvidersOf(w.rows) == {"pp"}
    ensures Usd(Figures(Step(LedgerRuns.After(before), w).balances)) == map[]
  {
  }

  // ------------------------------------------------------------------
  // A day that grows without bound
  // ------------------------------------------------------------------

  const MOST := "999999999999"
  const MOST_IN_CENTS := 99_999_999_999_900

  function AccountId(m: nat): string {
    "pp:" + Text(m)
  }

  function Large(m: nat): BalanceRow {
    BalanceRow(AccountId(m), "Savings", OWNER, "Cash", "broker", MOST, "USD", 0, None)
  }

  function LargeFigure(): Figure {
    Figure(OWNER, "Cash", MOST_IN_CENTS, 0, "USD")
  }

  function Ids(n: nat): set<string> {
    set m: nat | m < n :: AccountId(m)
  }

  lemma MostIsAnAmount()
    ensures Cents.IsAmount(MOST) && Cents.ToCents(MOST) == MOST_IN_CENTS
  {
    var c := MOST_IN_CENTS;
    NinesValue();
    Cents.NoPoint(MOST);
    assert MOST[..12] == MOST;
    assert Pow10(4) == 10000 by { assert Pow10(2) == 100 && Pow10(1) == 10; }
    hide Pow10, Value, AllDigits;
    assert Cents.TenThousandths(MOST) == 100 * c;
    Cents.RoundsHalfToEven(100 * c, c);
  }

  lemma {:induction false} Nines(s: string)
    requires forall i :: 0 <= i < |s| ==> s[i] == '9'
    ensures AllDigits(s) && Value(s) == Pow10(|s|) - 1
  {
    if s != "" { Nines(s[..|s| - 1]); }
  }

  lemma NinesValue()
    ensures AllDigits(MOST) && Value(MOST) == 999_999_999_999
  {
    Nines(MOST);
    assert Pow10(12) == 1_000_000_000_000;
  }

  lemma AccountIsPp(m: nat)
    ensures ProviderOf(AccountId(m)) == "pp"
  {
    var s := AccountId(m);
    assert s[2] == ':' && s[1..][1..][0] == ':' && s[1..][0] == 'p';
    assert UpToColon(s[1..][1..]) == "";
    assert UpToColon(s[1..]) == "p";
    assert UpToColon(s) == "pp";
  }

  lemma IdsDiffer(m: nat, k: nat)
    requires AccountId(m) == AccountId(k)
    ensures m == k
  {
    assert AccountId(m)[3..] == Text(m) && AccountId(k)[3..] == Text(k);
  }

  lemma {:induction false} IdsCount(n: nat)
    ensures |Ids(n)| == n
  {
    if n == 0 {
      assert Ids(n) == {};
    } else {
      IdsCount(n - 1);
      IdsSnoc(n - 1);
      if AccountId(n - 1) in Ids(n - 1) {
        var m: nat :| m < n - 1 && AccountId(m) == AccountId(n - 1);
        IdsDiffer(m, n - 1);
      }
    }
  }

  lemma IdsSnoc(n: nat)
    ensures Ids(n + 1) == Ids(n) + {AccountId(n)}
  {
    hide AccountId;
  }

  // Empty deliveries that read the date on day 1 are under way together when
  // day 2 comes. Each new account is delivered on day 2 in place of the last
  // one, and one of the late deliveries commits.
  function PileUp(n: nat): seq<Write> {
    if n == 0 then [] else PileUp(n - 1) + [LargeDelivery(n - 1)] + [Late()]
  }

  // A delivery without rows is accepted; it replaces nothing and copies what
  // is stored to its day.
  function Late(): Write {
    Delivery([], MIDNIGHT, 1, true)
  }

  lemma LateIsSnapshot(s: LedgerRuns.State)
    ensures ValidDelivery(Late().rows) && Late().fetchedAt.Valid()
    ensures Step(s, Late()) == Step(s, DailySnapshot(1, true))
  {
    assert ProvidersOf([]) == {};
    assert Keeping(s.balances, {}) == s.balances;
    assert Replaced(s.balances, [], MIDNIGHT) == s.balances;
    assert Dropped(s.daily, 1, {}, s.balances) == s.daily;
  }

  function LargeDelivery(m: nat): Write {
    Delivery([Large(m)], MIDNIGHT, 2, true)
  }

  lemma LargeIsValid(m: nat)
    ensures ValidDelivery(LargeDelivery(m).rows) && ProvidersOf(LargeDelivery(m).rows) == {"pp"}
    ensures RowMap(LargeDelivery(m).rows, MIDNIGHT).Keys == {AccountId(m)}
    ensures RowMap(LargeDelivery(m).rows, MIDNIGHT)[AccountId(m)].figure == LargeFigure()
    ensures ProviderOf(AccountId(m)) == "pp"
  {
    var rows := LargeDelivery(m).rows;
    MostIsAnAmount();
    AccountIsPp(m);
    hide AccountId, ProviderOf, Cents.IsAmount, Cents.ToCents;
    LargeRowMap(m);
    hide RowMap;
    assert ProviderOf(rows[0].accountId) in ProvidersOf(rows);
  }

  lemma LargeRowMap(m: nat)
    requires Cents.IsAmount(MOST) && Cents.ToCents(MOST) == MOST_IN_CENTS
    ensures RowMap(LargeDelivery(m).rows, MIDNIGHT).Keys == {AccountId(m)}
    ensures RowMap(LargeDelivery(m).rows, MIDNIGHT)[AccountId(m)].figure == LargeFigure()
  {
    hide AccountId, Cents.IsAmount, Cents.ToCents;
    assert LargeDelivery(m).rows[..0] == [];
    assert RowMap(LargeDelivery(m).rows, MIDNIGHT) == map[][AccountId(m) := StoredRow(Large(m), MIDNIGHT)];
  }

  // What is stored is one account; what day 1 holds is all of them.
  ghost predicate Piled(s: LedgerRuns.State, n: nat) {
    && (forall id :: id in s.balances ==> ProviderOf(id) == "pp")
    && OnDay(s.daily, 1).Keys == Ids(n)
    && (forall id :: id in OnDay(s.daily, 1) ==> OnDay(s.daily, 1)[id] == LargeFigure())
  }

  lemma {:induction false} PileUpIs(n: nat)
    ensures Valid(PileUp(n)) && Piled(LedgerRuns.After(PileUp(n)), n)
  {
    hide Piled, LedgerRuns.After, Step, Valid, LargeDelivery;
    if n == 0 {
      NothingPiled();
    } else {
      PileUpIs(n - 1);
      OneMorePair(PileUp(n - 1), n - 1);
    }
  }

  lemma OneMorePair(before: seq<Write>, n: nat)
    requires Valid(before) && Piled(LedgerRuns.After(before), n)
    ensures Valid(before + [LargeDelivery(n)] + [Late()])
    ensures Piled(LedgerRuns.After(before + [LargeDelivery(n)] + [Late()]), n + 1)
  {
    var w0 := LargeDelivery(n);
    LargeIsValid(n);
    assert w0.Delivery? && w0.fetchedAt.Valid();
    hide *;
    OneMore(before, w0);
    LateIsSnapshot(LedgerRuns.After(before + [w0]));
    OneMore(before + [w0], Late());
    OneMorePiled(LedgerRuns.After(before), n);
  }

  lemma NothingPiled()
    ensures Valid([]) && Piled(LedgerRuns.After([]), 0)
  {
    assert OnDay(map[], 1) == map[] && Ids(0) == {};
  }

  lemma OneMorePiled(s: LedgerRuns.State, n: nat)
    requires Piled(s, n) && ValidDelivery(LargeDelivery(n).rows)
    ensures Piled(Step(Step(s, LargeDelivery(n)), DailySnapshot(1, true)), n + 1)
  {
    var w0 := LargeDelivery(n);
    assert w0.day == 2;
    LargeStored(s, n);
    hide OnDay, Step, ValidDelivery, Ids, ProviderOf, AccountId, LargeFigure, LargeDelivery;
    OtherDaysUntouched(s, w0, 1);
    SnapshotPiles(Step(s, w0), n);
  }

  lemma SnapshotPiles(s: LedgerRuns.State, n: nat)
    requires OnDay(s.daily, 1).Keys == Ids(n)
    requires forall id :: id in OnDay(s.daily, 1) ==> OnDay(s.daily, 1)[id] == LargeFigure()
    requires s.balances.Keys == {AccountId(n)} && ProviderOf(AccountId(n)) == "pp"
    requires s.balances[AccountId(n)].figure == LargeFigure()
    ensures Piled(Step(s, DailySnapshot(1, true)), n + 1)
  {
    SnapshotAdds(s);
    IdsSnoc(n);
    hide OnDay, Step, Ids, ProviderOf, AccountId, LargeFigure;
  }

  lemma LargeStored(s: LedgerRuns.State, m: nat)
    requires ValidDelivery(LargeDelivery(m).rows)
    requires forall id :: id in s.balances ==> ProviderOf(id) == "pp"
    ensures ProviderOf(AccountId(m)) == "pp" && Step(s, LargeDelivery(m)).balances.Keys == {AccountId(m)}
    ensures Step(s, LargeDelivery(m)).balances[AccountId(m)].figure == LargeFigure()
  {
    LargeIsValid(m);
    hide ValidDelivery, RowMap, ProvidersOf, ProviderOf, LargeFigure, AccountId, Snapshot, Dropped;
    assert Keeping(s.balances, {"pp"}) == map[];
  }

  lemma SnapshotAdds(s: LedgerRuns.State)
    ensures Step(s, DailySnapshot(1, true)).balances == s.balances
    ensures OnDay(Step(s, DailySnapshot(1, true)).daily, 1) == OnDay(s.daily, 1) + Figures(s.balances)
  {
    SnapshotOnDay(s.daily, 1, s.balances);
    hide OnDay, Figures, Snapshot;
  }

  lemma SnapshotOnDay(daily: History, day: Day, balances: Balances)
    ensures OnDay(Snapshot(daily, day, balances), day) == OnDay(daily, day) + Figures(balances)
  {
    var after := OnDay(Snapshot(daily, day, balances), day);
    forall id
      ensures id in after <==> id in OnDay(daily, day) + Figures(balances)
      ensures id in after ==> after[id] == (OnDay(daily, day) + Figures(balances))[id]
    {
      SnapshotMember(daily, day, balances, id);
    }
    hide *;
  }

  lemma SnapshotMember(daily: History, day: Day, balances: Balances, id: string)
    ensures var after, all := OnDay(Snapshot(daily, day, balances), day), OnDay(daily, day) + Figures(balances);
      && (id in after <==> id in all)
      && (id in after ==> after[id] == all[id])
  {
    DayMemberIsRow(daily, day, id);
    DayMemberIsRow(Snapshot(daily, day, balances), day, id);
    hide OnDay;
  }

  lemma {:induction false} SameSum(t: map<string, Figure>, cents: int)
    requires forall id :: id in t ==> t[id].cents == cents
    ensures Sum(t) == |t| * cents
    decreases |t|
  {
    if t != map[] {
      var id :| id in t;
      SumRemove(t, id);
      SizeSplit(t, {id});
      hide Sum;
      SameSum(t - {id}, cents);
      OneMoreTimes(|t|, cents);
    }
  }

  lemma OneMoreTimes(n: int, cents: int)
    ensures n * cents == (n - 1) * cents + cents
  {
  }

  ghost predicate SoundDeliveries(run: seq<Write>) {
    forall i :: 0 <= i < |run| ==> LedgerDays.Sound(run[i]) && run[i].Delivery?
  }

  lemma OneMoreSound(run: seq<Write>, w: Write)
    requires SoundDeliveries(run) && LedgerDays.Sound(w) && w.Delivery?
    ensures SoundDeliveries(run + [w])
  {
    hide LedgerDays.Sound;
  }

  lemma {:induction false} PileUpIsSound(n: nat)
    ensures SoundDeliveries(PileUp(n))
  {
    if n > 0 {
      PileUpIsSound(n - 1);
      LargeIsValid(n - 1);
      LateIsSnapshot(LedgerRuns.State(map[], map[]));
      var front, w := PileUp(n - 1), LargeDelivery(n - 1);
      assert LedgerDays.Sound(w) && LedgerDays.Sound(Late()) && w.Delivery? && Late().Delivery?;
      assert PileUp(n) == front + [w] + [Late()];
      hide *;
      OneMoreSound(front, w);
      OneMoreSound(front + [w], Late());
    }
  }

  lemma DeliveriesCanCommit(run: seq<Write>)
    requires SoundDeliveries(run)
    ensures LedgerDays.CanCommit(run)
  {
    hide LedgerDays.CanCommit, LedgerDays.Sound;
    LedgerDays.CanCommitIff(run);
  }

  lemma TwoCanCommit(w0: Write, w1: Write)
    requires LedgerDays.Sound(w0) && LedgerDays.Sound(w1) && w0.Delivery? && w1.Delivery?
    ensures LedgerDays.CanCommit([w0] + [w1])
  {
    hide LedgerDays.CanCommit, LedgerDays.Sound;
    DeliveriesCanCommit([w0] + [w1]);
  }

  // Out of day order, no fixed bound on a history day holds: n deliveries of
  // one account, with n late ones, put n rows, and almost n trillion dollars,
  // on one day. The scheduler can commit them all in this order.
  lemma DayGrowsWithoutBound(n: nat)
    ensures LedgerDays.CanCommit(PileUp(n))
    ensures Valid(PileUp(n)) && |OnDay(LedgerRuns.After(PileUp(n)).daily, 1)| == n
    ensures Sum(Usd(OnDay(LedgerRuns.After(PileUp(n)).daily, 1))) == n * MOST_IN_CENTS
  {
    PileUpIs(n);
    var t := OnDay(LedgerRuns.After(PileUp(n)).daily, 1);
    IdsCount(n);
    hide LedgerRuns.After, OnDay, Sum, Ids, PileUp, LedgerDays.CanCommit, LedgerDays.Sound;
    PileUpIsSound(n);
    DeliveriesCanCommit(PileUp(n));
    assert |t.Keys| == |t|;
    AllUsd(t);
    SameSum(t, MOST_IN_CENTS);
  }

  lemma AllUsd(t: map<string, Figure>)
    requires forall id :: id in t ==> t[id] == LargeFigure()
    ensures Usd(t) == t && forall id :: id in t ==> t[id].cents == MOST_IN_CENTS
  {
  }
}
