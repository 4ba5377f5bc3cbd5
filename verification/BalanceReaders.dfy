// The readers of the balance tables. Each page adds up the same accounts in its
// own way; the theorems say when their figures are the same number.
module BalanceReaders {
  import opened Texts
  import opened Ledger
  import opened LedgerRuns
  import Sets
  import Cents

  type Table = map<string, Figure>

  datatype Group = Group(total: int, accounts: nat)

  datatype Entity = Entity(name: string, kind: string)

  // SUM(value_cents) over the rows of a table.
  ghost function Sum(t: Table): int {
    if t == map[] then 0 else
    var id :| id in t;
    t[id].cents + Sum(t - {id})
  }

  function Usd(t: Table): Table {
    map id | id in t && t[id].currency == "USD" :: t[id]
  }

  function Where(t: Table, key: Figure -> Option<string>, k: Option<string>): Table {
    map id | id in t && key(t[id]) == k :: t[id]
  }

  // SELECT key, SUM(value_cents), COUNT(*) ... GROUP BY key
  ghost function GroupBy(t: Table, key: Figure -> Option<string>): map<Option<string>, Group> {
    map k | k in (set id | id in t :: key(t[id])) :: Group(Sum(Where(t, key, k)), |Where(t, key, k)|)
  }

  ghost function AddUp(groups: map<Option<string>, Group>): Group {
    if groups == map[] then Group(0, 0) else
    var k :| k in groups;
    var rest := AddUp(groups - {k});
    Group(groups[k].total + rest.total, groups[k].accounts + rest.accounts)
  }

  // ------------------------------------------------------------------
  // Sums do not depend on order or grouping
  // ------------------------------------------------------------------

  lemma {:induction false} SumRemove(t: Table, id: string)
    requires id in t
    ensures Sum(t) == t[id].cents + Sum(t - {id})
  {
    var first :| first in t && Sum(t) == t[first].cents + Sum(t - {first});
    if first != id {
      SumRemove(t - {first}, id);
      SumRemove(t - {id}, first);
      assert t - {first} - {id} == t - {id} - {first};
    }
  }

  lemma {:induction false} SumSplit(t: Table, part: set<string>)
    requires part <= t.Keys
    ensures Sum(t) == Sum(map id | id in part :: t[id]) + Sum(t - part)
  {
    if part == {} {
      assert t - part == t;
    } else {
      var id :| id in part;
      var chosen := map x | x in part :: t[x];
      SumRemove(t, id);
      SumRemove(chosen, id);
      SumSplit(t - {id}, part - {id});
      assert chosen - {id} == map x | x in part - {id} :: (t - {id})[x];
      assert t - {id} - (part - {id}) == t - part;
    }
  }

  lemma {:induction false} AddUpRemove(groups: map<Option<string>, Group>, k: Option<string>)
    requires k in groups
    ensures AddUp(groups) == Group(groups[k].total + AddUp(groups - {k}).total, groups[k].accounts + AddUp(groups - {k}).accounts)
  {
    var first :| first in groups
      && AddUp(groups) == Group(groups[first].total + AddUp(groups - {first}).total, groups[first].accounts + AddUp(groups - {first}).accounts);
    if first != k {
      AddUpRemove(groups - {first}, k);
      AddUpRemove(groups - {k}, first);
      assert groups - {first} - {k} == groups - {k} - {first};
    }
  }

  // Any grouping adds up to the whole: every account is in exactly one group.
  lemma {:induction false} GroupsAddUp(t: Table, key: Figure -> Option<string>)
    ensures AddUp(GroupBy(t, key)) == Group(Sum(t), |t|)
    decreases |t|
  {
    if t == map[] {
      assert GroupBy(t, key) == map[];
    } else {
      var id :| id in t;
      var mine := Where(t, key, key(t[id]));
      assert id in mine;
      GroupPart(t, key, key(t[id]));
      hide GroupBy, Sum, AddUp;
      SizeSplit(t, mine.Keys);
      GroupsAddUp(t - mine.Keys, key);
      GroupsWithout(t, key, key(t[id]));
      AddUpRemove(GroupBy(t, key), key(t[id]));
    }
  }

  lemma GroupPart(t: Table, key: Figure -> Option<string>, k: Option<string>)
    ensures Sum(t) == Sum(Where(t, key, k)) + Sum(t - Where(t, key, k).Keys)
    ensures (exists id :: id in t && key(t[id]) == k) ==>
              k in GroupBy(t, key) && GroupBy(t, key)[k] == Group(Sum(Where(t, key, k)), |Where(t, key, k)|)
  {
    var mine := Where(t, key, k);
    assert mine == map x | x in mine.Keys :: t[x];
    SumSplit(t, mine.Keys);
  }

  lemma SizeSplit(t: Table, part: set<string>)
    requires part <= t.Keys
    ensures |t - part| == |t| - |part|
  {
    assert (t - part).Keys == t.Keys - part && |(t - part).Keys| == |t - part| && |t.Keys| == |t|;
  }

  lemma GroupsWithout(t: Table, key: Figure -> Option<string>, k: Option<string>)
    ensures GroupBy(t - Where(t, key, k).Keys, key) == GroupBy(t, key) - {k}
  {
    hide Sum;
    var rest := t - Where(t, key, k).Keys;
    forall j | j != k ensures Where(rest, key, j) == Where(t, key, j) {}
    var a, b := GroupBy(rest, key), GroupBy(t, key) - {k};
    forall j ensures j in a <==> j in b {
      if j in b {
        var id :| id in t && key(t[id]) == j;
        assert id in rest;
      }
    }
  }

  // ------------------------------------------------------------------
  // The readers
  // ------------------------------------------------------------------

  function CategoryKey(): Figure -> Option<string> {
    (f: Figure) => Some(f.category)
  }

  ghost function ByCategory(balances: Balances): map<Option<string>, Group> {
    GroupBy(Usd(Figures(balances)), CategoryKey())
  }

  // An account whose entity is not cached, or is cached without a name, is
  // grouped under no name at all.
  function EntityKey(entities: map<string, Entity>): Figure -> Option<string> {
    (f: Figure) => if f.entityId in entities && entities[f.entityId].name != "" then Some(f.entityId) else None
  }

  ghost function ByEntity(balances: Balances, entities: map<string, Entity>): map<Option<string>, Group> {
    GroupBy(Usd(Figures(balances)), EntityKey(entities))
  }

  ghost function Headline(balances: Balances): Option<int> {
    if Usd(Figures(balances)) == map[] then None else Some(Sum(Usd(Figures(balances))))
  }

  function DaysOf(daily: History): set<Day> {
    set k | k in daily :: k.0
  }

  ghost function DailyTotals(daily: History, days: nat, today: Day): map<Day, int> {
    map d | d in DaysOf(daily) && today - (days - 1) <= d <= today && Usd(OnDay(daily, d)) != map[] :: Sum(Usd(OnDay(daily, d)))
  }

  predicate HasUsd(daily: History, day: Day) {
    exists k :: k in daily && k.0 == day && daily[k].currency == "USD"
  }

  // SELECT MAX(date) FROM balances_daily WHERE currency = 'USD'
  ghost predicate LatestUsdDay(daily: History, day: Day) {
    HasUsd(daily, day) && forall d :: HasUsd(daily, d) ==> d <= day
  }

  // Chat's overall total: the latest day with USD history, category by
  // category; only without any such day, the stored accounts.
  ghost function ChatOverall(daily: History, balances: Balances): Option<int> {
    if exists d :: LatestUsdDay(daily, d) then
      var day :| LatestUsdDay(daily, day);
      Some(AddUp(GroupBy(Usd(OnDay(daily, day)), CategoryKey())).total)
    else Headline(balances)
  }

  // ------------------------------------------------------------------
  // Agreement
  // ------------------------------------------------------------------

  // The stored accounts give one total, however they are grouped, and every
  // group's account count adds up to the number of USD accounts.
  lemma GroupingsAgree(balances: Balances, entities: map<string, Entity>)
    ensures AddUp(ByCategory(balances)) == AddUp(ByEntity(balances, entities))
    ensures AddUp(ByCategory(balances)).accounts == |Usd(Figures(balances))|
    ensures Usd(Figures(balances)) != map[] ==> Headline(balances) == Some(AddUp(ByCategory(balances)).total)
  {
    GroupsAddUp(Usd(Figures(balances)), CategoryKey());
    GroupsAddUp(Usd(Figures(balances)), EntityKey(entities));
  }

  // A category's group is the stored dollar accounts of that category.
  lemma CategoryGroupIs(balances: Balances, category: string)
    ensures var mine := map id | id in balances && balances[id].figure.currency == "USD"
                               && balances[id].figure.category == category :: balances[id].figure;
      && (Some(category) in ByCategory(balances) <==> mine != map[])
      && (mine != map[] ==> ByCategory(balances)[Some(category)] == Group(Sum(mine), |mine|))
    ensures None !in ByCategory(balances)
  {
    var mine := map id | id in balances && balances[id].figure.currency == "USD"
                       && balances[id].figure.category == category :: balances[id].figure;
    var usd := Usd(Figures(balances));
    assert Where(usd, CategoryKey(), Some(category)) == mine;
    GroupIs(usd, CategoryKey(), Some(category));
  }

  function Owned(balances: Balances, entity: string): Table {
    map id | id in balances && balances[id].figure.currency == "USD" && balances[id].figure.entityId == entity ::
      balances[id].figure
  }

  // An entity's group is the stored dollar accounts it owns, if it is cached
  // under a name.
  lemma EntityGroupIs(balances: Balances, entities: map<string, Entity>, entity: string)
    ensures var mine, named := Owned(balances, entity), entity in entities && entities[entity].name != "";
      && (Some(entity) in ByEntity(balances, entities) <==> named && mine != map[])
      && (named && mine != map[] ==> ByEntity(balances, entities)[Some(entity)] == Group(Sum(mine), |mine|))
  {
    GroupIs(Usd(Figures(balances)), EntityKey(entities), Some(entity));
    WhereEntity(balances, entities, entity);
    hide Sum, GroupBy, Where, Owned, Usd, Figures, EntityKey;
  }

  lemma WhereEntity(balances: Balances, entities: map<string, Entity>, entity: string)
    ensures Where(Usd(Figures(balances)), EntityKey(entities), Some(entity))
         == if entity in entities && entities[entity].name != "" then Owned(balances, entity) else map[]
  {
    var key, usd := EntityKey(entities), Usd(Figures(balances));
    forall id | id in usd
      ensures key(usd[id]) == Some(entity) <==> entity in entities && entities[entity].name != "" && usd[id].entityId == entity
    {
    }
  }

  // The dollar accounts of all others are one group without a name.
  lemma UnknownGroupIs(balances: Balances, entities: map<string, Entity>)
    ensures var unknown := map id | id in balances && balances[id].figure.currency == "USD"
        && (balances[id].figure.entityId !in entities || entities[balances[id].figure.entityId].name == "") :: balances[id].figure;
      && (None in ByEntity(balances, entities) <==> unknown != map[])
      && (unknown != map[] ==> ByEntity(balances, entities)[None] == Group(Sum(unknown), |unknown|))
  {
    var usd, key := Usd(Figures(balances)), EntityKey(entities);
    var unknown := map id | id in balances && balances[id].figure.currency == "USD"
      && (balances[id].figure.entityId !in entities || entities[balances[id].figure.entityId].name == "") :: balances[id].figure;
    assert Where(usd, key, None) == unknown;
    GroupIs(usd, key, None);
    hide Sum, GroupBy, Where;
  }

  lemma GroupIs(t: Table, key: Figure -> Option<string>, k: Option<string>)
    ensures k in GroupBy(t, key) <==> Where(t, key, k) != map[]
    ensures k in GroupBy(t, key) ==> GroupBy(t, key)[k] == Group(Sum(Where(t, key, k)), |Where(t, key, k)|)
  {
    hide Sum;
    if k in GroupBy(t, key) {
      var id :| id in t && key(t[id]) == k;
      assert id in Where(t, key, k);
    }
    if Where(t, key, k) != map[] {
      var id :| id in Where(t, key, k);
      assert id in t && key(t[id]) == k;
    }
  }

  // The last written day of a run.
  ghost predicate LastDay(writes: seq<Write>, day: Day) {
    Written(writes, day) && forall i :: 0 <= i < |writes| && writes[i].ok ==> writes[i].day <= day
  }

  lemma UsdOnDay(daily: History, day: Day)
    ensures HasUsd(daily, day) <==> Usd(OnDay(daily, day)) != map[]
  {
    if HasUsd(daily, day) {
      var k :| k in daily && k.0 == day && daily[k].currency == "USD";
      assert k.1 in Usd(OnDay(daily, day));
    }
    if Usd(OnDay(daily, day)) != map[] {
      var id :| id in Usd(OnDay(daily, day));
      assert (day, id) in daily;
    }
  }

  lemma {:induction false} HistoryOnlyOfWrittenDays(writes: seq<Write>, k: (Day, string))
    requires Valid(writes) && k in After(writes).daily
    ensures Written(writes, k.0)
  {
    var n := |writes| - 1;
    var before, w := writes[..n], writes[n];
    hide Replaced;
    if k in After(before).daily {
      HistoryOnlyOfWrittenDays(before, k);
      var i :| 0 <= i < n && before[i].ok && before[i].day == k.0;
      assert writes[i] == before[i];
    } else {
      assert w.ok && w.day == k.0;
    }
  }

  lemma LastDayIsToday(writes: seq<Write>, day: Day)
    requires Valid(writes) && InDayOrder(writes) && LastDay(writes, day)
    ensures OnDay(After(writes).daily, day) == Figures(After(writes).balances)
    ensures Usd(Figures(After(writes).balances)) != map[] <==> LatestUsdDay(After(writes).daily, day)
  {
    var daily := After(writes).daily;
    HistoryIsFaithful(writes, day);
    AsOfLatest(writes, day);
    UsdOnDay(daily, day);
    forall d | HasUsd(daily, d) ensures d <= day {
      var k :| k in daily && k.0 == d;
      HistoryOnlyOfWrittenDays(writes, k);
    }
  }

  // While a USD account is stored, after every successful write of a run in day
  // order all readers show the same number.
  lemma AllTotalsAgree(writes: seq<Write>, entities: map<string, Entity>, day: Day, days: nat, today: Day)
    requires Valid(writes) && InDayOrder(writes) && LastDay(writes, day)
    requires Usd(Figures(After(writes).balances)) != map[]
    requires today - (days - 1) <= day <= today
    ensures var s := After(writes);
      var total := AddUp(ByCategory(s.balances)).total;
      && AddUp(ByEntity(s.balances, entities)).total == total
      && Headline(s.balances) == Some(total)
      && day in DailyTotals(s.daily, days, today) && DailyTotals(s.daily, days, today)[day] == total
      && ChatOverall(s.daily, s.balances) == Some(total)
  {
    var s := After(writes);
    LastDayIsToday(writes, day);
    GroupingsAgree(s.balances, entities);
    ByCategoryOf(s.balances);
    hide *;
    TrendPoint(s.daily, day, days, today);
    ChatIsLastDay(s.daily, s.balances, day);
  }

  lemma ByCategoryOf(balances: Balances)
    ensures AddUp(ByCategory(balances)) == Group(Sum(Usd(Figures(balances))), |Usd(Figures(balances))|)
  {
    GroupsAddUp(Usd(Figures(balances)), CategoryKey());
  }

  lemma TrendPoint(daily: History, day: Day, days: nat, today: Day)
    requires LatestUsdDay(daily, day) && today - (days - 1) <= day <= today
    ensures day in DailyTotals(daily, days, today)
    ensures DailyTotals(daily, days, today)[day] == Sum(Usd(OnDay(daily, day)))
  {
    var k :| k in daily && k.0 == day && daily[k].currency == "USD";
    UsdOnDay(daily, day);
    hide OnDay, Sum;
  }

  lemma ChatIsLastDay(daily: History, balances: Balances, day: Day)
    requires LatestUsdDay(daily, day)
    ensures ChatOverall(daily, balances) == Some(Sum(Usd(OnDay(daily, day))))
  {
    GroupsAddUp(Usd(OnDay(daily, day)), CategoryKey());
    assert forall d :: LatestUsdDay(daily, d) ==> d == day;
  }

  lemma {:induction false} LatestExists(days: set<Day>, some: Day) returns (day: Day)
    requires some in days
    ensures day in days && forall d :: d in days ==> d <= day
    decreases days
  {
    if d :| d in days && d > some {
      day := LatestExists(days - {some}, d);
      assert forall e :: e in days ==> e == some || e in days - {some};
    } else {
      day := some;
    }
  }

  // Chat and the headline agree exactly when a USD account is stored or the
  // history never had one: once the last USD account is gone, the headline is
  // empty while chat still states the total of an older day.
  lemma ChatAgreesIff(writes: seq<Write>, day: Day)
    requires Valid(writes) && InDayOrder(writes) && LastDay(writes, day)
    ensures var s := After(writes);
      ChatOverall(s.daily, s.balances) == Headline(s.balances) <==>
        Usd(Figures(s.balances)) != map[] || !exists k :: k in s.daily && s.daily[k].currency == "USD"
  {
    var s := After(writes);
    if Usd(Figures(s.balances)) != map[] {
      AllTotalsAgree(writes, map[], day, 1, day);
    } else if k :| k in s.daily && s.daily[k].currency == "USD" {
      var usdDays := set j | j in s.daily && s.daily[j].currency == "USD" :: j.0;
      assert k.0 in usdDays;
      var latest := LatestExists(usdDays, k.0);
      assert forall d :: HasUsd(s.daily, d) <==> d in usdDays;
      assert LatestUsdDay(s.daily, latest);
      ChatIsLastDay(s.daily, s.balances, latest);
    } else {
      assert forall d :: !HasUsd(s.daily, d);
    }
  }

  // ------------------------------------------------------------------
  // Bounds
  // ------------------------------------------------------------------

  lemma {:induction false} SumBound(t: Table, most: nat)
    requires forall id :: id in t ==> Cents.Abs(t[id].cents) <= most
    ensures Cents.Abs(Sum(t)) <= |t| * most
    decreases |t|
  {
    if t != map[] {
      var id :| id in t;
      SumRemove(t, id);
      SizeSplit(t, {id});
      hide Sum;
      SumBound(t - {id}, most);
      OneMoreTimes(|t|, most);
    }
  }

  lemma OneMoreTimes(n: nat, most: nat)
    requires n >= 1
    ensures n * most == (n - 1) * most + most
  {
  }

  const MOST_CENTS: nat := 600_000_000_000_000_000

  // A table within the row and amount bounds.
  ghost predicate Bounded(t: Table) {
    |t| <= 3 * MAX_DELIVERY_ROWS && forall id :: id in t ==> Cents.Abs(t[id].cents) <= 100_000_000_000_000
  }

  lemma PartBound(t: Table, part: Table)
    requires Bounded(t) && part.Keys <= t.Keys && forall id :: id in part ==> part[id] == t[id]
    ensures Cents.Abs(Sum(part)) <= MOST_CENTS < 0x7fff_ffff_ffff_ffff
  {
    Sets.SubsetSize(part.Keys, t.Keys);
    assert |part.Keys| == |part| && |t.Keys| == |t|;
    SumBound(part, 100_000_000_000_000);
  }

  lemma StoredIsBounded(writes: seq<Write>)
    requires Valid(writes)
    ensures Bounded(Figures(After(writes).balances))
  {
    TableBound(writes);
    FiguresSize(After(writes).balances);
  }

  // The total of a table and every total of a grouping of it.
  ghost predicate TotalsBounded(t: Table, key: Figure -> Option<string>) {
    Cents.Abs(Sum(t)) <= MOST_CENTS && forall k :: k in GroupBy(t, key) ==> Cents.Abs(GroupBy(t, key)[k].total) <= MOST_CENTS
  }

  lemma UsdTotalsBound(t: Table, key: Figure -> Option<string>)
    requires Bounded(t)
    ensures TotalsBounded(Usd(t), key) && MOST_CENTS < 0x7fff_ffff_ffff_ffff
  {
    var usd := Usd(t);
    forall k | k in GroupBy(usd, key) ensures GroupBy(usd, key)[k].total == Sum(Where(usd, key, k)) {
    }
    hide Sum, Bounded, GroupBy;
    PartBound(t, usd);
    forall k ensures Cents.Abs(Sum(Where(usd, key, k))) <= MOST_CENTS {
      PartBound(t, Where(usd, key, k));
    }
  }

  // Every reachable total of the stored balances fits a signed 64-bit
  // integer with room to spare: the headline, and each group of any grouping.
  lemma TotalBound(writes: seq<Write>, key: Figure -> Option<string>)
    requires Valid(writes)
    ensures TotalsBounded(Usd(Figures(After(writes).balances)), key) && MOST_CENTS < 0x7fff_ffff_ffff_ffff
  {
    StoredIsBounded(writes);
    UsdTotalsBound(Figures(After(writes).balances), key);
  }

  // A day's snapshot is some earlier state's balances, or the day is empty.
  lemma {:induction false} AsOfIsBounded(writes: seq<Write>, day: Day)
    requires Valid(writes)
    ensures Bounded(AsOf(writes, day))
  {
    if writes != [] {
      var last := writes[|writes| - 1];
      if last.ok && last.day == day {
        StoredIsBounded(writes);
      } else {
        AsOfIsBounded(writes[..|writes| - 1], day);
      }
    }
  }

  // The same holds of every day of the history, its rows included, for any
  // run whose last write of that day left nothing behind; without that,
  // replaced accounts pile up in the day.
  lemma DayBound(writes: seq<Write>, day: Day, key: Figure -> Option<string>)
    requires Valid(writes) && LeavesNothing(writes, day)
    ensures |OnDay(After(writes).daily, day)| <= 3 * MAX_DELIVERY_ROWS
    ensures TotalsBounded(Usd(OnDay(After(writes).daily, day)), key)
  {
    HistoryExactIff(writes, day);
    AsOfIsBounded(writes, day);
    UsdTotalsBound(OnDay(After(writes).daily, day), key);
  }

  // Day order is enough for every day at once.
  lemma EveryDayBound(writes: seq<Write>, day: Day, key: Figure -> Option<string>)
    requires Valid(writes) && InDayOrder(writes)
    ensures |OnDay(After(writes).daily, day)| <= 3 * MAX_DELIVERY_ROWS
    ensures TotalsBounded(Usd(OnDay(After(writes).daily, day)), key)
  {
    HistoryIsFaithful(writes, day);
    HistoryExactIff(writes, day);
    DayBound(writes, day, key);
  }

  lemma FiguresSize(balances: Balances)
    ensures |Figures(balances)| == |balances|
  {
    assert Figures(balances).Keys == balances.Keys;
    assert |Figures(balances).Keys| == |Figures(balances)| && |balances.Keys| == |balances|;
  }

  // The trend has a point for a day exactly when the day lies in the window
  // and holds a dollar account, and the point is the sum of those accounts.
  lemma TrendIs(daily: History, days: nat, today: Day, day: Day)
    ensures day in DailyTotals(daily, days, today) <==>
      today - days < day <= today && exists k :: k in daily && k.0 == day && daily[k].currency == "USD"
    ensures day in DailyTotals(daily, days, today) ==> DailyTotals(daily, days, today)[day] == Sum(Usd(OnDay(daily, day)))
  {
    UsdOnDay(daily, day);
    hide Sum;
    if HasUsd(daily, day) {
      var k :| k in daily && k.0 == day && daily[k].currency == "USD";
      assert day in DaysOf(daily);
    }
  }
}
