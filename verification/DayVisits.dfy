// How large a history day can grow when writes commit in any order of days:
// one table of balances for each time the run comes to that day.
module DayVisits {
  import opened Sets
  import opened Texts
  import opened Ledger
  import opened LedgerRuns
  import opened BalanceReaders
  import Cents

  // The day of the last successful write.
  ghost function DayAtEnd(writes: seq<Write>): Option<Day> {
    if writes == [] then None else
    var last := writes[|writes| - 1];
    if last.ok then Some(last.day) else DayAtEnd(writes[..|writes| - 1])
  }

  // How often the run comes to this day, from another or at its start.
  ghost function Visits(writes: seq<Write>, day: Day): nat {
    if writes == [] then 0 else
    var before, last := writes[..|writes| - 1], writes[|writes| - 1];
    Visits(before, day) + if last.ok && last.day == day && DayAtEnd(before) != Some(day) then 1 else 0
  }

  // The accounts in the day's history that are not stored.
  ghost function Ghosts(s: State, day: Day): set<string> {
    OnDay(s.daily, day).Keys - s.balances.Keys
  }

  // A write of the day brings no ghost.
  lemma NoNewGhost(s: State, w: Write)
    requires w.Delivery? ==> ValidDelivery(w.rows)
    requires w.ok
    ensures Ghosts(Step(s, w), w.day) <= Ghosts(s, w.day)
  {
    hide Step, OnDay, ValidDelivery, ProviderOf, ProvidersOf;
    forall id | id in Ghosts(Step(s, w), w.day) ensures id in Ghosts(s, w.day) { DayMember(s, w, id); }
  }

  lemma GhostSizes(s: State, day: Day)
    requires |s.balances| <= 3 * MAX_DELIVERY_ROWS
    ensures |Ghosts(s, day)| <= |OnDay(s.daily, day)| <= |Ghosts(s, day)| + 3 * MAX_DELIVERY_ROWS
  {
    var rows, stored := OnDay(s.daily, day).Keys, s.balances.Keys;
    hide OnDay;
    SubsetSize(rows - stored, rows);
    SubsetSize(rows, (rows - stored) + stored);
    assert |rows| == |OnDay(s.daily, day)| && |stored| == |s.balances|;
    assert |(rows - stored) + stored| == |rows - stored| + |stored|;
  }

  predicate Within(rows: nat, ghosts: nat, visits: nat, here: bool) {
    && rows <= ROOM * visits
    && (here ==> visits > 0 && ghosts <= ROOM * (visits - 1))
  }

  const ROOM := 3 * MAX_DELIVERY_ROWS

  ghost predicate WithinVisits(writes: seq<Write>, day: Day)
    requires Valid(writes)
  {
    StateWithin(After(writes), day, Visits(writes, day), DayAtEnd(writes) == Some(day))
  }

  ghost predicate StateWithin(s: State, day: Day, visits: nat, here: bool) {
    Within(|OnDay(s.daily, day)|, |Ghosts(s, day)|, visits, here)
  }

  // A write of this day: at most the stored rows are new, and no ghost is.
  lemma WriteHere(rows: nat, ghosts: nat, visits: nat, here: bool, rows': nat, ghosts': nat)
    requires Within(rows, ghosts, visits, here) && ghosts' <= ghosts <= rows && rows' <= ghosts' + ROOM
    ensures Within(rows', ghosts', if here then visits else visits + 1, true)
  {
  }

  lemma {:induction false} RowsPerVisit(writes: seq<Write>, day: Day)
    requires Valid(writes)
    ensures WithinVisits(writes, day)
  {
    if writes == [] {
      assert OnDay(map[], day) == map[];
    } else {
      var before, w := writes[..|writes| - 1], writes[|writes| - 1];
      assert before + [w] == writes;
      hide After, OnDay, ValidDelivery, Ghosts, WithinVisits, Visits, DayAtEnd;
      RowsPerVisit(before, day);
      OneWrite(before, w, day);
    }
  }

  lemma VisitsSnoc(before: seq<Write>, w: Write, day: Day)
    ensures DayAtEnd(before + [w]) == if w.ok then Some(w.day) else DayAtEnd(before)
    ensures Visits(before + [w], day)
         == Visits(before, day) + if w.ok && w.day == day && DayAtEnd(before) != Some(day) then 1 else 0
  {
    assert (before + [w])[..|before|] == before;
  }

  lemma AfterSnoc(before: seq<Write>, w: Write)
    requires Valid(before) && Valid(before + [w])
    ensures w.Delivery? ==> ValidDelivery(w.rows)
    ensures After(before + [w]) == Step(After(before), w)
  {
    assert (before + [w])[..|before|] == before && (before + [w])[|before|] == w;
  }

  lemma OneWrite(before: seq<Write>, w: Write, day: Day)
    requires Valid(before) && Valid(before + [w]) && WithinVisits(before, day)
    ensures WithinVisits(before + [w], day)
  {
    hide Step, After, OnDay, ValidDelivery, Visits, DayAtEnd, Valid, StateWithin;
    AfterSnoc(before, w);
    VisitsSnoc(before, w, day);
    StoredFit(before);
    StoredFit(before + [w]);
    StepWithin(After(before), w, day, Visits(before, day), DayAtEnd(before) == Some(day));
  }

  lemma StoredFit(writes: seq<Write>)
    requires Valid(writes)
    ensures |After(writes).balances| <= ROOM
  {
    TableBound(writes);
  }

  lemma StepWithin(s: State, w: Write, day: Day, visits: nat, here: bool)
    requires (w.Delivery? ==> ValidDelivery(w.rows)) && StateWithin(s, day, visits, here)
    requires |s.balances| <= ROOM && |Step(s, w).balances| <= ROOM
    ensures var came := w.ok && w.day == day && !here;
      StateWithin(Step(s, w), day, if came then visits + 1 else visits, if w.ok then w.day == day else here)
  {
    if w.ok {
      hide Step, OnDay, ValidDelivery, Ghosts;
      if w.day == day { HereAfter(s, w, visits, here); } else { ElsewhereAfter(s, w, day, visits, here); }
    } else {
      hide OnDay, ValidDelivery, Ghosts, Within, StateWithin;
      assert Step(s, w) == s;
    }
  }

  lemma ElsewhereAfter(s: State, w: Write, day: Day, visits: nat, here: bool)
    requires (w.Delivery? ==> ValidDelivery(w.rows)) && StateWithin(s, day, visits, here) && w.day != day
    requires |s.balances| <= ROOM
    ensures StateWithin(Step(s, w), day, visits, false)
  {
    OtherDaysUntouched(s, w, day);
    hide Step, OnDay, ValidDelivery, Ghosts;
    GhostSizes(s, day);
  }

  lemma HereAfter(s: State, w: Write, visits: nat, here: bool)
    requires w.ok && (w.Delivery? ==> ValidDelivery(w.rows))
    requires Within(|OnDay(s.daily, w.day)|, |Ghosts(s, w.day)|, visits, here)
    requires |s.balances| <= ROOM && |Step(s, w).balances| <= ROOM
    ensures Within(|OnDay(Step(s, w).daily, w.day)|, |Ghosts(Step(s, w), w.day)|, if here then visits else visits + 1, true)
  {
    GhostSizes(s, w.day);
    GhostSizes(Step(s, w), w.day);
    NoNewGhost(s, w);
    hide Step, OnDay, Ghosts, ValidDelivery;
    SubsetSize(Ghosts(Step(s, w), w.day), Ghosts(s, w.day));
    WriteHere(|OnDay(s.daily, w.day)|, |Ghosts(s, w.day)|, visits, here,
              |OnDay(Step(s, w).daily, w.day)|, |Ghosts(Step(s, w), w.day)|);
  }

  // No row of the history is of more than 10^14 cents.
  lemma {:induction false} HistoryAmount(writes: seq<Write>, day: Day, id: string)
    requires Valid(writes) && id in OnDay(After(writes).daily, day)
    ensures Cents.Abs(OnDay(After(writes).daily, day)[id].cents) <= 100_000_000_000_000
  {
    if writes != [] {
      var before, w := writes[..|writes| - 1], writes[|writes| - 1];
      assert before + [w] == writes;
      AfterSnoc(before, w);
      TableBound(writes);
      hide After, OnDay, ValidDelivery, Step;
      RowComesFrom(After(before), w, day, id);
      if id in OnDay(After(before).daily, day) { HistoryAmount(before, day, id); }
    }
  }

  lemma RowComesFrom(s: State, w: Write, day: Day, id: string)
    requires (w.Delivery? ==> ValidDelivery(w.rows)) && id in OnDay(Step(s, w).daily, day)
    ensures var row := OnDay(Step(s, w).daily, day)[id];
      || (id in Step(s, w).balances && row == Step(s, w).balances[id].figure)
      || (id in OnDay(s.daily, day) && row == OnDay(s.daily, day)[id])
  {
    if !w.ok {
    } else if w.day != day {
      OtherDaysUntouched(s, w, day);
    } else if id !in Step(s, w).balances {
      DayMember(s, w, id);
      LeftoverStays(s, w, id);
    } else {
      DayMember(s, w, id);
    }
  }

  lemma LeftoverStays(s: State, w: Write, id: string)
    requires w.Delivery? ==> ValidDelivery(w.rows)
    requires w.ok && Leftover(s, w, id) && id !in Step(s, w).balances && id in OnDay(Step(s, w).daily, w.day)
    ensures OnDay(Step(s, w).daily, w.day)[id] == OnDay(s.daily, w.day)[id]
  {
    hide Replaced, ValidDelivery, ProviderOf, ProvidersOf;
  }

  // In any order of days, a history day holds at most 6000 rows and its total
  // is at most 6*10^17 cents for each time the run comes to that day.
  lemma BoundPerVisit(writes: seq<Write>, day: Day)
    requires Valid(writes)
    ensures |OnDay(After(writes).daily, day)| <= 3 * MAX_DELIVERY_ROWS * Visits(writes, day)
    ensures Cents.Abs(Sum(Usd(OnDay(After(writes).daily, day)))) <= MOST_CENTS * Visits(writes, day)
  {
    RowsPerVisit(writes, day);
    var t := OnDay(After(writes).daily, day);
    forall id | id in t ensures Cents.Abs(t[id].cents) <= 100_000_000_000_000 { HistoryAmount(writes, day, id); }
    hide After, OnDay, Sum, Visits, Usd, Cents.Abs, Valid;
    UsdBound(t);
    TimesRoom(|t|, Visits(writes, day));
  }

  lemma TimesRoom(rows: nat, visits: nat)
    requires rows <= ROOM * visits
    ensures rows * 100_000_000_000_000 <= MOST_CENTS * visits
  {
  }

  lemma UsdBound(t: Table)
    requires forall id :: id in t ==> Cents.Abs(t[id].cents) <= 100_000_000_000_000
    ensures Cents.Abs(Sum(Usd(t))) <= |t| * 100_000_000_000_000
  {
    SubsetSize(Usd(t).Keys, t.Keys);
    assert |Usd(t).Keys| == |Usd(t)| && |t.Keys| == |t|;
    SumBound(Usd(t), 100_000_000_000_000);
  }

  // Day order is one visit.
  lemma {:induction false} OneVisit(writes: seq<Write>, day: Day)
    requires InDayOrder(writes)
    ensures Visits(writes, day) <= 1
    ensures Visits(writes, day) == 1 ==> DayAtEnd(writes).Some? && DayAtEnd(writes).value >= day
    ensures DayAtEnd(writes).Some? ==> exists i :: 0 <= i < |writes| && writes[i].ok && writes[i].day == DayAtEnd(writes).value
  {
    if writes != [] {
      var before, w := writes[..|writes| - 1], writes[|writes| - 1];
      assert forall i :: 0 <= i < |before| ==> before[i] == writes[i];
      OneVisit(before, day);
      if DayAtEnd(before).Some? {
        var i :| 0 <= i < |before| && before[i].ok && before[i].day == DayAtEnd(before).value;
        assert writes[i].ok && writes[i].day == DayAtEnd(before).value;
      }
      if w.ok { assert writes[|writes| - 1].day == w.day; }
    }
  }
}
