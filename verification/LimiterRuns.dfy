// Whole runs of the limiter: any sequence of acquire, release and refund calls
// by any users, under any limits, with a clock that never goes back.
module LimiterRuns {
  import opened QuestionLog
  import opened Limiter

  // A call names a ticket by its place among the tickets handed out so far; a
  // number that names none does nothing.
  datatype Call =
    | Ask(key: Key, limits: Limits, at: real)
    | Release(ticket: nat)
    | Refund(ticket: nat)

  ghost predicate Clocked(calls: seq<Call>, start: real) {
    && (forall i :: 0 <= i < |calls| && calls[i].Ask? ==> start <= calls[i].at && calls[i].limits.Valid())
    && (forall i, j :: 0 <= i < j < |calls| && calls[i].Ask? && calls[j].Ask? ==> calls[i].at <= calls[j].at)
  }

  ghost function LastClock(calls: seq<Call>, start: real): real {
    if calls == [] then start else
    var last := calls[|calls| - 1];
    if last.Ask? then last.at else LastClock(calls[..|calls| - 1], start)
  }

  ghost predicate AllValid(calls: seq<Call>) {
    forall i :: 0 <= i < |calls| && calls[i].Ask? ==> calls[i].limits.Valid()
  }

  // One call on the log. A grant appends an entry; nothing is ever removed.
  ghost function Next(log: seq<Entry>, call: Call): seq<Entry>
    requires call.Ask? ==> call.limits.Valid()
  {
    match call
    case Ask(key, limits, at) =>
      if Decide(log, key, at, limits).Granted? then log + [Entry(key, at, false, false)] else log
    case Release(i) => if i < |log| then log[i := log[i].(released := true)] else log
    case Refund(i) => if i < |log| then log[i := log[i].(refunded := true)] else log
  }

  ghost function LogAfter(calls: seq<Call>): seq<Entry>
    requires AllValid(calls)
  {
    if calls == [] then [] else Next(LogAfter(calls[..|calls| - 1]), calls[|calls| - 1])
  }

  // What a limiter that keeps the full log answers to each ask of a run.
  ghost function Answers(calls: seq<Call>): seq<Decision>
    requires AllValid(calls)
  {
    if calls == [] then [] else
    var before, last := calls[..|calls| - 1], calls[|calls| - 1];
    if last.Ask? then Answers(before) + [Decide(LogAfter(before), last.key, last.at, last.limits)] else Answers(before)
  }

  // What one call may add to the deques: to its own user's, up to its limit.
  ghost predicate GrownBy(asked': map<Key, seq<real>>, asked: map<Key, seq<real>>, call: Call) {
    forall key :: |StampsOf(asked', key)| <= |StampsOf(asked, key)|
      || (call.Ask? && call.key == key && |StampsOf(asked', key)| <= call.limits.perHour)
  }

  lemma GrownIsGrownBy(asked': map<Key, seq<real>>, asked: map<Key, seq<real>>, key: Key, most: int, call: Call)
    requires Grown(asked', asked, key, most)
    requires most <= 0 || (call.Ask? && call.key == key && call.limits.perHour == most)
    ensures GrownBy(asked', asked, call)
  {
    hide StampsOf;
  }

  // One call on the real limiter, with the tickets handed out so far.
  method Perform(limiter: ChatLimiter, tickets: seq<Ticket>, call: Call)
    returns (answer: seq<Decision>, after: seq<Ticket>)
    requires limiter.Valid() && limiter.issued == tickets
    requires call.Ask? ==> limiter.clock <= call.at && call.limits.Valid()
    modifies limiter, tickets
    ensures limiter.Valid() && limiter.issued == after
    ensures forall t :: t in after ==> t in tickets || fresh(t)
    ensures limiter.clock == if call.Ask? then call.at else old(limiter.clock)
    ensures limiter.log == Next(old(limiter.log), call)
    ensures GrownBy(limiter.asked, old(limiter.asked), call)
    ensures answer == if call.Ask? then [Decide(old(limiter.log), call.key, call.at, call.limits)] else []
  {
    hide Decide, Represents, Grown, GrownBy;
    answer, after := [], tickets;
    ghost var was := limiter.asked;
    NoLonger(was, was, {}, 0.0, "");
    GrownIsGrownBy(was, was, "", 0, call);
    match call {
      case Ask(key, limits, at) =>
        var decision, ticket := limiter.Acquire(key, limits, at);
        GrownIsGrownBy(limiter.asked, was, key, limits.perHour, call);
        if ticket != null { after := after + [ticket]; }
        answer := [decision];
      case Release(i) =>
        if i < |tickets| { limiter.Release(tickets[i]); }
      case Refund(i) =>
        if i < |tickets| {
          limiter.Refund(tickets[i]);
          GrownIsGrownBy(limiter.asked, was, tickets[i].key, 0, call);
        }
    }
  }

  // A user's deque never holds more stamps than the largest hourly limit any
  // of its calls used.
  ghost predicate Small(asked: map<Key, seq<real>>, calls: seq<Call>) {
    forall key, limits: Limits :: limits.Valid() && LimitsAtMost(calls, key, limits) ==>
      |StampsOf(asked, key)| <= limits.perHour
  }

  lemma NoneAsked()
    ensures Small(map[], [])
  {
  }

  lemma SmallStays(asked': map<Key, seq<real>>, asked: map<Key, seq<real>>, before: seq<Call>, call: Call)
    requires Small(asked, before) && GrownBy(asked', asked, call)
    ensures Small(asked', before + [call])
  {
    var calls := before + [call];
    assert calls[|before|] == call && forall i :: 0 <= i < |before| ==> calls[i] == before[i];
    hide StampsOf;
    forall key, limits: Limits | limits.Valid() && LimitsAtMost(calls, key, limits)
      ensures |StampsOf(asked', key)| <= limits.perHour
    {
      assert LimitsAtMost(before, key, limits);
    }
  }

  // Running the real limiter over any run gives the full log's answers, and
  // keeps its deques small.
  method Replay(calls: seq<Call>, start: real) returns (answers: seq<Decision>, limiter: ChatLimiter)
    requires Clocked(calls, start)
    ensures answers == Answers(calls)
    ensures fresh(limiter) && limiter.log == LogAfter(calls) && Small(limiter.asked, calls)
  {
    hide Decide, Next, Represents, Small, GrownBy;
    limiter := new ChatLimiter(start);
    assert Small(limiter.asked, []) by { NoneAsked(); }
    var tickets: seq<Ticket> := [];
    answers := [];
    for n := 0 to |calls|
      invariant fresh(limiter) && fresh(set t | t in tickets)
      invariant limiter.Valid() && limiter.issued == tickets
      invariant limiter.clock == LastClock(calls[..n], start)
      invariant limiter.log == LogAfter(calls[..n]) && Small(limiter.asked, calls[..n])
      invariant answers == Answers(calls[..n])
    {
      assert calls[..n + 1][..n] == calls[..n];
      assert calls[..n + 1] == calls[..n] + [calls[n]];
      LastClockBounds(calls[..n], start);
      ghost var was := limiter.asked;
      var answer;
      answer, tickets := Perform(limiter, tickets, calls[n]);
      SmallStays(limiter.asked, was, calls[..n], calls[n]);
      answers := answers + answer;
    }
    assert calls[..|calls|] == calls;
  }

  lemma {:induction false} LastClockBounds(calls: seq<Call>, start: real)
    ensures LastClock(calls, start) == start
         || exists i :: 0 <= i < |calls| && calls[i].Ask? && calls[i].at == LastClock(calls, start)
  {
    if calls != [] && !calls[|calls| - 1].Ask? {
      LastClockBounds(calls[..|calls| - 1], start);
    }
  }

  // ------------------------------------------------------------------
  // What every run keeps
  // ------------------------------------------------------------------

  // The stamps of the window that ends at t and reaches back less than width.
  ghost function InWindow(s: seq<real>, width: real, t: real): seq<real> {
    if s == [] then [] else
    var rest := InWindow(s[..|s| - 1], width, t);
    if t - width < s[|s| - 1] <= t then rest + [s[|s| - 1]] else rest
  }

  ghost predicate Capped(s: seq<real>, width: real, limit: int) {
    forall t: real :: |InWindow(s, width, t)| <= limit
  }

  lemma {:induction false} WindowWithinRecent(s: seq<real>, width: real, cut: real, t: real)
    requires cut <= t - width
    ensures |InWindow(s, width, t)| <= |Recent(s, cut)|
  {
    if s != [] {
      var front, last := s[..|s| - 1], s[|s| - 1];
      WindowWithinRecent(front, width, cut, t);
      RecentAppend(front, [last], cut);
      assert front + [last] == s;
    }
  }

  lemma CappedAfterGrant(s: seq<real>, now: real, width: real, limit: int)
    requires Capped(s, width, limit) && |Recent(s, now - width)| < limit
    ensures Capped(s + [now], width, limit)
  {
    forall t: real ensures |InWindow(s + [now], width, t)| <= limit {
      assert (s + [now])[..|s|] == s;
      assert |InWindow(s, width, t)| <= limit;
      if t >= now { WindowWithinRecent(s, width, now - width, t); }
    }
  }

  lemma {:induction false} WindowWithout(s: seq<real>, x: real, width: real, t: real)
    ensures |InWindow(Without(s, x), width, t)| <= |InWindow(s, width, t)|
  {
    if s != [] {
      var front, last := s[..|s| - 1], s[|s| - 1];
      WindowWithout(front, x, width, t);
      assert front + [last] == s;
      WithoutAppend(front, [last], x);
      if x in front || last != x {
        assert Without(s, x)[..|Without(s, x)| - 1] == if x in front then Without(front, x) else front;
      } else {
        assert Without(s, x) == front;
      }
    }
  }

  lemma {:induction false} LogOrdered(calls: seq<Call>, start: real)
    requires Clocked(calls, start)
    ensures Ordered(LogAfter(calls), LastClock(calls, start))
  {
    if calls != [] {
      var before := calls[..|calls| - 1];
      LogOrdered(before, start);
      LastClockBounds(before, start);
      hide Next, Ordered;
      NextOrdered(LogAfter(before), calls[|calls| - 1], LastClock(before, start));
    }
  }

  lemma NextOrdered(log: seq<Entry>, call: Call, clock: real)
    requires Ordered(log, clock) && (call.Ask? ==> clock <= call.at && call.limits.Valid())
    ensures Ordered(Next(log, call), if call.Ask? then call.at else clock)
  {
    hide Decide;
  }

  // None of the user's calls used larger limits than these; the largest it
  // used, or its fixed limits, for example.
  ghost predicate LimitsAtMost(calls: seq<Call>, key: Key, limits: Limits) {
    forall i :: 0 <= i < |calls| && calls[i].Ask? && calls[i].key == key ==>
      calls[i].limits.perMinute <= limits.perMinute && calls[i].limits.perHour <= limits.perHour
  }

  // No window of a minute or an hour, ending at any instant, ever holds more
  // of a user's counted questions than the largest limit its calls used.
  lemma {:induction false} QuotaHolds(calls: seq<Call>, start: real, key: Key, limits: Limits)
    requires Clocked(calls, start) && LimitsAtMost(calls, key, limits) && limits.Valid()
    ensures Capped(Stamps(LogAfter(calls), key), MINUTE_SECONDS, limits.perMinute)
    ensures Capped(Stamps(LogAfter(calls), key), HOUR_SECONDS, limits.perHour)
  {
    if calls != [] {
      var before, last := calls[..|calls| - 1], calls[|calls| - 1];
      QuotaHolds(before, start, key, limits);
      LogOrdered(before, start);
      QuotaKept(LogAfter(before), last, LastClock(before, start), key, limits) by { LastClockBounds(before, start); }
    }
  }

  lemma QuotaKept(log: seq<Entry>, call: Call, clock: real, key: Key, limits: Limits)
    requires Ordered(log, clock) && limits.Valid()
    requires call.Ask? ==> clock <= call.at && call.limits.Valid()
    requires call.Ask? && call.key == key ==>
      call.limits.perMinute <= limits.perMinute && call.limits.perHour <= limits.perHour
    requires Capped(Stamps(log, key), MINUTE_SECONDS, limits.perMinute)
    requires Capped(Stamps(log, key), HOUR_SECONDS, limits.perHour)
    ensures Capped(Stamps(Next(log, call), key), MINUTE_SECONDS, limits.perMinute)
    ensures Capped(Stamps(Next(log, call), key), HOUR_SECONDS, limits.perHour)
  {
    var s := Stamps(log, key);
    match call {
      case Ask(k, l, at) =>
        StampsAppend(log, Entry(k, at, false, false), key);
        GrantIffRoom(log, k, at, l);
        if k == key && Decide(log, k, at, l).Granted? {
          CappedAfterGrant(s, at, MINUTE_SECONDS, limits.perMinute);
          CappedAfterGrant(s, at, HOUR_SECONDS, limits.perHour);
        }
      case Release(i) =>
        if i < |log| { StampsRelease(log, i, key); }
      case Refund(i) =>
        if i < |log| && log[i].refunded {
          assert Next(log, call) == log;
        } else if i < |log| {
          StampsRefund(log, i, key, clock);
          forall t, width { WindowWithout(s, log[i].stamp, width, t); }
        }
    }
  }

  // A question unreleased when the same user's next one was granted was
  // already abandoned then.
  ghost predicate Spaced(log: seq<Entry>) {
    forall i, j :: 0 <= i < j < |log| && log[i].key == log[j].key && !log[i].released ==>
      log[j].stamp - log[i].stamp >= ABANDONED_AFTER_SECONDS
  }

  lemma {:induction false} RunSpaced(calls: seq<Call>, start: real)
    requires Clocked(calls, start)
    ensures Spaced(LogAfter(calls))
  {
    if calls != [] {
      var before, last := calls[..|calls| - 1], calls[|calls| - 1];
      RunSpaced(before, start);
      var log := LogAfter(before);
      if last.Ask? && Decide(log, last.key, last.at, last.limits).Granted? {
        assert forall i :: 0 <= i < |log| ==> !Holds(log[i], last.key, last.at);
      }
    }
  }

  // At any later instant at most one unreleased question younger than 300 s
  // exists per user, whenever the others were released.
  lemma OneInFlight(calls: seq<Call>, start: real, now: real, key: Key, i: nat, j: nat)
    requires Clocked(calls, start) && LastClock(calls, start) <= now
    requires i < |LogAfter(calls)| && j < |LogAfter(calls)|
    requires Holds(LogAfter(calls)[i], key, now) && Holds(LogAfter(calls)[j], key, now)
    ensures i == j
  {
    RunSpaced(calls, start);
    LogOrdered(calls, start);
  }
}
