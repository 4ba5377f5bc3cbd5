// The per-user chat limiter: a sliding-window quota and one question in flight.
//
// The specification is a plain log of every question ever granted, with a
// "released" and a "refunded" mark on each entry. It never prunes, sweeps or
// deletes. ChatLimiter keeps pruned deques, a slot table and a periodic sweep;
// its contracts say that none of that can be seen from outside.
module QuestionLog {

  const MINUTE_SECONDS := 60.0
  const HOUR_SECONDS := 3600.0
  const ABANDONED_AFTER_SECONDS := 300.0
  const IN_FLIGHT_RETRY_SECONDS := 5
  const SWEEP_INTERVAL_SECONDS := 60.0

  type Key = string

  datatype Limits = Limits(perMinute: int, perHour: int) {
    predicate Valid() {
      1 <= perMinute <= perHour
    }
  }

  datatype Reason = InFlight | PerMinute | PerHour

  datatype Decision = Granted | Refused(reason: Reason, retryAfter: int)

  // ------------------------------------------------------------------
  // Stamps in a window
  // ------------------------------------------------------------------

  ghost predicate Sorted(s: seq<real>) {
    forall i, j :: 0 <= i < j < |s| ==> s[i] <= s[j]
  }

  ghost predicate AtMost(s: seq<real>, now: real) {
    forall i :: 0 <= i < |s| ==> s[i] <= now
  }

  // The stamps later than cut, in order.
  function Recent(s: seq<real>, cut: real): (r: seq<real>) {
    if s == [] then [] else
    if s[0] > cut then [s[0]] + Recent(s[1..], cut) else Recent(s[1..], cut)
  }

  lemma Associate(a: seq<real>, b: seq<real>, c: seq<real>)
    ensures (a + b) + c == a + (b + c)
  {
  }

  lemma RecentStep(s: seq<real>, cut: real)
    requires s != []
    ensures Recent(s, cut) == (if s[0] > cut then [s[0]] else []) + Recent(s[1..], cut)
  {
  }

  lemma {:induction false} RecentAppend(s: seq<real>, t: seq<real>, cut: real)
    ensures Recent(s + t, cut) == Recent(s, cut) + Recent(t, cut)
  {
    if s == [] {
      assert s + t == t && Recent(s, cut) == [];
    } else {
      hide Recent;
      RecentAppend(s[1..], t, cut);
      assert (s + t)[0] == s[0] && (s + t)[1..] == s[1..] + t;
      RecentStep(s + t, cut);
      RecentStep(s, cut);
      Associate(if s[0] > cut then [s[0]] else [], Recent(s[1..], cut), Recent(t, cut));
    }
  }

  lemma {:induction false} RecentTwice(s: seq<real>, early: real, late: real)
    requires early <= late
    ensures Recent(Recent(s, early), late) == Recent(s, late)
  {
    if s != [] {
      RecentTwice(s[1..], early, late);
      if s[0] > early {
        assert Recent(s, early)[1..] == Recent(s[1..], early);
      }
    }
  }

  lemma {:induction false} RecentAll(s: seq<real>, cut: real)
    requires forall i :: 0 <= i < |s| ==> s[i] > cut
    ensures Recent(s, cut) == s
  {
    if s != [] { RecentAll(s[1..], cut); }
  }

  // On an ordered log the recent stamps are a suffix, cut where the code cuts.
  lemma {:induction false} RecentIsSuffix(s: seq<real>, cut: real)
    requires Sorted(s)
    ensures |Recent(s, cut)| <= |s| && Recent(s, cut) == s[|s| - |Recent(s, cut)|..]
    ensures forall i :: 0 <= i < |s| - |Recent(s, cut)| ==> s[i] <= cut
    ensures forall i :: |s| - |Recent(s, cut)| <= i < |s| ==> s[i] > cut
  {
    if s == [] {
    } else if s[0] > cut {
      RecentAll(s, cut);
    } else {
      RecentIsSuffix(s[1..], cut);
      var n := |Recent(s[1..], cut)|;
      assert s[1..][|s| - 1 - n..] == s[|s| - n..];
      assert forall i :: 0 < i < |s| ==> s[i] == s[1..][i - 1];
    }
  }

  // At least n stamps are recent exactly when the n-th from the end is.
  lemma RecentCount(s: seq<real>, cut: real, n: int)
    requires Sorted(s) && n >= 1
    ensures |Recent(s, cut)| >= n <==> |s| >= n && s[|s| - n] > cut
    ensures |Recent(s, cut)| >= n ==> Recent(s, cut)[|Recent(s, cut)| - n] == s[|s| - n]
  {
    RecentIsSuffix(s, cut);
    var r := Recent(s, cut);
    if |r| >= n {
      assert r[|r| - n] == s[|s| - n];
    }
  }

  // ------------------------------------------------------------------
  // The specification: a log that is never pruned
  // ------------------------------------------------------------------

  datatype Entry = Entry(key: Key, stamp: real, released: bool, refunded: bool)

  ghost predicate Ordered(log: seq<Entry>, now: real) {
    && (forall i, j :: 0 <= i < j < |log| ==> log[i].stamp <= log[j].stamp)
    && (forall i :: 0 <= i < |log| ==> log[i].stamp <= now)
  }

  // Every counted question of one user: granted and not refunded.
  ghost function Stamps(log: seq<Entry>, key: Key): seq<real> {
    if log == [] then [] else
    var rest := Stamps(log[..|log| - 1], key);
    var e := log[|log| - 1];
    if e.key == key && !e.refunded then rest + [e.stamp] else rest
  }

  ghost predicate Holds(e: Entry, key: Key, now: real) {
    e.key == key && !e.released && now - e.stamp < ABANDONED_AFTER_SECONDS
  }

  ghost predicate Busy(log: seq<Entry>, key: Key, now: real) {
    exists i :: 0 <= i < |log| && Holds(log[i], key, now)
  }

  function Ceil(x: real): int { -((-x).Floor) }

  function WaitFor(recent: seq<real>, limit: int, window: real, now: real): real
    requires limit >= 1
  {
    if |recent| < limit then 0.0 else recent[|recent| - limit] + window - now
  }

  function QuotaWaits(stamps: seq<real>, now: real, limits: Limits): (real, real)
    requires limits.Valid()
  {
    (WaitFor(Recent(stamps, now - MINUTE_SECONDS), limits.perMinute, MINUTE_SECONDS, now),
     WaitFor(Recent(stamps, now - HOUR_SECONDS), limits.perHour, HOUR_SECONDS, now))
  }

  function OverQuota(waits: (real, real)): Decision {
    var (minute, hour) := waits;
    if minute <= 0.0 && hour <= 0.0 then Granted else
    var longest := if hour >= minute then hour else minute;
    Refused(if hour >= minute then PerHour else PerMinute, if Ceil(longest) < 1 then 1 else Ceil(longest))
  }

  ghost function Decide(log: seq<Entry>, key: Key, now: real, limits: Limits): Decision
    requires limits.Valid()
  {
    if Busy(log, key, now) then Refused(InFlight, IN_FLIGHT_RETRY_SECONDS)
    else OverQuota(QuotaWaits(Stamps(log, key), now, limits))
  }

  // ------------------------------------------------------------------
  // Facts about the log
  // ------------------------------------------------------------------

  lemma {:induction false} StampsOrdered(log: seq<Entry>, key: Key, now: real)
    requires Ordered(log, now)
    ensures Sorted(Stamps(log, key)) && AtMost(Stamps(log, key), now)
  {
    if log != [] {
      var last := log[|log| - 1];
      StampsOrdered(log[..|log| - 1], key, last.stamp);
    }
  }

  lemma StampsAppend(log: seq<Entry>, e: Entry, key: Key)
    ensures Stamps(log + [e], key)
         == Stamps(log, key) + (if e.key == key && !e.refunded then [e.stamp] else [])
  {
    assert (log + [e])[..|log|] == log;
  }

  lemma {:induction false} StampsRelease(log: seq<Entry>, i: nat, key: Key)
    requires i < |log|
    ensures Stamps(log[i := log[i].(released := true)], key) == Stamps(log, key)
  {
    var after := log[i := log[i].(released := true)];
    if i < |log| - 1 {
      StampsRelease(log[..|log| - 1], i, key);
      assert after[..|log| - 1] == log[..|log| - 1][i := log[i].(released := true)];
    } else {
      assert after[..|log| - 1] == log[..|log| - 1];
    }
  }

  // Removing the first stamp equal to x, as a deque removes by value.
  function Without(s: seq<real>, x: real): seq<real> {
    if s == [] then [] else if s[0] == x then s[1..] else [s[0]] + Without(s[1..], x)
  }

  lemma WithoutStep(s: seq<real>, x: real)
    requires s != []
    ensures Without(s, x) == if s[0] == x then s[1..] else [s[0]] + Without(s[1..], x)
  {
  }

  lemma {:induction false} WithoutAppend(s: seq<real>, t: seq<real>, x: real)
    ensures Without(s + t, x) == if x in s then Without(s, x) + t else s + Without(t, x)
  {
    if s == [] {
      assert s + t == t;
    } else {
      hide Without;
      var first, rest := [s[0]], s[1..];
      assert s == first + rest && (s + t)[1..] == rest + t && (s + t)[0] == s[0];
      WithoutStep(s + t, x);
      WithoutStep(s, x);
      if s[0] != x {
        WithoutAppend(rest, t, x);
        assert x in s <==> x in rest;
        Associate(first, Without(rest, x), t);
        Associate(first, rest, Without(t, x));
      }
    }
  }

  lemma {:induction false} WithoutSplits(s: seq<real>, x: real) returns (i: nat)
    requires x in s
    ensures i < |s| && s[i] == x && Without(s, x) == s[..i] + s[i + 1..]
  {
    if s[0] == x {
      i := 0;
    } else {
      var k := WithoutSplits(s[1..], x);
      i := k + 1;
      assert s[..i] == [s[0]] + s[1..][..k] && s[i + 1..] == s[1..][k + 1..];
    }
  }

  lemma {:induction false} WithoutAbsent(s: seq<real>, x: real)
    requires x !in s
    ensures Without(s, x) == s
  {
    if s != [] { WithoutAbsent(s[1..], x); }
  }

  lemma WithoutKeepsOrder(s: seq<real>, x: real, now: real)
    requires Sorted(s) && AtMost(s, now)
    ensures Sorted(Without(s, x)) && AtMost(Without(s, x), now)
  {
    if x in s {
      var i := WithoutSplits(s, x);
      var w := Without(s, x);
      assert forall k :: 0 <= k < |w| ==> w[k] == if k < i then s[k] else s[k + 1];
    } else {
      WithoutAbsent(s, x);
    }
  }

  lemma {:induction false} RecentWithout(s: seq<real>, x: real, cut: real)
    ensures Recent(Without(s, x), cut) == if x > cut then Without(Recent(s, cut), x) else Recent(s, cut)
  {
    if s != [] && s[0] != x {
      RecentWithout(s[1..], x, cut);
      assert Without(s, x)[1..] == Without(s[1..], x);
      if s[0] > cut { assert Recent(s, cut)[1..] == Recent(s[1..], cut); }
    } else if s != [] && x > cut {
      assert Recent(s, cut)[1..] == Recent(s[1..], cut);
    }
  }

  lemma {:induction false} RemovingLastOfEqualRun(s: seq<real>, x: real)
    requires Sorted(s) && x in s && AtMost(s, x)
    ensures Without(s, x) == s[..|s| - 1]
  {
    if s[0] == x {
      assert forall i :: 0 <= i < |s| ==> s[i] == x;
      assert s[1..] == s[..|s| - 1];
    } else {
      assert x in s[1..];
      RemovingLastOfEqualRun(s[1..], x);
      assert s[..|s| - 1] == [s[0]] + s[1..][..|s| - 2];
    }
  }

  // Marking one entry refunded removes one stamp of that value: two tickets of
  // one user may carry the same stamp, and which one goes does not matter.
  lemma {:induction false} StampsRefund(log: seq<Entry>, i: nat, key: Key, now: real)
    requires i < |log| && Ordered(log, now) && !log[i].refunded
    ensures Stamps(log[i := log[i].(refunded := true)], key)
         == if log[i].key == key then Without(Stamps(log, key), log[i].stamp) else Stamps(log, key)
    ensures log[i].key == key ==> log[i].stamp in Stamps(log, key)
  {
    hide Stamps, Without;
    var n := |log| - 1;
    var front, last := log[..n], log[n];
    var refunded := log[i].(refunded := true);
    assert log == front + [last];
    StampsAppend(front, last, key);
    if i < n {
      StampsRefund(front, i, key, now);
      assert log[i := refunded] == front[i := refunded] + [last];
      StampsAppend(front[i := refunded], last, key);
      if log[i].key == key { RefundBefore(Stamps(front, key), last, key, log[i].stamp); }
    } else {
      assert log[i := refunded] == front + [refunded];
      StampsAppend(front, refunded, key);
      if log[i].key == key {
        StampsOrdered(log, key, last.stamp);
        RemovingLastOfEqualRun(Stamps(log, key), last.stamp);
        assert (Stamps(front, key) + [last.stamp])[..|Stamps(front, key)|] == Stamps(front, key);
      }
      assert Stamps(front, key) + [] == Stamps(front, key);
    }
  }

  lemma RefundBefore(stamps: seq<real>, last: Entry, key: Key, x: real)
    requires x in stamps
    ensures var more := if last.key == key && !last.refunded then [last.stamp] else [];
      Without(stamps + more, x) == Without(stamps, x) + more && x in stamps + more
  {
    hide Without;
    WithoutAppend(stamps, if last.key == key && !last.refunded then [last.stamp] else [], x);
  }

  // ------------------------------------------------------------------
  // What a refusal means
  // ------------------------------------------------------------------

  ghost predicate QuotaOpen(log: seq<Entry>, key: Key, t: real, limits: Limits) {
    && |Recent(Stamps(log, key), t - MINUTE_SECONDS)| < limits.perMinute
    && |Recent(Stamps(log, key), t - HOUR_SECONDS)| < limits.perHour
  }

  lemma WaitIsTimeToRoom(s: seq<real>, limit: int, window: real, now: real, t: real)
    requires Sorted(s) && AtMost(s, now) && limit >= 1 && now <= t && window > 0.0
    ensures var w := WaitFor(Recent(s, now - window), limit, window, now);
            && 0.0 <= w <= window
            && (w == 0.0 <==> |Recent(s, now - window)| < limit)
            && (|Recent(s, t - window)| < limit <==> t >= now + w)
  {
    RecentCount(s, now - window, limit);
    RecentCount(s, t - window, limit);
    hide Recent;
  }

  // A question is granted exactly when the slot is free and both counts have room.
  lemma GrantIffRoom(log: seq<Entry>, key: Key, now: real, limits: Limits)
    requires limits.Valid() && Ordered(log, now)
    ensures Decide(log, key, now, limits).Granted? <==> !Busy(log, key, now) && QuotaOpen(log, key, now, limits)
  {
    StampsOrdered(log, key, now);
    WaitIsTimeToRoom(Stamps(log, key), limits.perMinute, MINUTE_SECONDS, now, now);
    WaitIsTimeToRoom(Stamps(log, key), limits.perHour, HOUR_SECONDS, now, now);
  }

  ghost predicate MinuteFull(log: seq<Entry>, key: Key, t: real, limits: Limits) {
    |Recent(Stamps(log, key), t - MINUTE_SECONDS)| >= limits.perMinute
  }

  ghost predicate HourFull(log: seq<Entry>, key: Key, t: real, limits: Limits) {
    |Recent(Stamps(log, key), t - HOUR_SECONDS)| >= limits.perHour
  }

  // From now on the minute is never full while the hour has room: the hour is
  // the last window to open, ties included.
  ghost predicate HourOpensLast(log: seq<Entry>, key: Key, now: real, limits: Limits) {
    forall t: real :: now <= t && MinuteFull(log, key, t, limits) ==> HourFull(log, key, t, limits)
  }

  // A refusal names what is in the way: the question in flight, or else the
  // window that will be the last to have room.
  lemma RefusalNamesTheBlocker(log: seq<Entry>, key: Key, now: real, limits: Limits)
    requires limits.Valid() && Ordered(log, now) && Decide(log, key, now, limits).Refused?
    ensures var reason := Decide(log, key, now, limits).reason;
      && (reason == InFlight <==> Busy(log, key, now))
      && (reason == PerHour <==> !Busy(log, key, now) && HourOpensLast(log, key, now, limits))
      && (reason == PerMinute <==> !Busy(log, key, now) && !HourOpensLast(log, key, now, limits))
  {
    var (minute, hour) := QuotaWaits(Stamps(log, key), now, limits);
    WhenFull(log, key, now, now, limits);
    hide WaitFor, Busy, MinuteFull, HourFull;
    forall t: real | now <= t
      ensures (MinuteFull(log, key, t, limits) <==> t < now + minute) && (HourFull(log, key, t, limits) <==> t < now + hour)
    {
      WhenFull(log, key, now, t, limits);
    }
    if hour < minute { assert MinuteFull(log, key, now + hour, limits) && !HourFull(log, key, now + hour, limits); }
  }

  lemma WhenFull(log: seq<Entry>, key: Key, now: real, t: real, limits: Limits)
    requires limits.Valid() && Ordered(log, now) && now <= t
    ensures var (minute, hour) := QuotaWaits(Stamps(log, key), now, limits);
      && minute >= 0.0 && (MinuteFull(log, key, t, limits) <==> t < now + minute)
      && hour >= 0.0 && (HourFull(log, key, t, limits) <==> t < now + hour)
  {
    StampsOrdered(log, key, now);
    hide Recent, WaitFor, Stamps;
    WaitIsTimeToRoom(Stamps(log, key), limits.perMinute, MINUTE_SECONDS, now, t);
    WaitIsTimeToRoom(Stamps(log, key), limits.perHour, HOUR_SECONDS, now, t);
  }

  // With the slot free and nothing else happening, every attempt before
  // now + wait is refused and every attempt from then on is granted. Nothing
  // here says the limits are those the log was built with.
  lemma QuotaWaitIsExact(log: seq<Entry>, key: Key, now: real, limits: Limits) returns (wait: real)
    requires limits.Valid() && Ordered(log, now) && !Busy(log, key, now)
    requires Decide(log, key, now, limits).Refused?
    ensures 0.0 < wait <= HOUR_SECONDS
    ensures forall t :: now <= t < now + wait ==> Decide(log, key, t, limits).Refused?
    ensures forall t :: now + wait <= t ==> Decide(log, key, t, limits).Granted?
    ensures Decide(log, key, now, limits).retryAfter == Ceil(wait)
    ensures 1 <= Ceil(wait) <= 3600 && wait <= Ceil(wait) as real < wait + 1.0
  {
    var s := Stamps(log, key);
    StampsOrdered(log, key, now);
    var (minute, hour) := QuotaWaits(s, now, limits);
    wait := if hour >= minute then hour else minute;
    WaitIsTimeToRoom(s, limits.perMinute, MINUTE_SECONDS, now, now);
    WaitIsTimeToRoom(s, limits.perHour, HOUR_SECONDS, now, now);
    forall t | now <= t ensures Decide(log, key, t, limits).Granted? <==> t >= now + wait {
      WaitIsTimeToRoom(s, limits.perMinute, MINUTE_SECONDS, now, t);
      WaitIsTimeToRoom(s, limits.perHour, HOUR_SECONDS, now, t);
      GrantIffRoom(log, key, t, limits);
      assert !Busy(log, key, t) by {
        forall i | 0 <= i < |log| ensures !Holds(log[i], key, t) {
          assert !Holds(log[i], key, now);
        }
      }
    }
  }
}
