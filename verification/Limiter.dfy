// ChatLimiter as the source runs it: pruned deques keyed by user, one slot per
// user, a sweep at most once a minute. Every method is proved against the
// never-pruned log of module QuestionLog.
module Limiter {
  import opened QuestionLog

  function StampsOf(asked: map<Key, seq<real>>, key: Key): seq<real> {
    if key in asked then asked[key] else []
  }

  // A deque stands for a user's full list of stamps when both show the same
  // stamps of the last hour.
  ghost predicate StandsFor(stamps: seq<real>, full: seq<real>, clock: real) {
    && Sorted(stamps) && AtMost(stamps, clock)
    && Recent(stamps, clock - HOUR_SECONDS) == Recent(full, clock - HOUR_SECONDS)
  }

  ghost predicate DequesStandFor(asked: map<Key, seq<real>>, log: seq<Entry>, clock: real) {
    forall key :: StandsFor(StampsOf(asked, key), Stamps(log, key), clock)
  }

  // Slots point at log entries: every young unreleased question has its
  // user's slot, and a slot holds an unreleased question of its user.
  ghost predicate SlotsStandFor(slots: map<Key, nat>, log: seq<Entry>, clock: real) {
    && (forall k :: k in slots ==> slots[k] < |log| && log[slots[k]].key == k && !log[slots[k]].released)
    && (forall i :: 0 <= i < |log| && Holds(log[i], log[i].key, clock) ==>
          (log[i].key in slots && slots[log[i].key] == i))
  }

  // The limiter's tables stand for the log.
  ghost predicate Represents(asked: map<Key, seq<real>>, slots: map<Key, nat>, log: seq<Entry>, clock: real) {
    Ordered(log, clock) && SlotsStandFor(slots, log, clock) && DequesStandFor(asked, log, clock)
  }

  lemma AfterTime(asked: map<Key, seq<real>>, slots: map<Key, nat>, log: seq<Entry>, clock: real, now: real)
    requires Represents(asked, slots, log, clock) && clock <= now
    ensures Represents(asked, slots, log, now)
  {
    hide Recent, Stamps, StampsOf;
    assert forall i :: 0 <= i < |log| && Holds(log[i], log[i].key, now) ==> Holds(log[i], log[i].key, clock);
    forall key ensures StandsFor(StampsOf(asked, key), Stamps(log, key), now) {
      StandsForLater(StampsOf(asked, key), Stamps(log, key), clock, now);
    }
  }

  lemma StandsForLater(stamps: seq<real>, full: seq<real>, clock: real, now: real)
    requires StandsFor(stamps, full, clock) && clock <= now
    ensures StandsFor(stamps, full, now)
  {
    hide Recent;
    RecentTwice(stamps, clock - HOUR_SECONDS, now - HOUR_SECONDS);
    RecentTwice(full, clock - HOUR_SECONDS, now - HOUR_SECONDS);
  }

  lemma PrunedStandsFor(stamps: seq<real>, full: seq<real>, clock: real)
    requires StandsFor(stamps, full, clock)
    ensures StandsFor(Recent(stamps, clock - HOUR_SECONDS), full, clock)
  {
    RecentTwice(stamps, clock - HOUR_SECONDS, clock - HOUR_SECONDS);
    RecentIsSuffix(stamps, clock - HOUR_SECONDS);
    var kept := Recent(stamps, clock - HOUR_SECONDS);
    assert forall i :: 0 <= i < |kept| ==> kept[i] == stamps[|stamps| - |kept| + i];
    hide Recent;
  }

  lemma AppendStandsFor(stamps: seq<real>, full: seq<real>, clock: real)
    requires StandsFor(stamps, full, clock)
    ensures StandsFor(stamps + [clock], full + [clock], clock)
  {
    RecentAppend(stamps, [clock], clock - HOUR_SECONDS);
    RecentAppend(full, [clock], clock - HOUR_SECONDS);
  }

  // A refund takes the stamp by value, and does nothing if it was pruned away.
  lemma RefundStandsFor(stamps: seq<real>, full: seq<real>, clock: real, x: real)
    requires StandsFor(stamps, full, clock) && x in full
    ensures StandsFor(Without(stamps, x), Without(full, x), clock)
  {
    WithoutKeepsOrder(stamps, x, clock);
    RecentWithout(stamps, x, clock - HOUR_SECONDS);
    RecentWithout(full, x, clock - HOUR_SECONDS);
  }

  // One deque changes; the others, and their users' entries, do not.
  lemma DequesUpdate(asked: map<Key, seq<real>>, asked': map<Key, seq<real>>,
                     log: seq<Entry>, log': seq<Entry>, clock: real, key: Key)
    requires DequesStandFor(asked, log, clock)
    requires StandsFor(StampsOf(asked', key), Stamps(log', key), clock)
    requires forall k :: k != key ==> StampsOf(asked', k) == StampsOf(asked, k) && Stamps(log', k) == Stamps(log, k)
    ensures DequesStandFor(asked', log', clock)
  {
    forall k ensures StandsFor(StampsOf(asked', k), Stamps(log', k), clock) {
      assert StandsFor(StampsOf(asked, k), Stamps(log, k), clock);
    }
  }

  lemma AfterPrune(asked: map<Key, seq<real>>, slots: map<Key, nat>, log: seq<Entry>, now: real, key: Key)
    requires Represents(asked, slots, log, now)
    ensures Sorted(StampsOf(asked, key))
    ensures Represents(asked[key := Recent(StampsOf(asked, key), now - HOUR_SECONDS)], slots, log, now)
  {
    assert StandsFor(StampsOf(asked, key), Stamps(log, key), now);
    PrunedStandsFor(StampsOf(asked, key), Stamps(log, key), now);
    DequesUpdate(asked, asked[key := Recent(StampsOf(asked, key), now - HOUR_SECONDS)], log, log, now, key);
  }

  // An empty deque and no deque are the same thing.
  lemma EmptyDeque(asked: map<Key, seq<real>>, slots: map<Key, nat>, log: seq<Entry>, now: real, key: Key)
    requires Represents(asked, slots, log, now) && StampsOf(asked, key) == []
    ensures Represents(asked - {key}, slots, log, now) && Represents(asked[key := []], slots, log, now)
  {
    assert StandsFor(StampsOf(asked, key), Stamps(log, key), now);
    DequesUpdate(asked, asked - {key}, log, log, now, key);
    DequesUpdate(asked, asked[key := []], log, log, now, key);
  }

  lemma AbandonedSlot(asked: map<Key, seq<real>>, slots: map<Key, nat>, log: seq<Entry>, now: real, key: Key)
    requires Represents(asked, slots, log, now) && key in slots
    ensures slots[key] < |log|
    ensures now - log[slots[key]].stamp >= ABANDONED_AFTER_SECONDS ==> Represents(asked, slots - {key}, log, now)
  {
    assert now - log[slots[key]].stamp >= ABANDONED_AFTER_SECONDS ==> !Holds(log[slots[key]], key, now);
  }

  lemma SlotDecides(asked: map<Key, seq<real>>, slots: map<Key, nat>, log: seq<Entry>, now: real, key: Key)
    requires Represents(asked, slots, log, now)
    ensures key in slots ==> slots[key] < |log|
    ensures Busy(log, key, now) <==> key in slots && now - log[slots[key]].stamp < ABANDONED_AFTER_SECONDS
  {
    if key in slots && now - log[slots[key]].stamp < ABANDONED_AFTER_SECONDS {
      assert Holds(log[slots[key]], key, now);
    }
  }

  lemma AfterRecord(asked: map<Key, seq<real>>, slots: map<Key, nat>, log: seq<Entry>, now: real, key: Key)
    requires Represents(asked, slots, log, now) && !Busy(log, key, now)
    ensures Represents(asked[key := StampsOf(asked, key) + [now]], slots[key := |log|],
                       log + [Entry(key, now, false, false)], now)
  {
    NewSlot(slots, log, now, key);
    NewStamp(asked, log, now, key);
  }

  lemma NewSlot(slots: map<Key, nat>, log: seq<Entry>, now: real, key: Key)
    requires SlotsStandFor(slots, log, now) && !Busy(log, key, now)
    ensures SlotsStandFor(slots[key := |log|], log + [Entry(key, now, false, false)], now)
  {
    var log', slots' := log + [Entry(key, now, false, false)], slots[key := |log|];
    forall i | 0 <= i < |log'| && Holds(log'[i], log'[i].key, now)
      ensures log'[i].key in slots' && slots'[log'[i].key] == i
    {
      if i < |log| {
        assert Holds(log[i], log[i].key, now);
      }
    }
  }

  lemma NewStamp(asked: map<Key, seq<real>>, log: seq<Entry>, now: real, key: Key)
    requires DequesStandFor(asked, log, now)
    ensures DequesStandFor(asked[key := StampsOf(asked, key) + [now]], log + [Entry(key, now, false, false)], now)
  {
    var e := Entry(key, now, false, false);
    assert StandsFor(StampsOf(asked, key), Stamps(log, key), now);
    AppendStandsFor(StampsOf(asked, key), Stamps(log, key), now);
    hide StandsFor;
    forall k { StampsAppend(log, e, k); }
    DequesUpdate(asked, asked[key := StampsOf(asked, key) + [now]], log, log + [e], now, key);
  }

  lemma AfterRelease(asked: map<Key, seq<real>>, slots: map<Key, nat>, log: seq<Entry>, now: real, i: nat)
    requires Represents(asked, slots, log, now) && i < |log|
    ensures var key, log' := log[i].key, log[i := log[i].(released := true)];
            Represents(asked, if key in slots && slots[key] == i then slots - {key} else slots, log', now)
  {
    var log' := log[i := log[i].(released := true)];
    forall k ensures StandsFor(StampsOf(asked, k), Stamps(log', k), now) {
      StampsRelease(log, i, k);
      assert StandsFor(StampsOf(asked, k), Stamps(log, k), now);
    }
    assert forall j :: 0 <= j < |log| && Holds(log'[j], log'[j].key, now) ==> Holds(log[j], log[j].key, now);
  }

  lemma AfterRefund(asked: map<Key, seq<real>>, slots: map<Key, nat>, log: seq<Entry>, now: real, i: nat)
    requires Represents(asked, slots, log, now) && i < |log| && !log[i].refunded
    ensures Represents(WithoutStamp(asked, log[i].key, log[i].stamp), slots, log[i := log[i].(refunded := true)], now)
  {
    var log' := log[i := log[i].(refunded := true)];
    RefundDeques(asked, log, now, i);
    hide DequesStandFor, WithoutStamp;
    assert forall j :: 0 <= j < |log| && Holds(log'[j], log'[j].key, now) ==> Holds(log[j], log[j].key, now);
  }

  function WithoutStamp(asked: map<Key, seq<real>>, key: Key, x: real): map<Key, seq<real>> {
    if key in asked && x in asked[key] then asked[key := Without(asked[key], x)] else asked
  }

  lemma RefundDeques(asked: map<Key, seq<real>>, log: seq<Entry>, now: real, i: nat)
    requires Ordered(log, now) && DequesStandFor(asked, log, now) && i < |log| && !log[i].refunded
    ensures DequesStandFor(WithoutStamp(asked, log[i].key, log[i].stamp), log[i := log[i].(refunded := true)], now)
  {
    var key, x, log' := log[i].key, log[i].stamp, log[i := log[i].(refunded := true)];
    forall k { StampsRefund(log, i, k, now); }
    assert StandsFor(StampsOf(asked, key), Stamps(log, key), now);
    RefundStandsFor(StampsOf(asked, key), Stamps(log, key), now, x);
    if x !in StampsOf(asked, key) { WithoutAbsent(StampsOf(asked, key), x); }
    hide StandsFor, Without, Stamps;
    DequesUpdate(asked, WithoutStamp(asked, key, x), log, log', now, key);
  }

  // A pruned deque gives the waits of the full list of stamps.
  lemma SameWaits(asked: map<Key, seq<real>>, slots: map<Key, nat>, log: seq<Entry>, now: real, key: Key, limits: Limits)
    requires Represents(asked, slots, log, now) && limits.Valid()
    ensures QuotaWaits(StampsOf(asked, key), now, limits) == QuotaWaits(Stamps(log, key), now, limits)
  {
    var stamps, full := StampsOf(asked, key), Stamps(log, key);
    assert StandsFor(stamps, full, now);
    RecentTwice(stamps, now - HOUR_SECONDS, now - MINUTE_SECONDS);
    RecentTwice(full, now - HOUR_SECONDS, now - MINUTE_SECONDS);
  }

  // No user's deque is longer than it was, but for this user's, which may
  // have grown to so many stamps.
  ghost predicate Grown(asked': map<Key, seq<real>>, asked: map<Key, seq<real>>, key: Key, most: int) {
    forall k :: |StampsOf(asked', k)| <= |StampsOf(asked, k)| || (k == key && |StampsOf(asked', k)| <= most)
  }

  lemma {:induction false} RecentIsShorter(s: seq<real>, cut: real)
    ensures |Recent(s, cut)| <= |s| && forall i :: 0 <= i < |Recent(s, cut)| ==> Recent(s, cut)[i] > cut
  {
    if s != [] {
      RecentStep(s, cut);
      RecentIsShorter(s[1..], cut);
    }
  }

  lemma SweptIsShorter(was: map<Key, seq<real>>, busy: set<Key>, now: real, key: Key)
    ensures Grown(SweptDeques(was, busy, now), was, key, 0)
  {
    hide Recent;
    forall k ensures |StampsOf(SweptDeques(was, busy, now), k)| <= |StampsOf(was, k)| {
      if k in was { RecentIsShorter(was[k], now - HOUR_SECONDS); }
    }
  }

  // A quota that is open has room for one more stamp.
  lemma OpenHasRoom(stamps: seq<real>, now: real, limits: Limits)
    requires limits.Valid() && OverQuota(QuotaWaits(stamps, now, limits)).Granted?
    ensures |Recent(stamps, now - HOUR_SECONDS)| < limits.perHour
  {
    var recent := Recent(stamps, now - HOUR_SECONDS);
    RecentIsShorter(stamps, now - HOUR_SECONDS);
    hide Recent;
    assert forall i :: 0 <= i < |recent| ==> recent[i] + HOUR_SECONDS - now > 0.0;
  }

  lemma WithoutIsShorter(asked: map<Key, seq<real>>, key: Key, x: real)
    ensures Grown(WithoutStamp(asked, key, x), asked, key, 0)
  {
    if key in asked { WithoutLength(asked[key], x); }
    hide Without;
  }

  lemma {:induction false} WithoutLength(s: seq<real>, x: real)
    ensures |Without(s, x)| <= |s|
  {
    if s != [] {
      WithoutStep(s, x);
      WithoutLength(s[1..], x);
    }
  }

  // One user's deque pruned, and with room for it one stamp longer.
  lemma PrunedIsShorter(asked: map<Key, seq<real>>, key: Key, cut: real)
    ensures Grown(asked[key := Recent(StampsOf(asked, key), cut)], asked, key, 0)
  {
    RecentIsShorter(StampsOf(asked, key), cut);
    hide Recent;
  }

  lemma RecordedHasRoom(asked: map<Key, seq<real>>, key: Key, now: real, most: int)
    requires key in asked && |asked[key]| < most
    ensures Grown(asked[key := asked[key] + [now]], asked, key, most)
  {
  }

  lemma GrownLess(a: map<Key, seq<real>>, b: map<Key, seq<real>>, key: Key, most: nat)
    requires Grown(a, b, key, 0)
    ensures Grown(a, b, key, most)
  {
    hide StampsOf;
  }

  lemma GrownTwice(a: map<Key, seq<real>>, b: map<Key, seq<real>>, c: map<Key, seq<real>>, key: Key, most: int)
    requires Grown(a, b, key, most) && Grown(b, c, key, 0)
    ensures Grown(a, c, key, most)
  {
    hide StampsOf;
  }

  lemma NothingRecent(cut: real)
    ensures Recent([], cut) == []
  {
  }

  lemma NoLonger(after: map<Key, seq<real>>, was: map<Key, seq<real>>, busy: set<Key>, now: real, key: Key)
    requires after == was || after == SweptDeques(was, busy, now)
    ensures Grown(after, was, key, 0)
  {
    SweptIsShorter(was, busy, now, key);
  }

  class Ticket {
    const key: Key
    const stamp: real
    const started: real
    var released: bool
    var refunded: bool
    ghost const number: nat  // its place in the log

    constructor (key: Key, stamp: real, started: real, ghost number: nat)
      ensures this.key == key && this.stamp == stamp && this.started == started
      ensures !released && !refunded && this.number == number
    {
      this.key, this.stamp, this.started, this.number := key, stamp, started, number;
      released, refunded := false, false;
    }
  }

  // What a sweep keeps: the slots not yet abandoned, and the deques, pruned,
  // of users who have a question within the hour or a slot.
  function YoungSlots(active: map<Key, Ticket>, now: real): map<Key, Ticket> {
    map k | k in active && now - active[k].started < ABANDONED_AFTER_SECONDS :: active[k]
  }

  function SweptDeques(asked: map<Key, seq<real>>, busy: set<Key>, now: real): map<Key, seq<real>> {
    map k | k in asked && (Recent(asked[k], now - HOUR_SECONDS) != [] || k in busy) ::
      Recent(asked[k], now - HOUR_SECONDS)
  }

  // Half way through a sweep, with these keys still to visit.
  ghost predicate SlotsSoFar(was: map<Key, Ticket>, active: map<Key, Ticket>, keys: set<Key>, now: real) {
    && keys <= active.Keys <= was.Keys
    && (forall k :: k in active ==> active[k] == was[k])
    && (forall k :: k in was && k !in keys ==> (k in active <==> now - was[k].started < ABANDONED_AFTER_SECONDS))
  }

  lemma SlotsAtStart(was: map<Key, Ticket>, now: real)
    ensures SlotsSoFar(was, was, was.Keys, now)
  {
  }

  lemma SlotStep(was: map<Key, Ticket>, active: map<Key, Ticket>, keys: set<Key>, key: Key, now: real)
    requires SlotsSoFar(was, active, keys, now) && key in keys
    ensures key in active
    ensures now - active[key].started >= ABANDONED_AFTER_SECONDS ==> SlotsSoFar(was, active - {key}, keys - {key}, now)
    ensures now - active[key].started < ABANDONED_AFTER_SECONDS ==> SlotsSoFar(was, active, keys - {key}, now)
  {
  }

  lemma SlotsAtEnd(was: map<Key, Ticket>, active: map<Key, Ticket>, now: real)
    requires SlotsSoFar(was, active, {}, now)
    ensures active == YoungSlots(was, now)
  {
  }

  ghost predicate DequesSoFar(
    was: map<Key, seq<real>>, asked: map<Key, seq<real>>, busy: set<Key>, keys: set<Key>, now: real)
  {
    && keys <= asked.Keys <= was.Keys
    && (forall k :: k in keys ==> asked[k] == was[k])
    && (forall k :: k in was && k !in keys ==> DequeSwept(was, asked, busy, k, now))
  }

  ghost predicate DequeSwept(
    was: map<Key, seq<real>>, asked: map<Key, seq<real>>, busy: set<Key>, k: Key, now: real)
    requires k in was
  {
    && (k in asked <==> Recent(was[k], now - HOUR_SECONDS) != [] || k in busy)
    && (k in asked ==> asked[k] == Recent(was[k], now - HOUR_SECONDS))
  }

  lemma DequesAtStart(was: map<Key, seq<real>>, busy: set<Key>, now: real)
    ensures DequesSoFar(was, was, busy, was.Keys, now)
  {
  }

  lemma DequeStep(
    was: map<Key, seq<real>>, asked: map<Key, seq<real>>, busy: set<Key>, keys: set<Key>, key: Key, now: real)
    requires DequesSoFar(was, asked, busy, keys, now) && key in keys
    ensures key in asked
    ensures var kept := Recent(asked[key], now - HOUR_SECONDS);
      DequesSoFar(was, if kept == [] && key !in busy then asked[key := kept] - {key} else asked[key := kept],
                  busy, keys - {key}, now)
  {
    hide Recent;
  }

  lemma DequesAtEnd(was: map<Key, seq<real>>, asked: map<Key, seq<real>>, busy: set<Key>, now: real)
    requires DequesSoFar(was, asked, busy, {}, now)
    ensures asked == SweptDeques(was, busy, now)
  {
    hide Recent;
    var swept := SweptDeques(was, busy, now);
    forall k | k in was ensures k in asked <==> k in swept {
      assert DequeSwept(was, asked, busy, k, now);
    }
    forall k | k in asked ensures asked[k] == swept[k] {
      assert DequeSwept(was, asked, busy, k, now);
    }
  }

  class ChatLimiter {
    var asked: map<Key, seq<real>>
    var active: map<Key, Ticket>
    var lastSweep: real
    // Kept for the proof only: every ticket handed out, the log they stand
    // for, which of them holds each slot, and the latest clock reading.
    ghost var issued: seq<Ticket>
    ghost var log: seq<Entry>
    ghost var slots: map<Key, nat>
    ghost var clock: real

    ghost predicate TicketsMatch()
      reads this, issued
    {
      && |log| == |issued|
      && (forall i :: 0 <= i < |log| ==> issued[i].number == i && issued[i].started == log[i].stamp)
      && (forall i :: 0 <= i < |log| ==>
            log[i] == Entry(issued[i].key, issued[i].stamp, issued[i].released, issued[i].refunded))
      && active.Keys == slots.Keys
      && (forall k :: k in slots ==> slots[k] < |issued| && active[k] == issued[slots[k]])
    }

    ghost predicate Valid()
      reads this, issued
    {
      TicketsMatch() && Represents(asked, slots, log, clock)
    }

    constructor (now: real)
      ensures Valid() && log == [] && issued == [] && clock == now && asked == map[]
    {
      asked, active, lastSweep := map[], map[], now;
      issued, log, slots, clock := [], [], map[], now;
    }

    method PruneKey(key: Key, now: real)
      requires Valid() && clock == now && key in asked
      modifies this`asked
      ensures Valid() && asked == old(asked)[key := Recent(old(asked)[key], now - HOUR_SECONDS)]
    {
      AfterPrune(asked, slots, log, now, key);
      hide Represents, Recent;
      var kept := Prune(asked[key], now - HOUR_SECONDS);
      asked := asked[key := kept];
    }

    // At most once a minute: forget abandoned slots, prune every deque, and
    // forget users with nothing left. Valid says that no user can tell.
    method Sweep(now: real)
      requires Valid() && clock == now
      modifies this`asked, this`active, this`lastSweep, this`slots
      ensures Valid()
      ensures if now - old(lastSweep) < SWEEP_INTERVAL_SECONDS
        then asked == old(asked) && active == old(active) && lastSweep == old(lastSweep)
        else lastSweep == now && active == YoungSlots(old(active), now) && asked == SweptDeques(old(asked), active.Keys, now)
    {
      if now - lastSweep < SWEEP_INTERVAL_SECONDS { return; }
      lastSweep := now;
      SweepSlots(now);
      SweepDeques(now);
    }

    method SweepSlots(now: real)
      requires Valid() && clock == now
      modifies this`active, this`slots
      ensures Valid() && active == YoungSlots(old(active), now)
    {
      hide Represents, SlotsSoFar, YoungSlots;
      var keys := active.Keys;
      SlotsAtStart(active, now);
      while keys != {}
        invariant Valid() && keys <= active.Keys && SlotsSoFar(old(active), active, keys, now)
      {
        var key :| key in keys;
        SlotStep(old(active), active, keys, key, now);
        keys := keys - {key};
        if now - active[key].started >= ABANDONED_AFTER_SECONDS {
          FreeAbandoned(key, now);
        }
      }
      SlotsAtEnd(old(active), active, now);
    }

    method FreeAbandoned(key: Key, now: real)
      requires Valid() && clock == now && key in active
      requires now - active[key].started >= ABANDONED_AFTER_SECONDS
      modifies this`active, this`slots
      ensures Valid() && active == old(active) - {key}
    {
      hide Represents;
      AbandonedSlot(asked, slots, log, now, key);
      active, slots := active - {key}, slots - {key};
    }

    method SweepDeques(now: real)
      requires Valid() && clock == now
      modifies this`asked
      ensures Valid() && asked == SweptDeques(old(asked), active.Keys, now)
    {
      hide Represents, Recent, DequesSoFar, SweptDeques;
      var keys := asked.Keys;
      DequesAtStart(asked, active.Keys, now);
      while keys != {}
        invariant Valid() && keys <= asked.Keys && DequesSoFar(old(asked), asked, active.Keys, keys, now)
      {
        var key :| key in keys;
        DequeStep(old(asked), asked, active.Keys, keys, key, now);
        keys := keys - {key};
        PruneKey(key, now);
        if asked[key] == [] && key !in active {
          EmptyDeque(asked, slots, log, now, key);
          asked := asked - {key};
        }
      }
      DequesAtEnd(old(asked), asked, active.Keys, now);
    }

    // The decision is the one the full log gives, and a refusal records nothing.
    method Acquire(key: Key, limits: Limits, now: real) returns (decision: Decision, ticket: Ticket?)
      requires Valid() && clock <= now && limits.Valid()
      modifies this
      ensures Valid() && clock == now
      ensures Grown(asked, old(asked), key, limits.perHour)
      ensures decision == Decide(old(log), key, now, limits)
      ensures decision.Refused? ==> ticket == null && log == old(log) && issued == old(issued)
      ensures decision.Granted? ==>
        && ticket != null && fresh(ticket)
        && log == old(log) + [Entry(key, now, false, false)]
        && issued == old(issued) + [ticket]
    {
      hide Represents, Recent, Stamps, Busy, QuotaWaits, OverQuota, Grown, SweptDeques;
      ticket := null;
      AfterTime(asked, slots, log, clock, now);
      clock := now;
      Sweep(now);
      NoLonger(asked, old(asked), active.Keys, now, key);
      GrownLess(asked, old(asked), key, limits.perHour);
      var held := SlotHeld(key, now);
      if held {
        decision := Refused(InFlight, IN_FLIGHT_RETRY_SECONDS);
        return;
      }
      ghost var swept := asked;
      decision := QuotaDecision(key, limits, now);
      PrunedIsShorter(swept, key, now - HOUR_SECONDS);
      GrownTwice(asked, swept, old(asked), key, 0);
      GrownLess(asked, old(asked), key, limits.perHour);
      if decision.Refused? { return; }
      ghost var pruned := asked;
      RecordedHasRoom(pruned, key, now, limits.perHour);
      ticket := Record(key, now);
      GrownTwice(asked, pruned, old(asked), key, limits.perHour);
    }

    method SlotHeld(key: Key, now: real) returns (held: bool)
      requires Valid() && clock == now
      ensures held == Busy(log, key, now)
    {
      SlotDecides(asked, slots, log, now, key);
      hide Represents, Busy;
      held := key in active && now - active[key].started < ABANDONED_AFTER_SECONDS;
    }

    // The quota half of acquire: prune this user's deque and weigh it.
    method QuotaDecision(key: Key, limits: Limits, now: real) returns (decision: Decision)
      requires Valid() && clock == now && limits.Valid()
      modifies this`asked
      ensures Valid() && key in asked
      ensures asked == old(asked)[key := Recent(StampsOf(old(asked), key), now - HOUR_SECONDS)]
      ensures decision == OverQuota(QuotaWaits(Stamps(log, key), now, limits))
      ensures decision.Granted? ==> |asked[key]| < limits.perHour
    {
      hide Represents, Recent, Stamps, QuotaWaits, OverQuota;
      if key !in asked {
        EmptyDeque(asked, slots, log, now, key);
        asked := asked[key := []];
      }
      PruneKey(key, now);
      SameWaits(asked, slots, log, now, key, limits);
      decision := OverQuota(QuotaWaits(asked[key], now, limits));
      RecentTwice(StampsOf(old(asked), key), now - HOUR_SECONDS, now - HOUR_SECONDS);
      if decision.Granted? { OpenHasRoom(asked[key], now, limits); }
      NothingRecent(now - HOUR_SECONDS);
    }

    // The granting half of acquire: append the stamp and take the slot.
    method Record(key: Key, now: real) returns (ticket: Ticket)
      requires Valid() && clock == now && key in asked && !Busy(log, key, now)
      modifies this
      ensures Valid() && clock == now && fresh(ticket)
      ensures log == old(log) + [Entry(key, now, false, false)]
      ensures issued == old(issued) + [ticket]
      ensures asked == old(asked)[key := old(asked)[key] + [now]]
    {
      hide Represents, Busy;
      AfterRecord(asked, slots, log, now, key);
      asked := asked[key := asked[key] + [now]];
      ticket := new Ticket(key, now, now, |log|);
      active, slots := active[key := ticket], slots[key := |log|];
      log, issued := log + [Entry(key, now, false, false)], issued + [ticket];
    }

    // Marks one entry released and frees its slot, never another ticket's.
    method Release(ticket: Ticket)
      requires Valid() && ticket in issued
      modifies this, ticket
      ensures Valid() && issued == old(issued) && clock == old(clock) && asked == old(asked)
      ensures log == old(log)[ticket.number := old(log)[ticket.number].(released := true)]
    {
      hide Represents;
      if ticket.released {
        assert log == log[ticket.number := log[ticket.number].(released := true)];
        return;
      }
      AfterRelease(asked, slots, log, clock, ticket.number);
      ticket.released := true;
      log := log[ticket.number := log[ticket.number].(released := true)];
      FreeOwnSlot(ticket);
    }

    method FreeOwnSlot(ticket: Ticket)
      requires TicketsMatch() && ticket in issued
      modifies this`active, this`slots
      ensures TicketsMatch()
      ensures slots == if ticket.key in old(slots) && old(slots)[ticket.key] == ticket.number
                       then old(slots) - {ticket.key} else old(slots)
    {
      if ticket.key in active && active[ticket.key] == ticket {
        active, slots := active - {ticket.key}, slots - {ticket.key};
      }
    }

    // Marks one entry refunded, so it no longer counts in any window.
    method Refund(ticket: Ticket)
      requires Valid() && ticket in issued
      modifies this, ticket
      ensures Valid() && issued == old(issued) && clock == old(clock)
      ensures Grown(asked, old(asked), ticket.key, 0)
      ensures log == old(log)[ticket.number := old(log)[ticket.number].(refunded := true)]
    {
      hide Represents, WithoutStamp, Grown;
      WithoutIsShorter(asked, ticket.key, ticket.stamp);
      NoLonger(asked, asked, {}, 0.0, ticket.key);
      ghost var i := ticket.number;
      if ticket.refunded {
        assert log == log[i := log[i].(refunded := true)];
        return;
      }
      AfterRefund(asked, slots, log, clock, i);
      ticket.refunded := true;
      log := log[i := log[i].(refunded := true)];
      asked := WithoutStamp(asked, ticket.key, ticket.stamp);
    }
  }

  // Dropping expired stamps from the front of a deque, one at a time.
  method Prune(stamps: seq<real>, cut: real) returns (kept: seq<real>)
    requires Sorted(stamps)
    ensures kept == Recent(stamps, cut)
  {
    kept := stamps;
    while kept != [] && kept[0] <= cut
      invariant Sorted(kept) && Recent(kept, cut) == Recent(stamps, cut)
    {
      kept := kept[1..];
    }
    RecentAll(kept, cut);
  }
}
