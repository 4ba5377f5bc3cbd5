// Reading a backend list: paged requests, waiting out rate limits from one
// shared budget, and never returning a partial set.
module Fetch {
  import opened Texts
  import opened Decimals

  const MAX_PAGES := 50
  const MAX_RETRIES := 3
  const MAX_WAIT := 60
  const DEFAULT_WAIT := 30
  const MIN_WAIT := 1
  const MAX_WAIT_DIGITS := 2

  // ------------------------------------------------------------------
  // Retry-After
  // ------------------------------------------------------------------

  function StripZeros(s: string): (r: string)
    ensures AllDigits(s) ==> AllDigits(r)
  {
    if s != "" && s[0] == '0' then StripZeros(s[1..]) else s
  }

  function Clamp(n: nat): nat {
    if n > MAX_WAIT then MAX_WAIT else if n < MIN_WAIT then MIN_WAIT else n
  }

  predicate WholeSeconds(text: string) {
    text != "" && AllDigits(text)
  }

  lemma {:induction false} StripZerosKeeps(s: string)
    requires AllDigits(s)
    ensures Value(StripZeros(s)) == Value(s)
    ensures StripZeros(s) == "" || StripZeros(s)[0] != '0'
  {
    if s != "" && s[0] == '0' {
      StripZerosKeeps(s[1..]);
      ValueSplit(s[..1], s[1..]);
      assert s[..1] + s[1..] == s && s[..1] == "0";
      assert Value("0") == 0 by { assert "0"[..0] == ""; }
    }
  }

  function WaitFor(text: string): nat {
    if !WholeSeconds(text) then DEFAULT_WAIT else
    var digits := if StripZeros(text) == "" then "0" else StripZeros(text);
    if |digits| > MAX_WAIT_DIGITS then MAX_WAIT else Value(digits)
  }

  function RetryAfterSeconds(header: Option<string>): (wait: nat)
    ensures MIN_WAIT <= wait <= MAX_WAIT
  {
    Clamp(if header.None? then DEFAULT_WAIT else WaitFor(Strip(header.value)))
  }

  // Whole seconds written in any number of digits are honoured up to the cap;
  // everything else gets the default.
  lemma RetryAfterIsClamped(header: string)
    ensures Strip(header) != "" && AllDigits(Strip(header)) ==>
      var n := Value(Strip(header));
      RetryAfterSeconds(Some(header)) == if n < 1 then 1 else if n > 60 then 60 else n
    ensures !(Strip(header) != "" && AllDigits(Strip(header))) ==> RetryAfterSeconds(Some(header)) == 30
    ensures RetryAfterSeconds(None) == 30
  {
    var text := Strip(header);
    if WholeSeconds(text) {
      var stripped := StripZeros(text);
      StripZerosKeeps(text);
      if stripped == "" {
        assert Value("0") == 0 by { assert "0"[..0] == ""; }
      } else if |stripped| > MAX_WAIT_DIGITS {
        ValueAtLeast(stripped);
        Pow10Grows(2, |stripped| - 1);
        assert Pow10(2) == 100 by { assert Pow10(1) == 10; }
      }
    }
  }

  // ------------------------------------------------------------------
  // The server, and what one refresh has spent on it
  // ------------------------------------------------------------------

  // One element of a payload's list: a JSON object, or anything else.
  datatype Element = Object(json: string) | Other(json: string)

  datatype Total = Absent | Announced(n: int) | Unusable

  datatype Body = Bare(elements: seq<Element>) | Page(items: seq<Element>, total: Total) | Unexpected

  // Failed covers an error status, a transport error and a body that is not JSON.
  datatype Response = RateLimited(retryAfter: Option<string>) | Failed | Body(body: Body)

  // The answer to the n-th request, for a given page, and whether a shutdown
  // interrupts the wait after it: any behaviour whatever.
  datatype World = World(server: (nat, nat) -> Response, stopped: nat -> bool)

  datatype Tally = Tally(requests: nat, left: nat, waited: nat)

  function Get(w: World, page: nat, t: Tally): (Option<Body>, Tally)
    decreases t.left
  {
    match w.server(t.requests, page)
    case Body(body) => (Some(body), t.(requests := t.requests + 1))
    case Failed => (None, t.(requests := t.requests + 1))
    case RateLimited(header) =>
      if t.left == 0 then (None, t.(requests := t.requests + 1)) else
      var next := Tally(t.requests + 1, t.left - 1, t.waited + RetryAfterSeconds(header));
      if w.stopped(t.requests) then (None, next) else Get(w, page, next)
  }

  function MorePages(w: World, items: seq<Element>, total: int, page: nat, t: Tally): (Option<seq<Element>>, Tally)
    decreases MAX_PAGES - page
  {
    if |items| >= total then (Some(items), t)
    else if page + 1 > MAX_PAGES then (None, t) else
    var (body, next) := Get(w, page + 1, t);
    if body.None? || !body.value.Page? || body.value.items == [] then (None, next)
    else MorePages(w, items + body.value.items, total, page + 1, next)
  }

  function TotalOf(first: Body): int
    requires first.Page?
  {
    if first.total.Announced? then first.total.n else |first.items|
  }

  predicate AllObjects(elements: seq<Element>) {
    forall i :: 0 <= i < |elements| ==> elements[i].Object?
  }

  const START := Tally(0, MAX_RETRIES, 0)

  function GetAll(w: World): (Option<seq<Element>>, Tally) {
    var (body, t) := Get(w, 1, START);
    if body.None? || body.value.Unexpected? then (None, t)
    else if body.value.Bare? then
      (if AllObjects(body.value.elements) then Some(body.value.elements) else None, t)
    else if body.value.total.Unusable? then (None, t)
    else MorePages(w, body.value.items, TotalOf(body.value), 1, t)
  }

  // ------------------------------------------------------------------
  // The loops
  // ------------------------------------------------------------------

  class RetryBudget {
    var remaining: nat

    constructor ()
      ensures remaining == MAX_RETRIES
    {
      remaining := MAX_RETRIES;
    }
  }

  class Client {
    const world: World
    var requests: nat
    var waited: nat

    constructor (world: World)
      ensures this.world == world && requests == 0 && waited == 0
    {
      this.world := world;
      requests, waited := 0, 0;
    }
  }

  function Spent(client: Client, budget: RetryBudget): Tally
    reads client, budget
  {
    Tally(client.requests, budget.remaining, client.waited)
  }

  method GetJson(client: Client, page: nat, budget: RetryBudget) returns (body: Option<Body>)
    modifies client, budget
    ensures (body, Spent(client, budget)) == Get(client.world, page, old(Spent(client, budget)))
  {
    hide RetryAfterSeconds;
    while true
      invariant Get(client.world, page, Spent(client, budget)) == Get(client.world, page, old(Spent(client, budget)))
      decreases budget.remaining
    {
      var response := client.world.server(client.requests, page);
      client.requests := client.requests + 1;
      if !response.RateLimited? || budget.remaining == 0 {
        return if response.Body? then Some(response.body) else None;
      }
      budget.remaining := budget.remaining - 1;
      client.waited := client.waited + RetryAfterSeconds(response.retryAfter);
      if client.world.stopped(client.requests - 1) { return None; }
    }
  }

  method GetItems(client: Client) returns (all: Option<seq<Element>>)
    requires client.requests == 0 && client.waited == 0
    modifies client
    ensures all == GetAll(client.world).0
    ensures client.requests == GetAll(client.world).1.requests && client.waited == GetAll(client.world).1.waited
  {
    var budget := new RetryBudget();
    var first := GetJson(client, 1, budget);
    if first.None? || first.value.Unexpected? { return None; }
    if first.value.Bare? {
      return if AllObjects(first.value.elements) then Some(first.value.elements) else None;
    }
    if first.value.total.Unusable? { return None; }
    var items, total := first.value.items, TotalOf(first.value);
    var page := 1;
    while |items| < total
      invariant page <= MAX_PAGES
      invariant MorePages(client.world, items, total, page, Spent(client, budget)) == GetAll(client.world)
      decreases MAX_PAGES - page
    {
      page := page + 1;
      if page > MAX_PAGES { return None; }
      var more := GetJson(client, page, budget);
      if more.None? || !more.value.Page? || more.value.items == [] { return None; }
      items := items + more.value.items;
    }
    all := Some(items);
  }

  // ------------------------------------------------------------------
  // Bounds
  // ------------------------------------------------------------------

  // Requests made in a stretch: at most the pages asked for plus the retries
  // spent, each of which waited no longer than the cap.
  ghost predicate Within(before: Tally, after: Tally, pages: nat) {
    && before.requests <= after.requests && after.left <= before.left
    && after.requests - before.requests <= pages + before.left - after.left
    && after.waited <= before.waited + MAX_WAIT * (before.left - after.left)
  }

  lemma {:induction false} GetWithin(w: World, page: nat, t: Tally)
    ensures Within(t, Get(w, page, t).1, 1)
    decreases t.left
  {
    var response := w.server(t.requests, page);
    if response.RateLimited? && t.left > 0 {
      var wait := RetryAfterSeconds(response.retryAfter);
      GetWithin(w, page, Tally(t.requests + 1, t.left - 1, t.waited + wait));
    }
  }

  lemma {:induction false} MorePagesWithin(w: World, items: seq<Element>, total: int, page: nat, t: Tally)
    requires page <= MAX_PAGES
    ensures Within(t, MorePages(w, items, total, page, t).1, MAX_PAGES - page)
    decreases MAX_PAGES - page
  {
    if |items| < total && page < MAX_PAGES {
      GetWithin(w, page + 1, t);
      var (body, next) := Get(w, page + 1, t);
      if body.Some? && body.value.Page? {
        MorePagesWithin(w, items + body.value.items, total, page + 1, next);
      }
    }
  }

  // Whatever the server does: 53 requests and three minutes of waiting.
  lemma FetchIsBounded(w: World)
    ensures GetAll(w).1.requests <= MAX_PAGES + MAX_RETRIES
    ensures GetAll(w).1.waited <= MAX_RETRIES * MAX_WAIT
  {
    GetWithin(w, 1, START);
    var (body, t) := Get(w, 1, START);
    if body.Some? && body.value.Page? {
      MorePagesWithin(w, body.value.items, TotalOf(body.value), 1, t);
    }
  }

  // ------------------------------------------------------------------
  // A result is whole
  // ------------------------------------------------------------------

  function Concat(pages: seq<seq<Element>>): seq<Element> {
    if pages == [] then [] else Concat(pages[..|pages| - 1]) + pages[|pages| - 1]
  }

  // Page i + 1 is what the server sent for it, in answer to request asked[i].
  ghost predicate Delivered(w: World, pages: seq<seq<Element>>, asked: seq<nat>) {
    && |asked| == |pages|
    && (forall i :: 0 <= i < |pages| ==> Sent(w, asked[i], i + 1, pages[i]))
    && (forall i, j :: 0 <= i < j < |asked| ==> asked[i] < asked[j])
  }

  ghost predicate Sent(w: World, request: nat, page: nat, items: seq<Element>) {
    var response := w.server(request, page);
    response.Body? && response.body.Page? && response.body.items == items
  }

  lemma {:induction false} GetAnswers(w: World, page: nat, t: Tally) returns (request: nat)
    requires Get(w, page, t).0.Some?
    ensures w.server(request, page) == Body(Get(w, page, t).0.value)
    ensures t.requests <= request < Get(w, page, t).1.requests
    decreases t.left
  {
    match w.server(t.requests, page)
    case Body(_) => request := t.requests;
    case RateLimited(header) =>
      request := GetAnswers(w, page, Tally(t.requests + 1, t.left - 1, t.waited + RetryAfterSeconds(header)));
  }

  lemma DeliveredSnoc(w: World, pages: seq<seq<Element>>, asked: seq<nat>, items: seq<Element>, request: nat)
    requires Delivered(w, pages, asked) && Sent(w, request, |pages| + 1, items)
    requires asked != [] ==> asked[|asked| - 1] < request
    ensures Delivered(w, pages + [items], asked + [request])
  {
    hide Sent;
  }

  lemma DeliveredLast(w: World, pages: seq<seq<Element>>, asked: seq<nat>)
    requires Delivered(w, pages, asked)
    ensures |asked| == |pages|
  {
  }

  lemma {:induction false} MorePagesWhole(
    w: World, before: seq<seq<Element>>, asked: seq<nat>, total: int, t: Tally)
    returns (pages: seq<seq<Element>>, requests: seq<nat>)
    requires 1 <= |before| <= MAX_PAGES && Delivered(w, before, asked) && asked[|asked| - 1] < t.requests
    requires |before| > 1 ==> |Concat(before[..|before| - 1])| < total
    requires MorePages(w, Concat(before), total, |before|, t).0.Some?
    ensures before <= pages && |pages| <= MAX_PAGES && Delivered(w, pages, requests)
    ensures MorePages(w, Concat(before), total, |before|, t).0 == Some(Concat(pages))
    ensures |Concat(pages)| >= total && (|pages| > 1 ==> |Concat(pages[..|pages| - 1])| < total)
    decreases MAX_PAGES - |before|
  {
    hide Concat, Get;
    if |Concat(before)| >= total {
      hide Delivered;
      pages, requests := before, asked;
    } else {
      var items, next, request := OneMorePage(w, before, total, t);
      DeliveredSnoc(w, before, asked, items, request);
      DeliveredLast(w, before + [items], asked + [request]);
      hide Delivered, MorePages;
      var longer := before + [items];
      assert longer[..|before|] == before;
      pages, requests := MorePagesWhole(w, longer, asked + [request], total, next);
    }
  }

  lemma OneMorePage(w: World, before: seq<seq<Element>>, total: int, t: Tally)
    returns (items: seq<Element>, next: Tally, request: nat)
    requires MorePages(w, Concat(before), total, |before|, t).0.Some? && |Concat(before)| < total
    ensures |before| < MAX_PAGES && Sent(w, request, |before| + 1, items)
    ensures t.requests <= request < next.requests
    ensures MorePages(w, Concat(before), total, |before|, t)
         == MorePages(w, Concat(before + [items]), total, |before| + 1, next)
  {
    var page := |before| + 1;
    request := GetAnswers(w, page, t);
    items, next := Get(w, page, t).0.value.items, Get(w, page, t).1;
    assert Concat(before + [items]) == Concat(before) + items by { assert (before + [items])[..|before|] == before; }
  }

  lemma ConcatOne(page: seq<Element>)
    ensures Concat([page]) == page
  {
    assert Concat([page][..0]) == [];
  }

  // A successful fetch is a bare list of objects, or the pages 1..k in order:
  // as many as reach the announced total, and no more.
  lemma NeverPartial(w: World) returns (pages: seq<seq<Element>>, asked: seq<nat>)
    requires GetAll(w).0.Some?
    ensures Get(w, 1, START).0.Some?
    ensures Get(w, 1, START).0.value.Bare? ==> GetAll(w).0.value == Get(w, 1, START).0.value.elements
    ensures Get(w, 1, START).0.value.Page? ==>
      && 1 <= |pages| <= MAX_PAGES && Delivered(w, pages, asked) && GetAll(w).0.value == Concat(pages)
      && pages[0] == Get(w, 1, START).0.value.items
      && |Concat(pages)| >= TotalOf(Get(w, 1, START).0.value)
      && (|pages| > 1 ==> |Concat(pages[..|pages| - 1])| < TotalOf(Get(w, 1, START).0.value))
  {
    var (body, t) := Get(w, 1, START);
    pages, asked := [], [];
    if body.value.Page? {
      var request := GetAnswers(w, 1, START);
      ConcatOne(body.value.items);
      pages, asked := MorePagesWhole(w, [body.value.items], [request], TotalOf(body.value), t);
    }
  }

  // ------------------------------------------------------------------
  // What one request for a page comes to
  // ------------------------------------------------------------------

  ghost predicate LimitedAt(w: World, page: nat, request: nat) {
    w.server(request, page).RateLimited?
  }

  // The waits of the n rate-limited requests from this one on.
  ghost function Waits(w: World, page: nat, request: nat, n: nat): nat
    requires forall i :: request <= i < request + n ==> LimitedAt(w, page, i)
    decreases n
  {
    if n == 0 then 0 else
    assert LimitedAt(w, page, request);
    RetryAfterSeconds(w.server(request, page).retryAfter) + Waits(w, page, request + 1, n - 1)
  }

  // n rate limits are waited out, one retry and one wait for each. Either a
  // shutdown ends the last of these waits, or the next answer decides: it is
  // no rate limit unless the retries are spent.
  ghost predicate EndsAfter(w: World, page: nat, t: Tally, n: nat, body: Option<Body>, last: Tally) {
    && n <= t.left && (forall i :: t.requests <= i < t.requests + n ==> LimitedAt(w, page, i))
    && last.left == t.left - n && last.waited == t.waited + Waits(w, page, t.requests, n)
    && (forall i :: t.requests <= i < t.requests + n - 1 ==> !w.stopped(i))
    && if n > 0 && w.stopped(t.requests + n - 1)
       then body == None && last.requests == t.requests + n
       else
         && last.requests == t.requests + n + 1
         && (n < t.left ==> !LimitedAt(w, page, t.requests + n))
         && forall b: Body :: body == Some(b) <==> w.server(t.requests + n, page) == Response.Body(b)
  }

  lemma {:induction false} GetEnds(w: World, page: nat, t: Tally) returns (n: nat)
    ensures EndsAfter(w, page, t, n, Get(w, page, t).0, Get(w, page, t).1)
    decreases t.left
  {
    hide RetryAfterSeconds;
    n := 0;
    if w.server(t.requests, page).RateLimited? && t.left > 0 {
      var next := Tally(t.requests + 1, t.left - 1,
                        t.waited + RetryAfterSeconds(w.server(t.requests, page).retryAfter));
      assert LimitedAt(w, page, t.requests);
      if w.stopped(t.requests) {
        n := 1;
        assert Waits(w, page, t.requests + 1, 0) == 0;
      } else {
        var k := GetEnds(w, page, next);
        n := k + 1;
        OneMoreWait(w, page, t, next, k);
      }
    }
  }

  lemma OneMoreWait(w: World, page: nat, t: Tally, next: Tally, k: nat)
    requires LimitedAt(w, page, t.requests) && !w.stopped(t.requests) && t.left > 0
    requires next == Tally(t.requests + 1, t.left - 1,
                           t.waited + RetryAfterSeconds(w.server(t.requests, page).retryAfter))
    requires EndsAfter(w, page, next, k, Get(w, page, next).0, Get(w, page, next).1)
    ensures EndsAfter(w, page, t, k + 1, Get(w, page, next).0, Get(w, page, next).1)
  {
    hide RetryAfterSeconds, Get;
    forall i | t.requests <= i < t.requests + k + 1 ensures LimitedAt(w, page, i) {
    }
  }

  // ------------------------------------------------------------------
  // A server that is steady between rate limits
  // ------------------------------------------------------------------

  ghost predicate LimitsSomePage(w: World, request: nat) {
    exists page: nat :: LimitedAt(w, page, request)
  }

  // How many of the first requests meet a rate limit.
  ghost function Limits(w: World, requests: nat): nat {
    if requests == 0 then 0 else Limits(w, requests - 1) + if LimitsSomePage(w, requests - 1) then 1 else 0
  }

  // Every answer for page p is the same items or a rate limit; the rate
  // limits are no more than the retries, and no shutdown comes.
  ghost predicate Steady(w: World, pages: nat -> seq<Element>, total: int) {
    && (forall n: nat, p: nat :: LimitedAt(w, p, n) || w.server(n, p) == Body(Page(pages(p), Announced(total))))
    && (forall n: nat :: Limits(w, n) <= MAX_RETRIES) && (forall n: nat :: !w.stopped(n))
  }

  // Enough retries are left for the rate limits to come.
  ghost predicate Enough(w: World, t: Tally) {
    t.left + Limits(w, t.requests) >= MAX_RETRIES
  }

  lemma {:induction false} SteadyGet(w: World, pages: nat -> seq<Element>, total: int, page: nat, t: Tally)
    requires Steady(w, pages, total) && Enough(w, t)
    ensures Get(w, page, t).0 == Some(Page(pages(page), Announced(total))) && Enough(w, Get(w, page, t).1)
    decreases t.left
  {
    hide RetryAfterSeconds;
    assert LimitedAt(w, page, t.requests) || w.server(t.requests, page) == Body(Page(pages(page), Announced(total)));
    assert Limits(w, t.requests + 1) <= MAX_RETRIES;
    if w.server(t.requests, page).RateLimited? {
      assert LimitedAt(w, page, t.requests);
      assert LimitsSomePage(w, t.requests);
      var wait := RetryAfterSeconds(w.server(t.requests, page).retryAfter);
      SteadyGet(w, pages, total, page, Tally(t.requests + 1, t.left - 1, t.waited + wait));
    }
  }

  function UpTo(pages: nat -> seq<Element>, k: nat): seq<Element> {
    if k == 0 then [] else UpTo(pages, k - 1) + pages(k)
  }

  // The total is not reached yet, and there is a page to go on with.
  ghost predicate GoesOn(pages: nat -> seq<Element>, total: int, k: nat) {
    |UpTo(pages, k)| < total && pages(k + 1) != []
  }

  // Pages up to k reach the total, and none before does.
  ghost predicate Reaches(pages: nat -> seq<Element>, total: int, k: nat) {
    && 1 <= k <= MAX_PAGES && |UpTo(pages, k)| >= total
    && forall i: nat :: 1 <= i < k ==> GoesOn(pages, total, i)
  }

  lemma SteadyStep(w: World, pages: nat -> seq<Element>, total: int, page: nat, t: Tally) returns (next: Tally)
    requires Steady(w, pages, total) && Enough(w, t) && page < MAX_PAGES && |UpTo(pages, page)| < total
    ensures Enough(w, next)
    ensures MorePages(w, UpTo(pages, page), total, page, t).0 ==
      if pages(page + 1) == [] then None else MorePages(w, UpTo(pages, page + 1), total, page + 1, next).0
  {
    next := Get(w, page + 1, t).1;
    SteadyGet(w, pages, total, page + 1, t);
    hide Get, Steady;
  }

  lemma {:induction false} SteadyReaches(
    w: World, pages: nat -> seq<Element>, total: int, page: nat, t: Tally, k: nat)
    requires Steady(w, pages, total) && Enough(w, t) && Reaches(pages, total, k) && 1 <= page <= k
    ensures MorePages(w, UpTo(pages, page), total, page, t).0 == Some(UpTo(pages, k))
    decreases k - page
  {
    if page < k {
      hide MorePages, UpTo, Steady, Enough;
      assert GoesOn(pages, total, page);
      var next := SteadyStep(w, pages, total, page, t);
      SteadyReaches(w, pages, total, page + 1, next, k);
    }
  }

  lemma {:induction false} SteadySuccess(
    w: World, pages: nat -> seq<Element>, total: int, page: nat, t: Tally) returns (k: nat)
    requires Steady(w, pages, total) && Enough(w, t) && 1 <= page <= MAX_PAGES
    requires forall i: nat :: 1 <= i < page ==> GoesOn(pages, total, i)
    requires MorePages(w, UpTo(pages, page), total, page, t).0.Some?
    ensures Reaches(pages, total, k)
    decreases MAX_PAGES - page
  {
    hide MorePages, UpTo, Steady, Enough;
    if |UpTo(pages, page)| >= total {
      k := page;
    } else {
      PageFiftyIsLast(w, UpTo(pages, page), total, page, t);
      var next := SteadyStep(w, pages, total, page, t);
      k := SteadySuccess(w, pages, total, page + 1, next);
    }
  }

  lemma PageFiftyIsLast(w: World, items: seq<Element>, total: int, page: nat, t: Tally)
    requires MorePages(w, items, total, page, t).0.Some? && |items| < total
    ensures page < MAX_PAGES
  {
  }

  lemma SteadyFirst(w: World, pages: nat -> seq<Element>, total: int) returns (t: Tally)
    requires Steady(w, pages, total)
    ensures Enough(w, t) && GetAll(w).0 == MorePages(w, UpTo(pages, 1), total, 1, t).0
  {
    t := Get(w, 1, START).1;
    SteadyGet(w, pages, total, 1, START);
    assert UpTo(pages, 1) == pages(1) by { assert UpTo(pages, 0) == []; }
    hide Get, Steady, MorePages;
  }

  // Through any rate limits the retries can wait out, a fetch succeeds exactly
  // when at most 50 pages, none empty on the way, add up to the total; it then
  // returns those pages.
  lemma SteadyFetchIff(w: World, pages: nat -> seq<Element>, total: int)
    requires Steady(w, pages, total)
    ensures GetAll(w).0.Some? <==> exists k: nat :: Reaches(pages, total, k)
    ensures forall k: nat :: Reaches(pages, total, k) ==> GetAll(w).0 == Some(UpTo(pages, k))
  {
    var t := SteadyFirst(w, pages, total);
    hide MorePages, GetAll, UpTo, Steady, Reaches, Enough;
    forall k: nat | Reaches(pages, total, k) ensures GetAll(w).0 == Some(UpTo(pages, k)) {
      ReachesSomePage(pages, total, k);
      SteadyReaches(w, pages, total, 1, t, k);
    }
    if GetAll(w).0.Some? {
      var k := SteadySuccess(w, pages, total, 1, t);
    }
  }

  lemma ReachesSomePage(pages: nat -> seq<Element>, total: int, k: nat)
    requires Reaches(pages, total, k)
    ensures 1 <= k
  {
  }

  // The first answer to page 1 that is no rate limit decides a bare list: its
  // objects are the result, and anything but objects fails the fetch.
  lemma BareFetch(w: World, elements: seq<Element>, n: nat)
    requires n <= MAX_RETRIES && w.server(n, 1) == Response.Body(Bare(elements))
    requires forall i: nat :: i < n ==> LimitedAt(w, 1, i) && !w.stopped(i)
    ensures GetAll(w).0 == (if forall i :: 0 <= i < |elements| ==> elements[i].Object? then Some(elements) else None)
    ensures GetAll(w).1.requests == n + 1
  {
    var k := GetEnds(w, 1, START);
    hide Get, RetryAfterSeconds;
    assert !LimitedAt(w, 1, n);
    assert k == n;
  }

  // Without an announced total the first page is all; a total that is no
  // number, or a body that is neither list nor page, fails the fetch.
  lemma FirstPageDecides(w: World, items: seq<Element>)
    requires Get(w, 1, START).0.Some?
    ensures Get(w, 1, START).0 == Some(Page(items, Absent)) ==> GetAll(w) == (Some(items), Get(w, 1, START).1)
    ensures Get(w, 1, START).0 == Some(Page(items, Unusable)) || Get(w, 1, START).0 == Some(Unexpected) ==>
      GetAll(w) == (None, Get(w, 1, START).1)
  {
    hide Get;
  }
}
