/** The per-source fixed-window limiter and its refusal episodes, specified over the history of calls. */
module RateLimiter {
  import opened Seqs

  const QUERIES_PER_SECOND := 100
  const SECOND := 1_000_000_000
  const KEPT_FOR := 3_600_000_000_000

  /** One call of Allow: when, by whom, and what it answered. Times are nanoseconds. */
  datatype Call = Call(ip: string, now: int, allowed: bool)

  /** The aligned second an instant falls in: Truncate(time.Second). */
  function Window(now: int): (w: int)
    ensures w * 1_000_000_000 <= now < (w + 1) * 1_000_000_000
  {
    now / SECOND
  }

  /** Calls of `ip` allowed in the unbroken run of latest calls that fall in window `w`. */
  function RunCount(h: seq<Call>, ip: string, w: int): nat {
    if h == [] || Window(h[|h| - 1].now) != w then 0
    else RunCount(h[..|h| - 1], ip, w) + (if h[|h| - 1].ip == ip && h[|h| - 1].allowed then 1 else 0)
  }

  /** What the limiter answers after history `h`, whatever the order of times. */
  predicate Decision(h: seq<Call>, ip: string, now: int) {
    RunCount(h, ip, Window(now)) < QUERIES_PER_SECOND
  }

  /** Every recorded answer is the limiter's. */
  predicate Faithful(h: seq<Call>) {
    h == [] ||
    (Faithful(h[..|h| - 1]) && h[|h| - 1].allowed == Decision(h[..|h| - 1], h[|h| - 1].ip, h[|h| - 1].now))
  }

  ghost predicate InOrder(h: seq<Call>) {
    forall i, j :: 0 <= i < j < |h| ==> h[i].now <= h[j].now
  }

  // ---- The limit ----

  /** Calls of `ip` allowed in window `w`. */
  function AllowedIn(ip: string, w: int): Call -> bool {
    (c: Call) => c.ip == ip && c.allowed && Window(c.now) == w
  }

  lemma {:induction false} RunCountIsWindowCount(h: seq<Call>, ip: string, now: int)
    requires InOrder(h) && (h != [] ==> h[|h| - 1].now <= now)
    ensures RunCount(h, ip, Window(now)) == |Filter(h, AllowedIn(ip, Window(now)))|
  {
    if h != [] {
      var init, last := h[..|h| - 1], h[|h| - 1];
      if Window(last.now) == Window(now) {
        RunCountIsWindowCount(init, ip, now);
      } else {
        forall c | c in h
          ensures !AllowedIn(ip, Window(now))(c)
        {
          WindowMonotone(c.now, last.now);
          WindowMonotone(last.now, now);
        }
        FilterNone(h, AllowedIn(ip, Window(now)));
      }
    }
  }

  lemma WindowMonotone(a: int, b: int)
    requires a <= b
    ensures Window(a) <= Window(b)
  {
  }

  /** Calls of `ip` allowed in a half-open interval of time. */
  function AllowedBetween(ip: string, from: int, to: int): Call -> bool {
    (c: Call) => c.ip == ip && c.allowed && from <= c.now < to
  }

  lemma WindowIs(now: int, k: int)
    ensures Window(now) == k <==> k * 1_000_000_000 <= now < (k + 1) * 1_000_000_000
  {
  }

  lemma AllowedInSecond(h: seq<Call>, ip: string, k: int)
    ensures Filter(h, AllowedIn(ip, k)) == Filter(h, AllowedBetween(ip, k * 1_000_000_000, (k + 1) * 1_000_000_000))
  {
    var inWindow, inSecond := AllowedIn(ip, k), AllowedBetween(ip, k * 1_000_000_000, (k + 1) * 1_000_000_000);
    forall c | c in h
      ensures inWindow(c) == inSecond(c)
    {
      WindowIs(c.now, k);
    }
    FilterCongruent(h, inWindow, inSecond);
  }

  /**
   With times in order, a call in the second from `k` on is allowed iff fewer than 100 earlier calls of its source were
   allowed in that second.
   */
  lemma AllowsIffUnderLimit(h: seq<Call>, c: Call, k: int)
    requires Faithful(h + [c]) && InOrder(h + [c])
    requires k * 1_000_000_000 <= c.now < (k + 1) * 1_000_000_000
    ensures c.allowed
       <==> |Filter(h, AllowedBetween(c.ip, k * 1_000_000_000, (k + 1) * 1_000_000_000))| < 100
  {
    assert (h + [c])[..|h|] == h;
    assert h != [] ==> (h + [c])[|h| - 1] == h[|h| - 1];
    InOrderPrefix(h, [c]);
    WindowIs(c.now, k);
    RunCountIsWindowCount(h, c.ip, c.now);
    AllowedInSecond(h, c.ip, k);
  }

  /** Calls of `ip` allowed from the last full second at or before `now` until the next. */
  function AllowedInSecondOf(ip: string, now: int): Call -> bool {
    AllowedBetween(ip, now - now % 1_000_000_000, now - now % 1_000_000_000 + 1_000_000_000)
  }

  lemma UnderLimit(h: seq<Call>, c: Call)
    requires Faithful(h + [c]) && InOrder(h + [c])
    ensures c.allowed <==> |Filter(h, AllowedInSecondOf(c.ip, c.now))| < 100
  {
    var k := c.now / 1_000_000_000;
    assert k * 1_000_000_000 == c.now - c.now % 1_000_000_000;
    AllowsIffUnderLimit(h, c, k);
  }

  lemma InOrderPrefix(a: seq<Call>, b: seq<Call>)
    requires InOrder(a + b)
    ensures InOrder(a)
  {
    assert forall i :: 0 <= i < |a| ==> a[i] == (a + b)[i];
  }

  lemma {:induction false} CountBound(h: seq<Call>, ip: string, w: int)
    requires Faithful(h) && InOrder(h)
    ensures |Filter(h, AllowedIn(ip, w))| <= QUERIES_PER_SECOND
  {
    if h != [] {
      var init, last := h[..|h| - 1], h[|h| - 1];
      CountBound(init, ip, w);
      RunCountIsWindowCount(init, ip, last.now);
    }
  }

  /** No aligned second, whichever it is, ever sees more than 100 allowed calls of a source. */
  lemma WindowBound(h: seq<Call>, ip: string, k: int)
    requires Faithful(h) && InOrder(h)
    ensures |Filter(h, AllowedBetween(ip, k * 1_000_000_000, (k + 1) * 1_000_000_000))| <= 100
  {
    CountBound(h, ip, k);
    AllowedInSecond(h, ip, k);
  }

  lemma {:induction false} FilterCovered(h: seq<Call>, p: Call -> bool, q: Call -> bool, r: Call -> bool)
    requires forall c :: c in h && p(c) ==> q(c) || r(c)
    ensures |Filter(h, p)| <= |Filter(h, q)| + |Filter(h, r)|
  {
    if h != [] {
      assert h[|h| - 1] in h;
      FilterCovered(h[..|h| - 1], p, q, r);
    }
  }

  /** Any interval of one second, aligned or not, sees at most 200 allowed calls of a source. */
  lemma SlidingBound(h: seq<Call>, ip: string, from: int)
    requires Faithful(h) && InOrder(h)
    ensures |Filter(h, AllowedBetween(ip, from, from + 1_000_000_000))| <= 200
  {
    var w, during := Window(from), AllowedBetween(ip, from, from + 1_000_000_000);
    forall c | c in h && during(c)
      ensures AllowedIn(ip, w)(c) || AllowedIn(ip, w + 1)(c)
    {
      TwoWindows(from, c.now);
    }
    FilterCovered(h, during, AllowedIn(ip, w), AllowedIn(ip, w + 1));
    CountBound(h, ip, w);
    CountBound(h, ip, w + 1);
  }

  lemma TwoWindows(from: int, now: int)
    requires from <= now < from + 1_000_000_000
    ensures Window(now) == Window(from) || Window(now) == Window(from) + 1
  {
  }

  // ---- Isolation ----

  function By(ip: string): Call -> bool {
    (c: Call) => c.ip == ip
  }

  lemma {:induction false} OwnInOrder(h: seq<Call>, ip: string)
    requires InOrder(h)
    ensures InOrder(Filter(h, By(ip)))
    ensures h != [] && Filter(h, By(ip)) != [] ==> Filter(h, By(ip))[|Filter(h, By(ip))| - 1].now <= h[|h| - 1].now
  {
    if h != [] {
      var init, last := h[..|h| - 1], h[|h| - 1];
      OwnInOrder(init, ip);
      var own := Filter(init, By(ip));
      assert forall i :: 0 <= i < |own| ==> own[i].now <= own[|own| - 1].now;
    }
  }

  /** Other sources change nothing: a source's own calls, alone, get the same answers. */
  lemma {:induction false} SourcesIsolated(h: seq<Call>, ip: string)
    requires Faithful(h) && InOrder(h)
    ensures Faithful(Filter(h, By(ip)))
  {
    if h != [] {
      var init, last := h[..|h| - 1], h[|h| - 1];
      SourcesIsolated(init, ip);
      if last.ip == ip {
        var own, counted := Filter(init, By(ip)), AllowedIn(ip, Window(last.now));
        OwnInOrder(init, ip);
        RunCountIsWindowCount(init, ip, last.now);
        OwnBefore(h, ip);
        RunCountIsWindowCount(own, ip, last.now);
        FilterTwice(init, By(ip), counted, counted);
        FaithfulExtends(own, last);
        assert Filter(h, By(ip)) == own + [last];
      } else {
        assert Filter(init, By(ip)) + [] == Filter(init, By(ip));
      }
    }
  }

  lemma FaithfulExtends(h: seq<Call>, c: Call)
    requires Faithful(h) && c.allowed == Decision(h, c.ip, c.now)
    ensures Faithful(h + [c])
  {
  }

  lemma OwnBefore(h: seq<Call>, ip: string)
    requires InOrder(h) && h != []
    ensures var own := Filter(h[..|h| - 1], By(ip)); own != [] ==> own[|own| - 1].now <= h[|h| - 1].now
  {
    OwnInOrder(h[..|h| - 1], ip);
  }

  // ---- Refusal episodes ----

  datatype Refusal = Refusal(ip: string, count: int, first: int, last: int)

  predicate SameWindow(h: seq<Call>)
    requires h != []
  {
    |h| > 1 && Window(h[|h| - 2].now) == Window(h[|h| - 1].now)
  }

  /** The records less than an hour old. */
  function Recent(records: map<string, Refusal>, now: int): map<string, Refusal> {
    map ip | ip in records && now - records[ip].last < KEPT_FOR :: records[ip]
  }

  function Refuse(records: map<string, Refusal>, ip: string, now: int): map<string, Refusal> {
    records[ip := if ip in records then records[ip].(count := records[ip].count + 1, last := now)
                  else Refusal(ip, 1, now, now)]
  }

  /** The records after history `h`: pruned when the window changes, extended or started by a refusal. */
  function Records(h: seq<Call>): map<string, Refusal> {
    if h == [] then map[]
    else
      var before, last := Records(h[..|h| - 1]), h[|h| - 1];
      var kept := if SameWindow(h) then before else Recent(before, last.now);
      if last.allowed then kept else Refuse(kept, last.ip, last.now)
  }

  /** When the window of the latest calls was opened. */
  function Opened(h: seq<Call>): int
    requires h != []
  {
    if SameWindow(h) then Opened(h[..|h| - 1]) else h[|h| - 1].now
  }

  datatype Instant = Never | At(time: int)

  function LastRefused(h: seq<Call>, ip: string): Instant {
    if h == [] then Never
    else if h[|h| - 1].ip == ip && !h[|h| - 1].allowed then At(h[|h| - 1].now)
    else LastRefused(h[..|h| - 1], ip)
  }

  predicate Within(when: Instant, now: int) {
    when.At? && now - when.time < KEPT_FOR
  }

  lemma {:induction false} OpenedInWindow(h: seq<Call>)
    requires h != [] && InOrder(h)
    ensures Opened(h) <= h[|h| - 1].now && Window(Opened(h)) == Window(h[|h| - 1].now)
  {
    if SameWindow(h) {
      OpenedInWindow(h[..|h| - 1]);
    }
  }

  /** A record exists exactly when the source's last refusal was less than an hour before the current window opened. */
  lemma {:induction false} RecordKeptIff(h: seq<Call>, ip: string)
    requires h != [] && InOrder(h)
    ensures ip in Records(h) <==> Within(LastRefused(h, ip), Opened(h))
    ensures ip in Records(h) ==> Records(h)[ip].ip == ip && Records(h)[ip].last == LastRefused(h, ip).time
  {
    var init, last := h[..|h| - 1], h[|h| - 1];
    OpenedInWindow(h);
    if init != [] {
      assert init[|init| - 1] == h[|h| - 2];
      OpenedInWindow(init);
      RecordKeptIff(init, ip);
    }
  }

  /** A refused call shares its window with the call before it. */
  lemma RefusedInSameWindow(h: seq<Call>, c: Call)
    requires Faithful(h + [c]) && !c.allowed
    ensures h != [] && Window(h[|h| - 1].now) == Window(c.now) && SameWindow(h + [c])
    ensures Opened(h + [c]) == Opened(h)
  {
  }

  /**
   A refusal extends the source's record exactly when its previous refusal is under an hour before the window
   opened.
   */
  lemma RefusalExtendsIff(h: seq<Call>, c: Call)
    requires Faithful(h + [c]) && InOrder(h + [c]) && !c.allowed
    ensures h != [] && c.ip in Records(h + [c])
    ensures if Within(LastRefused(h, c.ip), Opened(h))
            then
              && c.ip in Records(h)
              && Records(h + [c])[c.ip] == Records(h)[c.ip].(count := Records(h)[c.ip].count + 1, last := c.now)
            else Records(h + [c])[c.ip] == Refusal(c.ip, 1, c.now, c.now)
  {
    RefusedInSameWindow(h, c);
    InOrderPrefix(h, [c]);
    RecordKeptIff(h, c.ip);
    assert (h + [c])[..|h|] == h;
  }

  /**
   Less than an hour since the source's previous refusal always extends its record; an hour and a second less a
   nanosecond, or more, always starts a fresh one.
   */
  lemma EpisodeBounds(h: seq<Call>, c: Call)
    requires Faithful(h + [c]) && InOrder(h + [c]) && !c.allowed && LastRefused(h, c.ip).At?
    ensures c.ip in Records(h + [c])
    ensures c.now - LastRefused(h, c.ip).time < 3_600_000_000_000 ==>
              && c.ip in Records(h)
              && Records(h + [c])[c.ip] == Records(h)[c.ip].(count := Records(h)[c.ip].count + 1, last := c.now)
    ensures c.now - LastRefused(h, c.ip).time >= 3_600_999_999_999 ==>
              Records(h + [c])[c.ip] == Refusal(c.ip, 1, c.now, c.now)
  {
    RefusalExtendsIff(h, c);
    RefusedInSameWindow(h, c);
    InOrderPrefix(h, [c]);
    OpenedInWindow(h);
    assert h[|h| - 1] == (h + [c])[|h| - 1] && c == (h + [c])[|h|];
    SameSecond(Opened(h), c.now);
  }

  lemma EarlierSecond(h: seq<Call>, c: Call)
    requires h != [] && InOrder(h) && !SameWindow(h) && c in h[..|h| - 1]
    ensures Window(c.now) < Window(h[|h| - 1].now)
  {
    var i :| 0 <= i < |h| - 1 && h[i] == c;
    WindowMonotone(c.now, h[|h| - 2].now);
    WindowMonotone(h[|h| - 2].now, h[|h| - 1].now);
  }

  /** The window's opening is the time of the earliest call in the second of the last call. */
  lemma {:induction false} OpenedIsFirst(h: seq<Call>, c: Call) returns (first: Call)
    requires h != [] && InOrder(h) && c in h && Window(c.now) == Window(h[|h| - 1].now)
    ensures first in h && first.now == Opened(h) <= c.now
  {
    var init, last := h[..|h| - 1], h[|h| - 1];
    first := last;
    if SameWindow(h) {
      OpenedInWindow(init);
      first := OpenedIsFirst(init, if c in init then c else init[|init| - 1]);
      assert init[|init| - 1] == h[|h| - 2];
    } else if c in init {
      EarlierSecond(h, c);
    }
  }

  lemma SameSecond(a: int, b: int)
    requires Window(a) == Window(b)
    ensures b - a < 1_000_000_000
  {
  }

  // ---- An episode stretched past the hour ----

  lemma InOrderAppend(h: seq<Call>, c: Call)
    requires InOrder(h) && (h != [] ==> h[|h| - 1].now <= c.now)
    ensures InOrder(h + [c])
  {
  }

  /** `g` is `h` and then `n` calls of `ip` allowed at one instant of a new second. */
  ghost predicate AfterCalls(h: seq<Call>, ip: string, now: int, n: nat, g: seq<Call>) {
    && Faithful(g) && InOrder(g) && |g| >= n
    && RunCount(g, ip, Window(now)) == n && LastRefused(g, ip) == LastRefused(h, ip)
    && (if n == 0 then g == h else g[|g| - 1].now == now && Records(g) == Recent(Records(h), now))
  }

  ghost predicate OpensSecond(h: seq<Call>, now: int) {
    h != [] ==> h[|h| - 1].now <= now && Window(h[|h| - 1].now) != Window(now)
  }

  /** A source may call up to the limit in a new second; the records still kept are kept. */
  lemma {:induction false} CallsAllowed(h: seq<Call>, ip: string, now: int, n: nat) returns (g: seq<Call>)
    requires Faithful(h) && InOrder(h) && OpensSecond(h, now) && n <= QUERIES_PER_SECOND
    ensures AfterCalls(h, ip, now, n, g)
  {
    if n == 0 {
      g := h;
    } else {
      g := CallsAllowed(h, ip, now, n - 1);
      OneAllowed(h, ip, now, n - 1, g);
      g := g + [Call(ip, now, true)];
    }
  }

  lemma OneAllowed(h: seq<Call>, ip: string, now: int, n: nat, g: seq<Call>)
    requires n < QUERIES_PER_SECOND && AfterCalls(h, ip, now, n, g) && OpensSecond(h, now)
    ensures AfterCalls(h, ip, now, n + 1, g + [Call(ip, now, true)])
  {
    var c := Call(ip, now, true);
    FaithfulExtends(g, c);
    InOrderAppend(g, c);
    assert (g + [c])[..|g|] == g;
  }

  /**
   A full second, a refusal, and a second opened within the hour: the next refusal extends the record, however late.
   */
  lemma StretchedEpisode(ip: string, first: int, reopened: int, later: int) returns (h: seq<Call>)
    requires first <= reopened <= later && reopened - first < KEPT_FOR
    requires Window(first) != Window(reopened) == Window(later)
    ensures var g := h + [Call(ip, later, false)];
            && Faithful(g) && InOrder(g) && LastRefused(h, ip) == At(first)
            && ip in Records(g) && Records(g)[ip] == Refusal(ip, 2, first, later)
  {
    h := CallsAllowed([], ip, first, QUERIES_PER_SECOND);
    Refused(h, ip, first);
    h := h + [Call(ip, first, false)];
    assert ip in Records(h) && Records(h)[ip] == Refusal(ip, 1, first, first);
    h := CallsAllowed(h, ip, reopened, QUERIES_PER_SECOND);
    Refused(h, ip, later);
  }

  /** So a refusal 3600.3 seconds after the source's previous one can still extend the record. */
  lemma HourPassedStillExtends(ip: string) returns (h: seq<Call>, c: Call)
    ensures Faithful(h + [c]) && InOrder(h + [c]) && !c.allowed && c.ip == ip
    ensures LastRefused(h, ip).At? && c.now - LastRefused(h, ip).time == KEPT_FOR + 300_000_000
    ensures ip in Records(h + [c]) && Records(h + [c])[ip].count == 2
  {
    h := StretchedEpisode(ip, 500_000_000, 3_600_200_000_000, 3_600_800_000_000);
    c := Call(ip, 3_600_800_000_000, false);
  }

  /** A call of a source whose second is full is refused, and extends or starts its record. */
  lemma Refused(h: seq<Call>, ip: string, now: int)
    requires Faithful(h) && InOrder(h) && h != [] && h[|h| - 1].now <= now && Window(h[|h| - 1].now) == Window(now)
    requires RunCount(h, ip, Window(now)) == QUERIES_PER_SECOND
    ensures var g := h + [Call(ip, now, false)];
            && Faithful(g) && InOrder(g) && LastRefused(g, ip) == At(now) && Records(g) == Refuse(Records(h), ip, now)
  {
    var c := Call(ip, now, false);
    FaithfulExtends(h, c);
    InOrderAppend(h, c);
    assert (h + [c])[..|h|] == h;
  }

  // ---- Counting ----

  function RefusedSince(ip: string, from: int): Call -> bool {
    (c: Call) => c.ip == ip && !c.allowed && c.now >= from
  }

  /** The last refusal is a refusal, and none of the source is later. */
  lemma {:induction false} LastRefusedIsLatest(h: seq<Call>, ip: string)
    requires InOrder(h)
    ensures forall c :: c in h && c.ip == ip && !c.allowed ==>
              LastRefused(h, ip).At? && c.now <= LastRefused(h, ip).time
    ensures LastRefused(h, ip).At? ==>
              exists c :: c in h && c.ip == ip && !c.allowed && c.now == LastRefused(h, ip).time
  {
    if h != [] {
      var init, last := h[..|h| - 1], h[|h| - 1];
      LastRefusedIsLatest(init, ip);
      assert forall c :: c in h ==> (c in init || c == last) && c.now <= last.now;
    }
  }

  /** A record's count is the number of refusals of its source since its first. */
  lemma {:induction false} CountsRefusalsSinceFirst(h: seq<Call>, ip: string)
    requires InOrder(h) && ip in Records(h)
    ensures Records(h)[ip].count == |Filter(h, RefusedSince(ip, Records(h)[ip].first))|
    ensures Records(h)[ip].first <= Records(h)[ip].last <= h[|h| - 1].now
  {
    var init, last := h[..|h| - 1], h[|h| - 1];
    if ip in Records(init) {
      CountsRefusalsSinceFirst(init, ip);
      assert init[|init| - 1].now <= last.now;
    }
    var kept := ip in Records(init) && (SameWindow(h) || last.now - Records(init)[ip].last < KEPT_FOR);
    if last.ip == ip && !last.allowed && !kept {
      NoneSinceNow(h, ip);
    }
  }

  /** When a refusal starts a fresh record, every earlier refusal of its source is in the past. */
  lemma NoneSinceNow(h: seq<Call>, ip: string)
    requires h != [] && InOrder(h)
    requires var init, last := h[..|h| - 1], h[|h| - 1];
             !(ip in Records(init) && (SameWindow(h) || last.now - Records(init)[ip].last < KEPT_FOR))
    ensures Filter(h[..|h| - 1], RefusedSince(ip, h[|h| - 1].now)) == []
  {
    var init, last := h[..|h| - 1], h[|h| - 1];
    if init != [] {
      RecordKeptIff(init, ip);
      OpenedInWindow(init);
      assert init[|init| - 1].now <= last.now;
      LastRefusedIsLatest(init, ip);
    }
    FilterNone(init, RefusedSince(ip, last.now));
  }

  // ---- The object ----

  function CountAt(counts: map<string, int>, ip: string): int {
    if ip in counts then counts[ip] else 0
  }

  /** The records a reader asking at `now` is shown. */
  ghost predicate Listed(list: seq<Refusal>, records: map<string, Refusal>, now: int) {
    && (forall ip :: ip in Recent(records, now) ==> records[ip] in list)
    && (forall r :: r in list ==> r.ip in Recent(records, now) && records[r.ip] == r)
    && DistinctSources(list)
  }

  ghost predicate MostRefusedFirst(list: seq<Refusal>) {
    forall i, j :: 0 <= i < j < |list| ==> list[i].count >= list[j].count
  }

  /** Deletes the records an hour old or older while ranging over the map. */
  method Prune(refusals: map<string, Refusal>, now: int) returns (kept: map<string, Refusal>)
    ensures kept == Recent(refusals, now)
  {
    kept := refusals;
    var pending := refusals.Keys;
    while pending != {}
      invariant pending <= refusals.Keys
      invariant kept == map ip | ip in refusals && (ip in pending || now - refusals[ip].last < KEPT_FOR) :: refusals[ip]
      decreases pending
    {
      var ip :| ip in pending;
      pending := pending - {ip};
      if now - refusals[ip].last >= KEPT_FOR {
        kept := kept - {ip};
      }
    }
  }

  /** The fields are functions of the history. */
  ghost predicate Tracks(windowStart: int, counts: map<string, int>, refusals: map<string, Refusal>, h: seq<Call>) {
    && Faithful(h)
    && refusals == Records(h)
    && (h == [] ==> counts == map[])
    && (h != [] ==> windowStart == StartOf(h[|h| - 1].now) && CountsMatch(counts, h, Window(h[|h| - 1].now)))
  }

  /** One call, from the window test on, keeps the fields in step with the history. */
  lemma StepKeeps(windowStart: int, before: map<string, int>, records: map<string, Refusal>, h: seq<Call>, c: Call,
                  counts: map<string, int>, kept: map<string, Refusal>)
    requires Tracks(windowStart, before, records, h)
    requires counts == if StartOf(c.now) == windowStart then before else map[]
    requires kept == if StartOf(c.now) == windowStart then records else Recent(records, c.now)
    requires c.allowed == (CountAt(counts, c.ip) < QUERIES_PER_SECOND)
    ensures Tracks(StartOf(c.now), if c.allowed then counts[c.ip := CountAt(counts, c.ip) + 1] else counts,
                   if c.allowed then kept else Refuse(kept, c.ip, c.now), h + [c])
  {
    var same := StartOf(c.now) == windowStart;
    if h != [] {
      StartsMatch(h[|h| - 1].now, c.now);
    }
    AdvanceCounts(h, c, same, before, counts);
    AdvanceRecords(h, c, same);
  }

  class Limiter {
    var windowStart: int
    var counts: map<string, int>
    var refusals: map<string, Refusal>
    ghost var history: seq<Call>

    ghost predicate Valid()
      reads this
    {
      Tracks(windowStart, counts, refusals, history)
    }

    /** `zero` is the zero time, whose second no counter has opened yet. */
    constructor (zero: int)
      ensures Valid() && history == []
    {
      windowStart, counts, refusals, history := zero, map[], map[], [];
    }

    /** A new second resets the counters and prunes the records. */
    method Advance(now: int)
      modifies this`windowStart, this`counts, this`refusals
      ensures windowStart == StartOf(now)
      ensures counts == if StartOf(now) == old(windowStart) then old(counts) else map[]
      ensures refusals == if StartOf(now) == old(windowStart) then old(refusals) else Recent(old(refusals), now)
    {
      var window := StartOf(now);
      if window != windowStart {
        windowStart := window;
        counts := map[];
        refusals := Prune(refusals, now);
      }
    }

    method Allow(sourceIp: string, now: int) returns (ok: bool)
      requires Valid()
      modifies this
      ensures Valid() && history == old(history) + [Call(sourceIp, now, ok)]
      ensures InOrder(history) ==> (ok <==> |Filter(old(history), AllowedInSecondOf(sourceIp, now))| < 100)
    {
      Advance(now);
      ok := CountAt(counts, sourceIp) < QUERIES_PER_SECOND;
      ghost var c := Call(sourceIp, now, ok);
      StepKeeps(old(windowStart), old(counts), old(refusals), history, c, counts, refusals);
      if ok {
        counts := counts[sourceIp := CountAt(counts, sourceIp) + 1];
      } else {
        refusals := Refuse(refusals, sourceIp, now);
      }
      if InOrder(history + [c]) {
        UnderLimit(history, c);
      }
      history := history + [c];
    }

    /** The recent records, most refused first; the sort is not stable. */
    method Refusals(now: int) returns (recent: seq<Refusal>)
      requires Valid()
      ensures Listed(recent, refusals, now) && MostRefusedFirst(recent)
    {
      recent := [];
      var pending := refusals.Keys;
      while pending != {}
        invariant pending <= refusals.Keys
        invariant forall ip :: ip in Recent(refusals, now) && ip !in pending ==> refusals[ip] in recent
        invariant forall r :: r in recent ==> r.ip in Recent(refusals, now) && r.ip !in pending && refusals[r.ip] == r
        invariant DistinctSources(recent)
        decreases pending
      {
        var ip :| ip in pending;
        pending := pending - {ip};
        RecordNamesSource(history, ip);
        if now - refusals[ip].last < KEPT_FOR {
          recent := recent + [refusals[ip]];
        }
      }
      ghost var unsorted := recent;
      recent := SortByCount(recent);
      SortedSame(unsorted, recent);
    }
  }

  /** Truncate(time.Second) as an instant. */
  function StartOf(now: int): int {
    Window(now) * SECOND
  }

  lemma StartsMatch(a: int, b: int)
    ensures StartOf(a) == StartOf(b) <==> Window(a) == Window(b)
  {
  }

  ghost predicate CountsMatch(counts: map<string, int>, h: seq<Call>, w: int) {
    forall ip :: CountAt(counts, ip) == RunCount(h, ip, w)
  }

  lemma {:induction false} RecordNamesSource(h: seq<Call>, ip: string)
    requires ip in Records(h)
    ensures Records(h)[ip].ip == ip
  {
    if ip in Records(h[..|h| - 1]) {
      RecordNamesSource(h[..|h| - 1], ip);
    }
  }

  /** After the window test, the counters hold the run counts for the call's window. */
  lemma AdvanceCounts(h: seq<Call>, c: Call, same: bool, before: map<string, int>, counts: map<string, int>)
    requires Faithful(h) && (h == [] ==> before == map[])
    requires h != [] ==> same == (Window(h[|h| - 1].now) == Window(c.now))
    requires h != [] ==> CountsMatch(before, h, Window(h[|h| - 1].now))
    requires counts == if same then before else map[]
    requires c.allowed == (CountAt(counts, c.ip) < QUERIES_PER_SECOND)
    ensures Faithful(h + [c])
    ensures CountsMatch(if c.allowed then counts[c.ip := CountAt(counts, c.ip) + 1] else counts, h + [c], Window(c.now))
    ensures h != [] ==> SameWindow(h + [c]) == same
  {
    assert (h + [c])[..|h|] == h;
    forall ip
      ensures RunCount(h + [c], ip, Window(c.now)) == CountAt(counts, ip) + (if ip == c.ip && c.allowed then 1 else 0)
    {
      assert h != [] ==> CountAt(before, ip) == RunCount(h, ip, Window(h[|h| - 1].now));
    }
  }

  lemma AdvanceRecords(h: seq<Call>, c: Call, same: bool)
    requires h != [] ==> SameWindow(h + [c]) == same
    ensures var kept := if same then Records(h) else Recent(Records(h), c.now);
            Records(h + [c]) == if c.allowed then kept else Refuse(kept, c.ip, c.now)
  {
  }

  ghost predicate DistinctSources(list: seq<Refusal>) {
    forall i, j :: 0 <= i < j < |list| ==> list[i].ip != list[j].ip
  }

  lemma InsertKeeps(list: seq<Refusal>, r: Refusal, at: nat)
    requires at <= |list| && MostRefusedFirst(list)
    requires forall i :: 0 <= i < at ==> list[i].count >= r.count
    requires at < |list| ==> list[at].count <= r.count
    ensures MostRefusedFirst(list[..at] + [r] + list[at..])
    ensures multiset(list[..at] + [r] + list[at..]) == multiset(list) + multiset{r}
  {
    assert list == list[..at] + list[at..];
  }

  method InsertByCount(list: seq<Refusal>, r: Refusal) returns (longer: seq<Refusal>)
    requires MostRefusedFirst(list)
    ensures MostRefusedFirst(longer) && multiset(longer) == multiset(list) + multiset{r}
  {
    var at := 0;
    while at < |list| && list[at].count >= r.count
      invariant 0 <= at <= |list|
      invariant forall i :: 0 <= i < at ==> list[i].count >= r.count
    {
      at := at + 1;
    }
    InsertKeeps(list, r, at);
    return list[..at] + [r] + list[at..];
  }

  /** Insertion sort by count. */
  method SortByCount(list: seq<Refusal>) returns (sorted: seq<Refusal>)
    ensures MostRefusedFirst(sorted) && multiset(sorted) == multiset(list)
  {
    sorted := [];
    for k := 0 to |list|
      invariant MostRefusedFirst(sorted) && multiset(sorted) == multiset(list[..k])
    {
      sorted := InsertByCount(sorted, list[k]);
      assert list[..k + 1] == list[..k] + [list[k]];
    }
    assert list[..|list|] == list;
  }

  /** Reordering a list of records keeps its members and their distinct sources. */
  lemma SortedSame(list: seq<Refusal>, sorted: seq<Refusal>)
    requires DistinctSources(list) && multiset(sorted) == multiset(list)
    ensures DistinctSources(sorted)
    ensures forall r :: r in sorted <==> r in list
  {
    forall r
      ensures r in sorted <==> r in list
    {
      assert r in multiset(sorted) <==> r in multiset(list);
    }
    forall i, j | 0 <= i < j < |sorted|
      ensures sorted[i].ip != sorted[j].ip
    {
      if sorted[i].ip == sorted[j].ip {
        assert sorted[i] in list && sorted[j] in list;
        SameRecord(list, sorted[i], sorted[j]);
        Twice(sorted, i, j);
        Once(list, sorted[i]);
        assert false;
      }
    }
  }

  lemma SameRecord(list: seq<Refusal>, a: Refusal, b: Refusal)
    requires DistinctSources(list) && a in list && b in list && a.ip == b.ip
    ensures a == b
  {
  }

  lemma Twice(list: seq<Refusal>, i: nat, j: nat)
    requires i < j < |list| && list[i] == list[j]
    ensures multiset(list)[list[i]] >= 2
  {
    assert list == list[..j] + [list[j]] + list[j + 1..];
    assert list[..j][i] == list[i];
  }

  lemma {:induction false} Once(list: seq<Refusal>, r: Refusal)
    requires DistinctSources(list)
    ensures multiset(list)[r] <= 1
  {
    if list != [] {
      var init := list[..|list| - 1];
      assert list == init + [list[|list| - 1]];
      Once(init, r);
      if r == list[|list| - 1] {
        assert forall i :: 0 <= i < |init| ==> init[i] == list[i] && init[i].ip != r.ip;
        assert r !in init;
      }
    }
  }

  /** Asked at or after the last call, a source is listed exactly when it was refused less than an hour ago. */
  lemma ListedIffRefusedRecently(h: seq<Call>, list: seq<Refusal>, now: int, ip: string)
    requires InOrder(h) && (h != [] ==> h[|h| - 1].now <= now) && Listed(list, Records(h), now)
    ensures (exists r :: r in list && r.ip == ip)
       <==> LastRefused(h, ip).At? && now - LastRefused(h, ip).time < 3_600_000_000_000
  {
    if h != [] {
      RecordKeptIff(h, ip);
      OpenedInWindow(h);
    }
    if ip in Recent(Records(h), now) {
      RecordNamesSource(h, ip);
      assert Records(h)[ip] in list;
    }
  }
}
