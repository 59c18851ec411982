/** Whole charts: exactly when the daily ones are right, and how the actors' charts add up. */
module Charts {
  import opened Seqs
  import opened QueryLog
  import opened Tallies
  import opened Rollups
  import opened Activity

  // ---- The days of one log ----

  /** An hour before 1970 that is not the first of its day, which truncating division files under the next day. */
  predicate Misplaced(ts: int) {
    ts < 0 && FloorHour(ts) % DAY != 0
  }

  lemma TruncDay(b: int)
    ensures TruncDiv(b, DAY) == b / DAY + (if b < 0 && b % DAY != 0 then 1 else 0)
  {
    var d := b / DAY;
    if b < 0 {
      DayQuotient(-b, if b % DAY == 0 then -d else -d - 1);
    }
  }

  /** SQL's lower bound and day key put the instant's hour in the bar of the day that starts at `start`. */
  predicate Filed(ts: int, oldest: int, start: int) {
    FloorHour(ts) >= oldest && TruncDiv(FloorHour(ts), DAY) == TruncDiv(start, DAY)
  }

  /** A bar gets its own day's hours but the misplaced ones, and the misplaced ones of the day before. */
  lemma FiledIff(ts: int, oldest: int, start: int)
    requires oldest % DAY == 0 && start % DAY == 0 && start >= oldest
    ensures Filed(ts, oldest, start)
       <==> if Misplaced(ts) then oldest <= ts && start - DAY <= ts < start else start <= ts < start + DAY
  {
    var b, e, o := FloorHour(ts), start / DAY, oldest / DAY;
    assert start == e * DAY == 24 * e * HOUR && oldest == 24 * o * HOUR;
    TruncDay(b);
    TruncDay(start);
    FloorKeepsHours(ts, 24 * o);
    FloorKeepsHours(ts, 24 * e - 24);
    FloorKeepsHours(ts, 24 * e);
    FloorKeepsHours(ts, 24 * e + 24);
    DayIs(b, e);
    DayIs(b, e - 1);
  }

  lemma FiledRight(ts: int, oldest: int, start: int, end: int)
    requires oldest % DAY == 0 && start % DAY == 0 && oldest <= start && start + DAY <= end
    requires !(oldest <= ts < end && Misplaced(ts))
    ensures Filed(ts, oldest, start) <==> start <= ts < start + DAY
  {
    FiledIff(ts, oldest, start);
  }

  lemma FiledOnlyOwn(ts: int, oldest: int, start: int)
    requires oldest % DAY == 0 && start % DAY == 0 && oldest <= start
    requires Filed(ts, oldest, start) && (oldest <= ts < start ==> !Misplaced(ts))
    ensures start <= ts < start + DAY
  {
    FiledIff(ts, oldest, start);
  }

  lemma DayIs(b: int, d: int)
    ensures b / DAY == d <==> d * DAY <= b < d * DAY + DAY
  {
    if d * DAY <= b < d * DAY + DAY {
      DayQuotient(b, d);
    }
  }

  /** A query the chart files under the wrong day, or loses. */
  function Misfiled(a: Actor, oldest: int, n: nat): Query -> bool {
    (q: Query) => QueryMatches(a, q) && oldest <= q.ts < DayStart(oldest, n) && Misplaced(q.ts)
  }

  lemma {:induction false} EarliestMisfiled(log: seq<Query>, p: Query -> bool) returns (q: Query)
    requires exists x :: x in log && p(x)
    ensures q in log && p(q) && forall x :: x in log && p(x) ==> q.ts <= x.ts
  {
    var init, last := log[..|log| - 1], log[|log| - 1];
    assert forall x :: x in log <==> x in init || x == last;
    if exists x :: x in init && p(x) {
      q := EarliestMisfiled(init, p);
      if p(last) && last.ts < q.ts {
        q := last;
      }
    } else {
      q := last;
    }
  }

  function FiledFor(a: Actor, oldest: int, start: int): Query -> bool {
    (q: Query) => Filed(q.ts, oldest, start) && QueryMatches(a, q)
  }

  /** The rollup rows of a day's bar hold the counts of the queries filed under that day. */
  lemma DayRowsCount(log: seq<Query>, a: Actor, oldest: int, start: int)
    ensures SumsTo(Rolled(log), GroupKeys(Rolled(log), a, oldest, DayGroup(), TruncDiv(start, DAY)),
                   Tally(log, FiledFor(a, oldest, start)).total, Tally(log, FiledFor(a, oldest, start)).tracker)
  {
    var keys := GroupKeys(Rolled(log), a, oldest, DayGroup(), TruncDiv(start, DAY));
    forall q | q in log
      ensures FiledFor(a, oldest, start)(q) == (KeyOf(q) in keys)
    {
      Listed(log, q);
      KeyOfMatches(a, q);
    }
    SumIsTally(log, keys, FiledFor(a, oldest, start));
  }

  lemma QueryFiledRight(q: Query, a: Actor, oldest: int, n: nat, i: nat)
    requires oldest % DAY == 0 && i < n && !Misfiled(a, oldest, n)(q)
    ensures var start := DayStart(oldest, i); FiledFor(a, oldest, start)(q) == InSpan(a, start, start + DAY)(q)
  {
    if QueryMatches(a, q) {
      DayAligned(oldest, i);
      DayEnds(oldest, i, n);
      FiledRight(q.ts, oldest, DayStart(oldest, i), DayStart(oldest, n));
    }
  }

  lemma DayIsDirect(log: seq<Query>, a: Actor, oldest: int, n: nat, i: nat)
    requires oldest % DAY == 0 && i < n && forall q :: q in log ==> !Misfiled(a, oldest, n)(q)
    ensures DayDirect(log, a, oldest, DayStart(oldest, i))
  {
    var start := DayStart(oldest, i);
    forall q | q in log
      ensures FiledFor(a, oldest, start)(q) == InSpan(a, start, start + DAY)(q)
    {
      QueryFiledRight(q, a, oldest, n, i);
    }
    DayAgrees(log, a, oldest, start, FiledFor(a, oldest, start), InSpan(a, start, start + DAY));
  }

  lemma DayAgrees(log: seq<Query>, a: Actor, oldest: int, start: int, filed: Query -> bool, own: Query -> bool)
    requires filed == FiledFor(a, oldest, start) && own == InSpan(a, start, start + DAY)
    requires forall q :: q in log ==> filed(q) == own(q)
    ensures DayDirect(log, a, oldest, start)
  {
    TallyCongruent(log, filed, own);
    DayRowsCount(log, a, oldest, start);
  }

  lemma DayEnds(oldest: int, i: nat, n: nat)
    requires i < n
    ensures DayStart(oldest, i) + DAY <= DayStart(oldest, n)
  {
  }

  /** The day of a window an instant falls in. */
  lemma DayIn(oldest: int, n: nat, ts: int) returns (i: nat)
    requires oldest % DAY == 0 && oldest <= ts < DayStart(oldest, n)
    ensures i < n && DayStart(oldest, i) <= ts < DayStart(oldest, i) + DAY
  {
    i := (ts - oldest) / DAY;
    DayIs(ts - oldest, i);
  }

  /** With `q` the earliest misfiled query, what is filed under its day belongs to that day, and `q` is not. */
  lemma EarliestDay(q: Query, a: Actor, oldest: int, n: nat) returns (i: nat)
    requires oldest % DAY == 0 && Misfiled(a, oldest, n)(q)
    ensures i < n
    ensures var start := DayStart(oldest, i);
            && InSpan(a, start, start + DAY)(q) && !FiledFor(a, oldest, start)(q)
            && start % DAY == 0 && oldest <= start <= q.ts && start + DAY <= DayStart(oldest, n)
  {
    i := DayIn(oldest, n, q.ts);
    DayAligned(oldest, i);
    DayEnds(oldest, i, n);
    FiledIff(q.ts, oldest, DayStart(oldest, i));
  }

  lemma FiledIsOwn(x: Query, a: Actor, oldest: int, n: nat, start: int, first: int)
    requires oldest % DAY == 0 && start % DAY == 0 && oldest <= start <= first && start + DAY <= DayStart(oldest, n)
    requires FiledFor(a, oldest, start)(x) && (Misfiled(a, oldest, n)(x) ==> first <= x.ts)
    ensures InSpan(a, start, start + DAY)(x)
  {
    FiledOnlyOwn(x.ts, oldest, start);
  }

  /** The bar of the earliest misfiled query's own day comes out short. */
  lemma DayIsShort(log: seq<Query>, a: Actor, oldest: int, n: nat) returns (i: nat)
    requires oldest % DAY == 0 && exists q :: q in log && Misfiled(a, oldest, n)(q)
    ensures i < n && !DayDirect(log, a, oldest, DayStart(oldest, i))
  {
    var q := EarliestMisfiled(log, Misfiled(a, oldest, n));
    i := EarliestDay(q, a, oldest, n);
    DayMisses(log, a, oldest, n, DayStart(oldest, i), q);
  }

  lemma DayMisses(log: seq<Query>, a: Actor, oldest: int, n: nat, start: int, q: Query)
    requires oldest % DAY == 0 && start % DAY == 0 && oldest <= start <= q.ts && start + DAY <= DayStart(oldest, n)
    requires q in log && InSpan(a, start, start + DAY)(q) && !FiledFor(a, oldest, start)(q)
    requires forall x :: x in log && Misfiled(a, oldest, n)(x) ==> q.ts <= x.ts
    ensures !DayDirect(log, a, oldest, start)
  {
    forall x | x in log && FiledFor(a, oldest, start)(x)
      ensures InSpan(a, start, start + DAY)(x)
    {
      FiledIsOwn(x, a, oldest, n, start, q.ts);
    }
    DayDiffers(log, a, oldest, start, FiledFor(a, oldest, start), InSpan(a, start, start + DAY), q);
  }

  lemma DayDiffers(log: seq<Query>, a: Actor, oldest: int, start: int, filed: Query -> bool, own: Query -> bool,
                   q: Query)
    requires filed == FiledFor(a, oldest, start) && own == InSpan(a, start, start + DAY)
    requires forall x :: x in log && filed(x) ==> own(x)
    requires q in log && own(q) && !filed(q)
    ensures !DayDirect(log, a, oldest, start)
  {
    OneMissed(log, filed, own, q);
    DayRowsCount(log, a, oldest, start);
  }

  /** A selection that misses one row of a larger one counts less. */
  lemma OneMissed(log: seq<Query>, filed: Query -> bool, own: Query -> bool, q: Query)
    requires forall x :: x in log && filed(x) ==> own(x)
    requires q in log && own(q) && !filed(q)
    ensures Tally(log, filed).total < Tally(log, own).total
  {
    var missed := (x: Query) => own(x) && !filed(x);
    TallySplit(log, own, filed, missed);
    TallyPositive(log, missed);
    assert missed(q);
  }

  /** A daily chart over this log is right exactly when no query in its window lies in a misplaced hour. */
  lemma DailyChartExactIff(log: seq<Query>, a: Actor, oldest: int, n: nat)
    requires oldest % DAY == 0
    ensures DailyChartDirect(log, a, oldest, n) <==> forall q :: q in log ==> !Misfiled(a, oldest, n)(q)
  {
    if forall q :: q in log ==> !Misfiled(a, oldest, n)(q) {
      forall i | 0 <= i < n
        ensures DayDirect(log, a, oldest, DayStart(oldest, i))
      {
        DayIsDirect(log, a, oldest, n, i);
      }
    } else {
      var i := DayIsShort(log, a, oldest, n);
    }
  }

  // ---- What a chart shows ----

  /** `n` consecutive whole intervals of that width, the last of which contains `now`. */
  ghost predicate UpToNow(buckets: seq<Bucket>, n: nat, width: int, now: int)
    requires width > 0
  {
    && |buckets| == n
    && (n > 0 ==> buckets[0].start % width == 0 && buckets[n - 1].start <= now < buckets[n - 1].start + width)
    && (forall i :: 0 < i < n ==> buckets[i].start == buckets[i - 1].start + width)
  }

  lemma DaysUpToNow(now: int, n: nat, buckets: seq<Bucket>)
    requires |buckets| == n && forall i :: 0 <= i < n ==> buckets[i].start == DayStart(WindowStart(now, n), i)
    ensures UpToNow(buckets, n, 86_400_000_000_000, now) && (n > 0 ==> buckets[0].start == WindowStart(now, n))
  {
    WindowAligned(now, n);
    assert n > 0 ==> buckets[n - 1].start == FloorDay(now);
  }

  lemma HoursUpToNow(now: int, buckets: seq<Bucket>)
    requires |buckets| == 24 && forall i :: 0 <= i < 24 ==> buckets[i].start == HourStart(FloorHour(now) - 23 * HOUR, i)
    ensures UpToNow(buckets, 24, 3_600_000_000_000, now)
  {
    assert buckets[0].start == FloorHour(now) - 23 * HOUR;
    assert buckets[23].start == FloorHour(now);
  }

  /** 24 consecutive hours, each bar the sum of its rollup rows. */
  ghost predicate ReadsHours(rollups: map<Key, Counts>, a: Actor, oldest: int, buckets: seq<Bucket>) {
    && |buckets| == 24
    && (forall i :: 0 <= i < 24 ==> buckets[i].start == HourStart(oldest, i))
    && (forall i :: 0 <= i < 24 ==> BarRead(rollups, a, oldest, HourGroup(), buckets[i].start, buckets[i]))
  }

  /** When the rollups are in step, every bar is the direct count over its hour. */
  ghost predicate HourlyChart(log: seq<Query>, rollups: map<Key, Counts>, a: Actor, oldest: int, buckets: seq<Bucket>) {
    && ReadsHours(rollups, a, oldest, buckets)
    && (rollups == Rolled(log) ==> forall i :: 0 <= i < 24 ==> BarDirect(log, a, buckets[i], HOUR))
  }

  /** n consecutive days, each bar the sum of its rollup rows. */
  ghost predicate ReadsDays(rollups: map<Key, Counts>, a: Actor, oldest: int, n: nat, buckets: seq<Bucket>) {
    && |buckets| == n
    && (forall i :: 0 <= i < n ==> buckets[i].start == DayStart(oldest, i))
    && (forall i :: 0 <= i < n ==> BarRead(rollups, a, oldest, DayGroup(), TruncDiv(buckets[i].start, DAY), buckets[i]))
  }

  /** When the rollups are in step, all bars are the direct counts exactly when no query is misfiled. */
  ghost predicate DailyChart(log: seq<Query>, rollups: map<Key, Counts>, a: Actor, oldest: int, n: nat,
                             buckets: seq<Bucket>) {
    && ReadsDays(rollups, a, oldest, n, buckets)
    && (rollups == Rolled(log) ==>
          ((forall i :: 0 <= i < n ==> BarDirect(log, a, buckets[i], DAY))
           <==> forall q :: q in log ==> !Misfiled(a, oldest, n)(q)))
  }

  /** From 1970 on nothing is misplaced, so a daily chart of in-step rollups is direct. */
  lemma ModernChartDirect(log: seq<Query>, a: Actor, oldest: int, n: nat, buckets: seq<Bucket>)
    requires oldest >= 0 && DailyChart(log, Rolled(log), a, oldest, n, buckets)
    ensures forall i :: 0 <= i < n ==> BarDirect(log, a, buckets[i], DAY)
  {
    forall q | q in log
      ensures !Misfiled(a, oldest, n)(q)
    {
    }
  }

  lemma HoursAreDirect(log: seq<Query>, a: Actor, oldest: int, buckets: seq<Bucket>)
    requires oldest % HOUR == 0
    requires forall i :: 0 <= i < |buckets| ==> buckets[i].start == HourStart(oldest, i)
    requires forall i :: 0 <= i < |buckets| ==>
               BarRead(Rolled(log), a, oldest, HourGroup(), buckets[i].start, buckets[i])
    ensures forall i :: 0 <= i < |buckets| ==> BarDirect(log, a, buckets[i], HOUR)
  {
    forall i | 0 <= i < |buckets|
      ensures BarDirect(log, a, buckets[i], HOUR)
    {
      HourReadIsDirect(log, a, oldest, buckets[i]);
    }
  }

  lemma DaysAreDirectIff(log: seq<Query>, a: Actor, oldest: int, buckets: seq<Bucket>)
    requires oldest % DAY == 0
    requires forall i :: 0 <= i < |buckets| ==> buckets[i].start == DayStart(oldest, i)
    requires forall i :: 0 <= i < |buckets| ==>
               BarRead(Rolled(log), a, oldest, DayGroup(), TruncDiv(buckets[i].start, DAY), buckets[i])
    ensures (forall i :: 0 <= i < |buckets| ==> BarDirect(log, a, buckets[i], DAY))
       <==> forall q :: q in log ==> !Misfiled(a, oldest, |buckets|)(q)
  {
    DailyChartExactIff(log, a, oldest, |buckets|);
    forall i | 0 <= i < |buckets|
      ensures BarDirect(log, a, buckets[i], DAY) <==> DayDirect(log, a, oldest, DayStart(oldest, i))
    {
      assert BarRead(Rolled(log), a, oldest, DayGroup(), TruncDiv(buckets[i].start, DAY), buckets[i]);
    }
  }

  // ---- Attribution ----

  /** The one device or source actor whose charts show a rollup row. */
  function ActorOfKey(k: Key): Actor {
    if k.mac != "" then Device(k.mac) else Source(k.source)
  }

  ghost function Own(keys: set<Key>, a: Actor): set<Key> {
    set k | k in keys && ActorOfKey(k) == a
  }

  lemma {:induction false} SumOverUnion<K(!new)>(x: set<K>, y: set<K>, f: K -> int)
    requires x !! y
    ensures SumOver(x + y, f) == SumOver(x, f) + SumOver(y, f)
    decreases |x|
  {
    if x == {} {
      assert x + y == y;
    } else {
      var k :| k in x;
      SumOverPick(x, f, k);
      SumOverPick(x + y, f, k);
      assert x + y - {k} == (x - {k}) + y;
      SumOverUnion(x - {k}, y, f);
    }
  }

  /** Splitting rollup rows by actor splits their sum. */
  lemma {:induction false} SumByActor(keys: set<Key>, actors: set<Actor>, f: Key -> int, part: Actor -> int)
    requires forall k :: k in keys ==> ActorOfKey(k) in actors
    requires forall a :: a in actors ==> part(a) == SumOver(Own(keys, a), f)
    ensures SumOver(actors, part) == SumOver(keys, f)
    decreases |actors|
  {
    if actors == {} {
      assert keys == {};
    } else {
      var a :| a in actors;
      var rest := keys - Own(keys, a);
      forall b | b in actors - {a}
        ensures Own(rest, b) == Own(keys, b)
      {
      }
      SumByActor(rest, actors - {a}, f, part);
      SumOverPick(actors, part, a);
      assert keys == Own(keys, a) + rest;
      SumOverUnion(Own(keys, a), rest, f);
    }
  }

  /** Device and source actors that together cover every rollup row of a chart. */
  ghost predicate Covers(actors: set<Actor>, rollups: map<Key, Counts>, since: int) {
    && (forall a :: a in actors ==> a != Everyone && a != Device(""))
    && forall k :: k in rollups && k.bucket >= since ==> ActorOfKey(k) in actors
  }

  ghost function Totals(bars: map<Actor, Bucket>): Actor -> int {
    (a: Actor) => if a in bars then bars[a].total else 0
  }

  ghost function Trackers(bars: map<Actor, Bucket>): Actor -> int {
    (a: Actor) => if a in bars then bars[a].tracker else 0
  }

  lemma OwnIsGroup(rollups: map<Key, Counts>, a: Actor, since: int, group: int -> int, g: int)
    requires a != Everyone && a != Device("")
    ensures Own(GroupKeys(rollups, Everyone, since, group, g), a) == GroupKeys(rollups, a, since, group, g)
  {
  }

  /** In any rollup table, the covering actors' bars add up to the network's bar: no row is lost or counted twice. */
  lemma BarsConserve(rollups: map<Key, Counts>, since: int, group: int -> int, g: int, bars: map<Actor, Bucket>,
                     network: Bucket)
    requires Covers(bars.Keys, rollups, since)
    requires forall a :: a in bars ==> BarRead(rollups, a, since, group, g, bars[a])
    requires BarRead(rollups, Everyone, since, group, g, network)
    ensures SumOver(bars.Keys, Totals(bars)) == network.total && SumOver(bars.Keys, Trackers(bars)) == network.tracker
  {
    var keys := GroupKeys(rollups, Everyone, since, group, g);
    forall a | a in bars
      ensures Totals(bars)(a) == SumOver(Own(keys, a), TotalOf(rollups))
      ensures Trackers(bars)(a) == SumOver(Own(keys, a), TrackerOf(rollups))
    {
      OwnIsGroup(rollups, a, since, group, g);
    }
    SumByActor(keys, bars.Keys, TotalOf(rollups), Totals(bars));
    SumByActor(keys, bars.Keys, TrackerOf(rollups), Trackers(bars));
  }

  /** The actors' bars at one position. */
  ghost function BarsAt(charts: map<Actor, seq<Bucket>>, i: nat): map<Actor, Bucket> {
    map a | a in charts && i < |charts[a]| :: charts[a][i]
  }

  /** Hour by hour, the covering actors' hourly charts add up to the network's. */
  lemma HourlyChartsConserve(rollups: map<Key, Counts>, oldest: int, charts: map<Actor, seq<Bucket>>,
                             network: seq<Bucket>, i: nat)
    requires i < 24 && Covers(charts.Keys, rollups, oldest)
    requires forall a :: a in charts ==> ReadsHours(rollups, a, oldest, charts[a])
    requires ReadsHours(rollups, Everyone, oldest, network)
    ensures SumOver(charts.Keys, Totals(BarsAt(charts, i))) == network[i].total
    ensures SumOver(charts.Keys, Trackers(BarsAt(charts, i))) == network[i].tracker
  {
    var bars := BarsAt(charts, i);
    assert bars.Keys == charts.Keys;
    BarsConserve(rollups, oldest, HourGroup(), HourStart(oldest, i), bars, network[i]);
  }

  /** Day by day, so do the daily charts. */
  lemma DailyChartsConserve(rollups: map<Key, Counts>, oldest: int, n: nat, charts: map<Actor, seq<Bucket>>,
                            network: seq<Bucket>, i: nat)
    requires i < n && Covers(charts.Keys, rollups, oldest)
    requires forall a :: a in charts ==> ReadsDays(rollups, a, oldest, n, charts[a])
    requires ReadsDays(rollups, Everyone, oldest, n, network)
    ensures SumOver(charts.Keys, Totals(BarsAt(charts, i))) == network[i].total
    ensures SumOver(charts.Keys, Trackers(BarsAt(charts, i))) == network[i].tracker
  {
    var bars := BarsAt(charts, i);
    assert bars.Keys == charts.Keys;
    BarsConserve(rollups, oldest, DayGroup(), TruncDiv(DayStart(oldest, i), DAY), bars, network[i]);
  }
}
