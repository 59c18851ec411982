/** The activity charts: sums over rollup rows, and why they equal direct counts over the log. */
module Activity {
  import opened Seqs
  import opened QueryLog
  import opened Tallies
  import opened Rollups

  const DAY := 86_400_000_000_000

  /** Whose queries a chart shows; the zero-value filter shows everyone's. */
  datatype Actor = Everyone | Device(mac: string) | Source(ip: string)

  /** The actor clause, evaluated on a rollup row. */
  predicate KeyMatches(a: Actor, k: Key) {
    match a
    case Everyone => true
    case Device(mac) => k.mac == mac
    case Source(ip) => k.mac == "" && k.source == ip
  }

  /** The same clause, evaluated on a row of the log. */
  predicate QueryMatches(a: Actor, q: Query) {
    match a
    case Everyone => true
    case Device(mac) => q.mac == mac
    case Source(ip) => q.mac == "" && q.source == ip
  }

  /** One bar of a chart. */
  datatype Bucket = Bucket(start: int, total: int, tracker: int)

  /** The actor's queries in the half-open interval. */
  function InSpan(a: Actor, from: int, to: int): Query -> bool {
    (q: Query) => from <= q.ts < to && QueryMatches(a, q)
  }

  function HourGroup(): int -> int {
    (bucket: int) => bucket
  }

  /** `bucket_start / day` in SQL. */
  function DayGroup(): int -> int {
    (bucket: int) => TruncDiv(bucket, DAY)
  }

  /** The rollup rows a chart query puts in group `g`. */
  ghost function GroupKeys(rollups: map<Key, Counts>, a: Actor, since: int, group: int -> int, g: int): set<Key> {
    set k | k in rollups && k.bucket >= since && KeyMatches(a, k) && group(k.bucket) == g
  }

  ghost function TotalOf(rollups: map<Key, Counts>): Key -> int {
    (k: Key) => TotalAt(rollups, k)
  }

  ghost function TrackerOf(rollups: map<Key, Counts>): Key -> int {
    (k: Key) => TrackerAt(rollups, k)
  }

  ghost predicate SumsTo(rollups: map<Key, Counts>, keys: set<Key>, total: int, tracker: int) {
    total == SumOver(keys, TotalOf(rollups)) && tracker == SumOver(keys, TrackerOf(rollups))
  }

  /** SELECT group, SUM(total_count), SUM(tracker_count) ... WHERE ... GROUP BY group. */
  method SumByGroup(rollups: map<Key, Counts>, a: Actor, since: int, group: int -> int) returns (sums: map<int, Counts>)
    ensures IsResultSet(sums, rollups, a, since, group)
  {
    sums := map[];
    var pending := rollups.Keys;
    while pending != {}
      invariant pending <= rollups.Keys
      invariant forall g :: g in sums ==>
        SumsTo(rollups, GroupKeys(rollups, a, since, group, g) - pending, sums[g].total, sums[g].tracker)
      invariant forall g :: g !in sums ==> GroupKeys(rollups, a, since, group, g) - pending == {}
      decreases pending
    {
      var k :| k in pending;
      ghost var before, seen := sums, pending;
      pending := pending - {k};
      if k.bucket >= since && KeyMatches(a, k) {
        var g := group(k.bucket);
        ghost var keys := GroupKeys(rollups, a, since, group, g);
        SumOverPick(keys - pending, TotalOf(rollups), k);
        SumOverPick(keys - pending, TrackerOf(rollups), k);
        assert keys - pending - {k} == keys - seen;
        if g in sums {
          sums := sums[g := Counts(sums[g].total + rollups[k].total, sums[g].tracker + rollups[k].tracker)];
        } else {
          sums := sums[g := rollups[k]];
        }
        assert SumsTo(rollups, keys - pending, sums[g].total, sums[g].tracker);
        forall h | h != g
          ensures GroupKeys(rollups, a, since, group, h) - pending == GroupKeys(rollups, a, since, group, h) - seen
        {
        }
      } else {
        forall h
          ensures GroupKeys(rollups, a, since, group, h) - pending == GroupKeys(rollups, a, since, group, h) - seen
        {
        }
      }
    }
    forall g
      ensures GroupKeys(rollups, a, since, group, g) - {} == GroupKeys(rollups, a, since, group, g)
    {
    }
  }

  /** A set of rollup rows sums to the direct count of the queries filed under them. */
  lemma SumIsTally(log: seq<Query>, keys: set<Key>, p: Query -> bool)
    requires forall q :: q in log ==> p(q) == (KeyOf(q) in keys)
    ensures SumsTo(Rolled(log), keys, Tally(log, p).total, Tally(log, p).tracker)
  {
    forall k | k in keys
      ensures TotalOf(Rolled(log))(k) == Tally(log, HasKey(KeyOf, k)).total
      ensures TrackerOf(Rolled(log))(k) == Tally(log, HasKey(KeyOf, k)).tracker
    {
      GroupByRow(log, KeyOf, k);
    }
    SumOfTallies(log, KeyOf, keys, TotalOf(Rolled(log)), TrackerOf(Rolled(log)));
    TallyCongruent(log, p, KeyIn(KeyOf, keys));
  }

  lemma KeyOfMatches(a: Actor, q: Query)
    ensures KeyMatches(a, KeyOf(q)) == QueryMatches(a, q)
  {
  }

  lemma Listed(log: seq<Query>, q: Query)
    requires q in log
    ensures KeyOf(q) in Rolled(log)
  {
  }

  /** An hourly bar read off the rollups is the direct count over its hour. */
  lemma HourBarIsDirect(log: seq<Query>, a: Actor, since: int, start: int)
    requires start % HOUR == 0 && since <= start
    ensures SumsTo(Rolled(log), GroupKeys(Rolled(log), a, since, HourGroup(), start),
                   Tally(log, InSpan(a, start, start + HOUR)).total, Tally(log, InSpan(a, start, start + HOUR)).tracker)
  {
    var keys := GroupKeys(Rolled(log), a, since, HourGroup(), start);
    forall q | q in log
      ensures InSpan(a, start, start + HOUR)(q) == (KeyOf(q) in keys)
    {
      Listed(log, q);
      KeyOfMatches(a, q);
      OneHour(q.ts, start);
    }
    SumIsTally(log, keys, InSpan(a, start, start + HOUR));
  }

  lemma DayQuotient(ns: int, k: int)
    requires k * DAY <= ns < k * DAY + DAY
    ensures ns / DAY == k
  {
  }

  /** Rounding down to the hour never crosses a whole number of hours. */
  lemma FloorKeepsHours(ts: int, q: int)
    ensures q * HOUR <= ts <==> q * HOUR <= FloorHour(ts)
  {
  }

  /** For a window at or after 1970, SQL's day key selects exactly the hours of that day. */
  lemma OneDay(ts: int, since: int, start: int)
    requires since >= 0 && start >= since && since % DAY == 0 && start % DAY == 0
    ensures FloorHour(ts) >= since && TruncDiv(FloorHour(ts), DAY) == TruncDiv(start, DAY)
       <==> start <= ts < start + DAY
  {
    var d := start / DAY;
    assert start == d * DAY == 24 * d * HOUR;
    FloorKeepsHours(ts, 24 * d);
    FloorKeepsHours(ts, 24 * d + 24);
    DayQuotient(start, d);
    if start <= ts < start + DAY {
      DayQuotient(FloorHour(ts), d);
    } else if FloorHour(ts) >= since {
      var e := FloorHour(ts) / DAY;
      assert e * DAY <= FloorHour(ts) < e * DAY + DAY;
    }
  }

  ghost predicate DayDirect(log: seq<Query>, a: Actor, oldest: int, start: int) {
    SumsTo(Rolled(log), GroupKeys(Rolled(log), a, oldest, DayGroup(), TruncDiv(start, DAY)),
           Tally(log, InSpan(a, start, start + DAY)).total, Tally(log, InSpan(a, start, start + DAY)).tracker)
  }

  /** A daily bar regroups whole hours, so it too is the direct count, once the window starts after 1970. */
  lemma DayBarIsDirect(log: seq<Query>, a: Actor, since: int, start: int)
    requires since >= 0 && start >= since && since % DAY == 0 && start % DAY == 0
    ensures DayDirect(log, a, since, start)
  {
    var keys := GroupKeys(Rolled(log), a, since, DayGroup(), TruncDiv(start, DAY));
    forall q | q in log
      ensures InSpan(a, start, start + DAY)(q) == (KeyOf(q) in keys)
    {
      Listed(log, q);
      KeyOfMatches(a, q);
      OneDay(q.ts, since, start);
    }
    SumIsTally(log, keys, InSpan(a, start, start + DAY));
  }

  /** The i-th day of a window: AddDate(0, 0, i) in UTC. */
  function DayStart(oldest: int, i: int): int {
    oldest + i * DAY
  }

  /** Every bar of an n-day chart over this log is the direct count. */
  ghost predicate DailyChartDirect(log: seq<Query>, a: Actor, oldest: int, n: nat) {
    forall i :: 0 <= i < n ==> DayDirect(log, a, oldest, DayStart(oldest, i))
  }

  /** The daily charts are direct counts of every log exactly when the window starts at or after 1970. */
  lemma DailyChartDirectIff(a: Actor, oldest: int, n: nat)
    requires n > 0 && oldest % DAY == 0
    ensures (forall log :: DailyChartDirect(log, a, oldest, n)) <==> oldest >= 0
  {
    if oldest >= 0 {
      forall log: seq<Query>
        ensures DailyChartDirect(log, a, oldest, n)
      {
        DailyChartIsDirect(log, a, oldest, n);
      }
    } else {
      NegativeDayMiscounts(a, oldest, n);
    }
  }

  lemma DailyChartIsDirect(log: seq<Query>, a: Actor, oldest: int, n: nat)
    requires oldest >= 0 && oldest % DAY == 0
    ensures DailyChartDirect(log, a, oldest, n)
  {
    forall i | 0 <= i < n
      ensures DayDirect(log, a, oldest, DayStart(oldest, i))
    {
      DayAligned(oldest, i);
      DayBarIsDirect(log, a, oldest, DayStart(oldest, i));
    }
  }

  lemma DayAligned(oldest: int, i: nat)
    requires oldest % DAY == 0
    ensures DayStart(oldest, i) % DAY == 0 && DayStart(oldest, i) >= oldest
  {
  }

  /** A query of the actor one hour into the window's first day. */
  function Witness(a: Actor, oldest: int): Query {
    Query(1, if a.Device? then a.mac else "", if a.Source? then a.ip else "", "a.test.", "A", Blank, oldest + HOUR)
  }

  lemma NegativeDayMiscounts(a: Actor, oldest: int, n: nat)
    requires oldest < 0 && oldest % DAY == 0 && n > 0
    ensures !DailyChartDirect([Witness(a, oldest)], a, oldest, n)
  {
    WitnessMissed(a, oldest);
    assert DayStart(oldest, 0) == oldest;
  }

  lemma WitnessHour(oldest: int)
    requires oldest % DAY == 0
    ensures FloorHour(oldest + HOUR) == oldest + HOUR
  {
    var k := oldest / DAY;
    assert oldest == 24 * k * HOUR;
    FloorKeepsHours(oldest + HOUR, 24 * k + 1);
  }

  /** Truncation files the witness's hour under the next day. */
  lemma WitnessDay(oldest: int, k: int)
    requires k > 0 && oldest == -(k * DAY)
    ensures TruncDiv(oldest, DAY) == -k && TruncDiv(oldest + HOUR, DAY) == 1 - k
  {
  }

  lemma WitnessMissed(a: Actor, oldest: int)
    requires oldest < 0 && oldest % DAY == 0
    ensures !DayDirect([Witness(a, oldest)], a, oldest, oldest)
  {
    var q := Witness(a, oldest);
    var log := [q];
    assert q in log && InSpan(a, oldest, oldest + DAY)(q);
    TallyPositive(log, InSpan(a, oldest, oldest + DAY));
    var keys := GroupKeys(Rolled(log), a, oldest, DayGroup(), TruncDiv(oldest, DAY));
    WitnessHour(oldest);
    WitnessDay(oldest, -oldest / DAY);
    forall k | k in Rolled(log)
      ensures k !in keys
    {
      assert k == KeyOf(q);
    }
    assert keys == {};
  }

  /** The bar shows exactly the actor's logged queries in its interval. */
  ghost predicate BarDirect(log: seq<Query>, a: Actor, bar: Bucket, width: int) {
    && bar.total == Tally(log, InSpan(a, bar.start, bar.start + width)).total
    && bar.tracker == Tally(log, InSpan(a, bar.start, bar.start + width)).tracker
  }

  /** Truncate(24 * time.Hour). */
  function FloorDay(ts: int): (d: int)
    ensures d <= ts < d + DAY && d % DAY == 0
  {
    ts / DAY * DAY
  }

  /** The first day of an n-day window. */
  function WindowStart(now: int, n: nat): int {
    FloorDay(now) - (n - 1) * DAY
  }

  lemma WindowAligned(now: int, n: nat)
    ensures WindowStart(now, n) % DAY == 0
  {
  }

  function HourStart(oldest: int, i: int): int {
    oldest + i * HOUR
  }

  /** The bar sums the rollup rows that SQL puts in group `g`. */
  ghost predicate BarRead(rollups: map<Key, Counts>, a: Actor, since: int, group: int -> int, g: int, bar: Bucket) {
    SumsTo(rollups, GroupKeys(rollups, a, since, group, g), bar.total, bar.tracker)
  }

  lemma HourReadIsDirect(log: seq<Query>, a: Actor, oldest: int, bar: Bucket)
    requires oldest % HOUR == 0 && bar.start % HOUR == 0 && bar.start >= oldest
    requires BarRead(Rolled(log), a, oldest, HourGroup(), bar.start, bar)
    ensures BarDirect(log, a, bar, HOUR)
  {
    HourBarIsDirect(log, a, oldest, bar.start);
  }

  /** The bar for group `g` from the statement's result set; a missing group is an empty bar. */
  function BarFor(sums: map<int, Counts>, g: int, start: int): Bucket {
    if g in sums then Bucket(start, sums[g].total, sums[g].tracker) else Bucket(start, 0, 0)
  }

  ghost predicate IsResultSet(sums: map<int, Counts>, rollups: map<Key, Counts>, a: Actor, since: int,
                              group: int -> int) {
    && (forall g :: g in sums ==>
          SumsTo(rollups, GroupKeys(rollups, a, since, group, g), sums[g].total, sums[g].tracker))
    && (forall g :: g !in sums ==> GroupKeys(rollups, a, since, group, g) == {})
  }

  lemma BarForReads(sums: map<int, Counts>, rollups: map<Key, Counts>, a: Actor, since: int, group: int -> int,
                    g: int, start: int)
    requires IsResultSet(sums, rollups, a, since, group)
    ensures BarRead(rollups, a, since, group, g, BarFor(sums, g, start)) && BarFor(sums, g, start).start == start
  {
  }

  datatype RangeResult = Buckets(buckets: seq<Bucket>) | InvalidRange

  // ---- Attribution ----

  /** The one actor a query is attributed to. */
  function ActorOf(q: Query): Actor {
    if q.mac != "" then Device(q.mac) else Source(q.source)
  }

  ghost function SpanTotal(log: seq<Query>, from: int, to: int): Actor -> int {
    (a: Actor) => Tally(log, InSpan(a, from, to)).total
  }

  ghost function SpanTracker(log: seq<Query>, from: int, to: int): Actor -> int {
    (a: Actor) => Tally(log, InSpan(a, from, to)).tracker
  }

  /** Two queries are counted in one rollup row exactly when they have the same actor and hour, whatever the address. */
  lemma SharesRowIff(q: Query, r: Query)
    ensures KeyOf(q) == KeyOf(r) <==> ActorOf(q) == ActorOf(r) && FloorHour(q.ts) == FloorHour(r.ts)
    ensures KeyOf(q) == Key(FloorHour(q.ts), q.mac, if q.mac == "" then q.source else "")
  {
  }

  /** Device and source charts add up to the network chart: no query is lost or counted twice. */
  lemma AttributionConserves(log: seq<Query>, actors: set<Actor>, from: int, to: int)
    requires forall a :: a in actors ==> a != Everyone && a != Device("")
    requires forall q :: q in log && from <= q.ts < to ==> ActorOf(q) in actors
    ensures SumOver(actors, SpanTotal(log, from, to)) == Tally(log, InSpan(Everyone, from, to)).total
    ensures SumOver(actors, SpanTracker(log, from, to)) == Tally(log, InSpan(Everyone, from, to)).tracker
  {
    var inSpan := InSpan(Everyone, from, to);
    var span := Filter(log, inSpan);
    forall a | a in actors
      ensures SpanTotal(log, from, to)(a) == Tally(span, HasKey(ActorOf, a)).total
      ensures SpanTracker(log, from, to)(a) == Tally(span, HasKey(ActorOf, a)).tracker
    {
      TallyOfFilter(log, inSpan, HasKey(ActorOf, a), InSpan(a, from, to));
    }
    SumOfTallies(span, ActorOf, actors, SpanTotal(log, from, to), SpanTracker(log, from, to));
    TallyOfFilter(log, inSpan, KeyIn(ActorOf, actors), inSpan);
  }
}
