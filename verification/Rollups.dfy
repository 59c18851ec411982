/** The hourly rollup table as a view of the query log, and the three ways the store maintains it. */
module Rollups {
  import opened Seqs
  import opened QueryLog
  import opened Tallies

  const HOUR := 3_600_000_000_000

  /** Truncate(time.Hour) of an instant: rounds down, also before 1970. */
  function FloorHour(ts: int): (b: int)
    ensures b <= ts < b + HOUR && b % HOUR == 0
  {
    ts / HOUR * HOUR
  }

  /** Go's and SQLite's integer division by a positive number: rounds toward zero. */
  function TruncDiv(a: int, b: int): int
    requires b > 0
  {
    if a >= 0 then a / b else -(-a / b)
  }

  datatype Key = Key(bucket: int, mac: string, source: string)

  function SourceKey(q: Query): string {
    if q.mac == "" then q.source else ""
  }

  function KeyFor(bucket: int, q: Query): Key {
    Key(bucket, q.mac, SourceKey(q))
  }

  /** The rollup row `WriteQueries` counts a query in. */
  function KeyOf(q: Query): Key {
    KeyFor(FloorHour(q.ts), q)
  }

  /** The rollup row the backfill's SQL counts a query in: `timestamp / hour * hour`. */
  function SqlKeyOf(q: Query): Key {
    KeyFor(TruncDiv(q.ts, HOUR) * HOUR, q)
  }

  /** SELECT key, COUNT(*), tracker SUM ... GROUP BY key. */
  function GroupBy(log: seq<Query>, keyOf: Query -> Key): map<Key, Counts> {
    map k | k in (set q | q in log :: keyOf(q)) :: Tally(log, HasKey(keyOf, k))
  }

  /** What the rollup table must hold for a given log. */
  function Rolled(log: seq<Query>): map<Key, Counts> {
    GroupBy(log, KeyOf)
  }

  /** A rollup row exists exactly when its group is non-empty, and then holds the group's counts. */
  lemma RolledRowExistsIffPositive(log: seq<Query>, k: Key)
    ensures k in Rolled(log) <==> Tally(log, HasKey(KeyOf, k)).total > 0
    ensures k in Rolled(log) ==> Rolled(log)[k] == Tally(log, HasKey(KeyOf, k))
  {
    TallyPositive(log, HasKey(KeyOf, k));
  }

  function TotalAt(rollups: map<Key, Counts>, k: Key): int {
    if k in rollups then rollups[k].total else 0
  }

  function TrackerAt(rollups: map<Key, Counts>, k: Key): int {
    if k in rollups then rollups[k].tracker else 0
  }

  /** A group-by is determined by the count of every group, listed or not. */
  lemma GroupByIs(log: seq<Query>, keyOf: Query -> Key, m: map<Key, Counts>)
    requires forall k :: k in m ==> m[k].total > 0
    requires forall k :: TotalAt(m, k) == Tally(log, HasKey(keyOf, k)).total
    requires forall k :: TrackerAt(m, k) == Tally(log, HasKey(keyOf, k)).tracker
    ensures m == GroupBy(log, keyOf)
  {
    forall k
      ensures k in m <==> k in GroupBy(log, keyOf)
      ensures k in m ==> m[k] == GroupBy(log, keyOf)[k]
    {
      assert TotalAt(m, k) == Tally(log, HasKey(keyOf, k)).total;
      assert TrackerAt(m, k) == Tally(log, HasKey(keyOf, k)).tracker;
      TallyPositive(log, HasKey(keyOf, k));
    }
  }

  lemma GroupByRow(log: seq<Query>, keyOf: Query -> Key, k: Key)
    ensures TotalAt(GroupBy(log, keyOf), k) == Tally(log, HasKey(keyOf, k)).total
    ensures TrackerAt(GroupBy(log, keyOf), k) == Tally(log, HasKey(keyOf, k)).tracker
    ensures k in GroupBy(log, keyOf) ==> GroupBy(log, keyOf)[k].total > 0
  {
    TallyPositive(log, HasKey(keyOf, k));
  }

  // ---- Writing ----

  /** INSERT ... ON CONFLICT DO UPDATE SET counts = counts + excluded. */
  function Upsert(rollups: map<Key, Counts>, k: Key, total: int, tracker: int): map<Key, Counts> {
    rollups[k := Counts(TotalAt(rollups, k) + total, TrackerAt(rollups, k) + tracker)]
  }

  /** What one query adds to its row's tracker count. */
  function TrackerWeight(q: Query): int {
    if IsTrackingCategory(q.category) then 1 else 0
  }

  /** Row-by-row counting: one upsert per query. */
  function CountRows(rollups: map<Key, Counts>, rows: seq<Query>): map<Key, Counts> {
    if rows == [] then rollups
    else
      var last := rows[|rows| - 1];
      Upsert(CountRows(rollups, rows[..|rows| - 1]), KeyOf(last), 1, TrackerWeight(last))
  }

  lemma CountRowsNext(rollups: map<Key, Counts>, rows: seq<Query>, i: nat)
    requires i < |rows|
    ensures CountRows(rollups, rows[..i + 1])
         == Upsert(CountRows(rollups, rows[..i]), KeyOf(rows[i]), 1, TrackerWeight(rows[i]))
  {
    assert rows[..i + 1][..i] == rows[..i];
  }

  /** Adding every row of `b` to `a`. */
  function Merge(a: map<Key, Counts>, b: map<Key, Counts>): map<Key, Counts> {
    map k | k in a.Keys + b.Keys ::
      Counts(TotalAt(a, k) + TotalAt(b, k), TrackerAt(a, k) + TrackerAt(b, k))
  }

  lemma TallyOne(q: Query, p: Query -> bool)
    ensures Tally([q], p).total == if p(q) then 1 else 0
    ensures Tally([q], p).tracker == if p(q) then TrackerWeight(q) else 0
  {
    FilterOne(q, p);
    FilterOne(q, Tracked(p));
    TrackingTestsAgree(q.category);
  }

  lemma {:induction false} CountRowsIsMerge(rollups: map<Key, Counts>, rows: seq<Query>)
    ensures CountRows(rollups, rows) == Merge(rollups, CountRows(map[], rows))
  {
    if rows != [] {
      var init, last := rows[..|rows| - 1], rows[|rows| - 1];
      CountRowsIsMerge(rollups, init);
      UpsertIntoMerge(rollups, CountRows(map[], init), KeyOf(last), 1, TrackerWeight(last));
    }
  }

  lemma UpsertIntoMerge(a: map<Key, Counts>, b: map<Key, Counts>, k: Key, total: int, tracker: int)
    ensures Upsert(Merge(a, b), k, total, tracker) == Merge(a, Upsert(b, k, total, tracker))
  {
    assert Upsert(Merge(a, b), k, total, tracker).Keys == Merge(a, Upsert(b, k, total, tracker)).Keys;
  }

  /** Counting rows into the view of a log gives the view of the longer log. */
  lemma {:induction false} CountRowsKeepsView(log: seq<Query>, rows: seq<Query>)
    ensures CountRows(Rolled(log), rows) == Rolled(log + rows)
  {
    if rows == [] {
      assert log + rows == log;
    } else {
      var init, last := rows[..|rows| - 1], rows[|rows| - 1];
      CountRowsKeepsView(log, init);
      assert log + rows == log + init + [last];
      UpsertKeepsView(log + init, last);
    }
  }

  lemma UpsertKeepsView(log: seq<Query>, q: Query)
    ensures Upsert(Rolled(log), KeyOf(q), 1, TrackerWeight(q)) == Rolled(log + [q])
  {
    var m := Upsert(Rolled(log), KeyOf(q), 1, TrackerWeight(q));
    forall k
      ensures TotalAt(m, k) == Tally(log + [q], HasKey(KeyOf, k)).total
      ensures TrackerAt(m, k) == Tally(log + [q], HasKey(KeyOf, k)).tracker
      ensures k in m ==> m[k].total > 0
    {
      GroupByRow(log, KeyOf, k);
      GroupByRow(log, KeyOf, KeyOf(q));
      TallyConcat(log, [q], HasKey(KeyOf, k));
      TallyOne(q, HasKey(KeyOf, k));
    }
    GroupByIs(log + [q], KeyOf, m);
  }

  // ---- Purging ----

  function NotIn(ids: set<int>): Query -> bool {
    (q: Query) => q.id !in ids
  }

  /** DELETE FROM queries WHERE id IN (ids). */
  function DeleteIds(log: seq<Query>, ids: set<int>): seq<Query> {
    Filter(log, NotIn(ids))
  }

  /** The hours that lose a row. */
  function TouchedBuckets(log: seq<Query>, ids: set<int>): set<int> {
    set q | q in log && q.id in ids :: FloorHour(q.ts)
  }

  function InHour(bucket: int): Query -> bool {
    (q: Query) => bucket <= q.ts < bucket + HOUR
  }

  function KeyAt(bucket: int): Query -> Key {
    (q: Query) => KeyFor(bucket, q)
  }

  function Without(rollups: map<Key, Counts>, bucket: int): map<Key, Counts> {
    map k | k in rollups && k.bucket != bucket :: rollups[k]
  }

  /** Delete one hour's rows, then insert the group-by of the hour's remaining queries. */
  function RebuildBucket(rollups: map<Key, Counts>, log: seq<Query>, bucket: int): map<Key, Counts> {
    Without(rollups, bucket) + GroupBy(Filter(log, InHour(bucket)), KeyAt(bucket))
  }

  /** The rebuilt hours come from `view`, every other hour is kept. */
  function Rebuilt(rollups: map<Key, Counts>, view: map<Key, Counts>, buckets: set<int>): map<Key, Counts> {
    map k | k in rollups.Keys + view.Keys && (if k.bucket in buckets then k in view else k in rollups) ::
      if k.bucket in buckets then view[k] else rollups[k]
  }

  function Slice(view: map<Key, Counts>, bucket: int): map<Key, Counts> {
    map k | k in view && k.bucket == bucket :: view[k]
  }

  /** One hour's group-by is the matching slice of the whole view. */
  lemma HourSlice(log: seq<Query>, bucket: int)
    requires bucket % HOUR == 0
    ensures GroupBy(Filter(log, InHour(bucket)), KeyAt(bucket)) == Slice(Rolled(log), bucket)
  {
    var hour := Filter(log, InHour(bucket));
    var slice := Slice(Rolled(log), bucket);
    forall k
      ensures TotalAt(slice, k) == Tally(hour, HasKey(KeyAt(bucket), k)).total
      ensures TrackerAt(slice, k) == Tally(hour, HasKey(KeyAt(bucket), k)).tracker
      ensures k in slice ==> slice[k].total > 0
    {
      GroupByRow(log, KeyOf, k);
      if k.bucket == bucket {
        forall q | q in log
          ensures HasKey(KeyOf, k)(q) == (InHour(bucket)(q) && HasKey(KeyAt(bucket), k)(q))
        {
          OneHour(q.ts, bucket);
        }
        TallyOfFilter(log, InHour(bucket), HasKey(KeyAt(bucket), k), HasKey(KeyOf, k));
      } else {
        TallyPositive(hour, HasKey(KeyAt(bucket), k));
      }
    }
    GroupByIs(hour, KeyAt(bucket), slice);
  }

  lemma OneHour(ts: int, bucket: int)
    requires bucket % HOUR == 0
    ensures FloorHour(ts) == bucket <==> bucket <= ts < bucket + HOUR
  {
  }

  lemma SliceNext(rollups: map<Key, Counts>, view: map<Key, Counts>, done: set<int>, bucket: int)
    ensures Without(Rebuilt(rollups, view, done), bucket) + Slice(view, bucket)
         == Rebuilt(rollups, view, done + {bucket})
  {
  }

  lemma RebuildNext(rollups: map<Key, Counts>, log: seq<Query>, done: set<int>, bucket: int)
    requires bucket % HOUR == 0
    ensures RebuildBucket(Rebuilt(rollups, Rolled(log), done), log, bucket)
         == Rebuilt(rollups, Rolled(log), done + {bucket})
  {
    HourSlice(log, bucket);
    SliceNext(rollups, Rolled(log), done, bucket);
  }

  /** Deleting any rows and rebuilding just the hours they were in gives the view of what remains. */
  lemma PurgeKeepsView(log: seq<Query>, ids: set<int>)
    ensures Rebuilt(Rolled(log), Rolled(DeleteIds(log, ids)), TouchedBuckets(log, ids)) == Rolled(DeleteIds(log, ids))
  {
    var rest, touched := DeleteIds(log, ids), TouchedBuckets(log, ids);
    var m := Rebuilt(Rolled(log), Rolled(rest), touched);
    forall k
      ensures TotalAt(m, k) == Tally(rest, HasKey(KeyOf, k)).total
      ensures TrackerAt(m, k) == Tally(rest, HasKey(KeyOf, k)).tracker
      ensures k in m ==> m[k].total > 0
    {
      GroupByRow(rest, KeyOf, k);
      GroupByRow(log, KeyOf, k);
      if k.bucket !in touched {
        forall q | q in log
          ensures HasKey(KeyOf, k)(q) == (NotIn(ids)(q) && HasKey(KeyOf, k)(q))
        {
        }
        TallyOfFilter(log, NotIn(ids), HasKey(KeyOf, k), HasKey(KeyOf, k));
      }
    }
    GroupByIs(rest, KeyOf, m);
  }

  // ---- Backfilling ----

  /** Truncation and flooring agree on a timestamp exactly here. */
  predicate SameHour(ts: int) {
    ts >= 0 || ts % HOUR == 0
  }

  lemma BucketsAgree(ts: int)
    ensures TruncDiv(ts, HOUR) * HOUR == FloorHour(ts) + (if SameHour(ts) then 0 else HOUR)
  {
  }

  lemma {:induction false} EarliestOffender(log: seq<Query>) returns (q: Query)
    requires exists x :: x in log && !SameHour(x.ts)
    ensures q in log && !SameHour(q.ts)
    ensures forall x :: x in log && !SameHour(x.ts) ==> FloorHour(q.ts) <= FloorHour(x.ts)
  {
    var init, last := log[..|log| - 1], log[|log| - 1];
    assert forall x :: x in log <==> x in init || x == last;
    if exists x :: x in init && !SameHour(x.ts) {
      q := EarliestOffender(init);
      if !SameHour(last.ts) && FloorHour(last.ts) < FloorHour(q.ts) {
        q := last;
      }
    } else {
      q := last;
    }
  }

  /** The backfill computes the view exactly when no row is inside an hour before 1970. */
  lemma BackfillIsViewIff(log: seq<Query>)
    ensures GroupBy(log, SqlKeyOf) == Rolled(log) <==> forall q :: q in log ==> SameHour(q.ts)
  {
    if forall q :: q in log ==> SameHour(q.ts) {
      forall q | q in log
        ensures SqlKeyOf(q) == KeyOf(q)
      {
        BucketsAgree(q.ts);
      }
      forall k
        ensures TotalAt(Rolled(log), k) == Tally(log, HasKey(SqlKeyOf, k)).total
        ensures TrackerAt(Rolled(log), k) == Tally(log, HasKey(SqlKeyOf, k)).tracker
        ensures k in Rolled(log) ==> Rolled(log)[k].total > 0
      {
        GroupByRow(log, KeyOf, k);
        TallyCongruent(log, HasKey(KeyOf, k), HasKey(SqlKeyOf, k));
      }
      GroupByIs(log, SqlKeyOf, Rolled(log));
    } else {
      BackfillMiscounts(log);
    }
  }

  /** The earliest misplaced row's hour ends up one short. */
  lemma BackfillMiscounts(log: seq<Query>)
    requires exists q :: q in log && !SameHour(q.ts)
    ensures GroupBy(log, SqlKeyOf) != Rolled(log)
  {
    var q := EarliestOffender(log);
    var k := KeyOf(q);
    var only := (x: Query) => KeyOf(x) == k && SqlKeyOf(x) != k;
    forall x | x in log
      ensures HasKey(SqlKeyOf, k)(x) ==> HasKey(KeyOf, k)(x)
    {
      BucketsAgree(x.ts);
      if SqlKeyOf(x) == k && !SameHour(x.ts) {
        assert false;
      }
    }
    BucketsAgree(q.ts);
    TallySplit(log, HasKey(KeyOf, k), HasKey(SqlKeyOf, k), only);
    TallyPositive(log, only);
    GroupByRow(log, KeyOf, k);
    GroupByRow(log, SqlKeyOf, k);
  }
}
