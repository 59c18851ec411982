/** The query store: the two tables, its transactions, and the object whose methods run them. */
module Store {
  import opened Seqs
  import opened QueryLog
  import opened Tallies
  import opened Rollups
  import opened Activity
  import opened Charts

  const PURGE_CHUNK_SIZE := 900

  /** The durable state; `nextId` is the AUTOINCREMENT counter. */
  datatype Tables = Tables(queries: seq<Query>, rollups: map<Key, Counts>, nextId: int)

  ghost predicate Consistent(t: Tables) {
    && Ordered(t.queries)
    && LatestId(t.queries) < t.nextId
  }

  /** The cache equals the group-by of the log. */
  ghost predicate InSync(t: Tables) {
    t.rollups == Rolled(t.queries)
  }

  // ---- The transactions as functions ----

  /** The ids AUTOINCREMENT hands to a batch. */
  function Stamp(batch: seq<Query>, nextId: int): seq<Query> {
    seq(|batch|, i requires 0 <= i < |batch| => batch[i].(id := nextId + i))
  }

  function Written(t: Tables, batch: seq<Query>): Tables {
    Tables(t.queries + Stamp(batch, t.nextId), CountRows(t.rollups, batch), t.nextId + |batch|)
  }

  function Purged(t: Tables, ids: set<int>): Tables {
    var rest := DeleteIds(t.queries, ids);
    Tables(rest, Rebuilt(t.rollups, Rolled(rest), TouchedBuckets(t.queries, ids)), t.nextId)
  }

  /** The backfill at open: only an empty rollup table beside a non-empty log is filled. */
  function Opened(t: Tables): Tables {
    if t.rollups != map[] || t.queries == [] then t
    else t.(rollups := GroupBy(t.queries, SqlKeyOf))
  }

  /** One transaction; one that does not commit is rolled back. */
  datatype Txn = Write(batch: seq<Query>, commits: bool) | Purge(ids: set<int>, commits: bool) | Open(commits: bool)

  function Apply(t: Tables, txn: Txn): Tables {
    if !txn.commits then t
    else match txn
      case Write(batch, _) => Written(t, batch)
      case Purge(ids, _) => Purged(t, ids)
      case Open(_) => Opened(t)
  }

  function Run(t: Tables, txns: seq<Txn>): Tables {
    if txns == [] then t else Apply(Run(t, txns[..|txns| - 1]), txns[|txns| - 1])
  }

  // ---- The invariant over whole runs ----

  lemma {:induction false} StampCounts(rollups: map<Key, Counts>, batch: seq<Query>, nextId: int)
    ensures CountRows(rollups, Stamp(batch, nextId)) == CountRows(rollups, batch)
  {
    if batch != [] {
      var init := batch[..|batch| - 1];
      StampCounts(rollups, init, nextId);
      assert Stamp(batch, nextId)[..|batch| - 1] == Stamp(init, nextId);
    }
  }

  lemma WriteKeeps(t: Tables, batch: seq<Query>)
    requires Consistent(t)
    ensures Consistent(Written(t, batch))
    ensures InSync(t) ==> InSync(Written(t, batch))
  {
    StampCounts(t.rollups, batch, t.nextId);
    if InSync(t) {
      CountRowsKeepsView(t.queries, Stamp(batch, t.nextId));
    }
    StampedOrdered(t.queries, batch, t.nextId);
  }

  lemma WriteKeepsBoth(t: Tables, batch: seq<Query>)
    ensures Consistent(t) && InSync(t) ==> Consistent(Written(t, batch)) && InSync(Written(t, batch))
  {
    if Consistent(t) {
      WriteKeeps(t, batch);
    }
  }

  /** The rows of a batch go behind those there, unchanged but for the next ids. */
  lemma NewRows(log: seq<Query>, batch: seq<Query>, nextId: int, rows: seq<Query>)
    requires rows == Stamp(batch, nextId)
    ensures |rows| == |batch| && (log + rows)[..|log|] == log
    ensures forall i :: 0 <= i < |batch| ==> (log + rows)[|log| + i] == batch[i].(id := nextId + i)
  {
    AppendAt(log, rows);
  }

  lemma AppendAt(log: seq<Query>, rows: seq<Query>)
    ensures (log + rows)[..|log|] == log && forall i :: 0 <= i < |rows| ==> (log + rows)[|log| + i] == rows[i]
  {
  }

  lemma StampedOrdered(log: seq<Query>, batch: seq<Query>, nextId: int)
    requires Ordered(log) && LatestId(log) < nextId
    ensures Ordered(log + Stamp(batch, nextId)) && LatestId(log + Stamp(batch, nextId)) < nextId + |batch|
  {
  }

  lemma {:induction false} FilterOrdered(log: seq<Query>, p: Query -> bool)
    requires Ordered(log)
    ensures Ordered(Filter(log, p)) && LatestId(Filter(log, p)) <= LatestId(log)
  {
    if log != [] {
      var init, last := log[..|log| - 1], log[|log| - 1];
      FilterOrdered(init, p);
      assert LatestId(init) < last.id by {
        assert init != [] ==> init[|init| - 1].id < last.id;
      }
      if p(last) {
        OrderedAppend(Filter(init, p), last);
      }
    }
  }

  lemma OrderedAppend(log: seq<Query>, q: Query)
    requires Ordered(log) && LatestId(log) < q.id && q.id > 0
    ensures Ordered(log + [q]) && LatestId(log + [q]) == q.id
  {
  }

  lemma PurgeKeeps(t: Tables, ids: set<int>)
    requires Consistent(t)
    ensures Consistent(Purged(t, ids))
    ensures InSync(t) ==> InSync(Purged(t, ids))
  {
    FilterOrdered(t.queries, NotIn(ids));
    PurgeKeepsView(t.queries, ids);
  }

  /** Reopening never disturbs a table that is already in step, whatever the timestamps. */
  lemma OpenKeeps(t: Tables)
    requires Consistent(t)
    ensures Consistent(Opened(t))
    ensures InSync(t) ==> Opened(t) == t
  {
    if InSync(t) && t.queries != [] {
      assert KeyOf(t.queries[0]) in Rolled(t.queries);
    }
  }

  /** Every sequence of committed and failed writes, purge chunks and reopens keeps the cache exact. */
  lemma {:induction false} RunKeepsRollups(t: Tables, txns: seq<Txn>)
    requires Consistent(t) && InSync(t)
    ensures Consistent(Run(t, txns)) && InSync(Run(t, txns))
  {
    if txns != [] {
      var before, txn := Run(t, txns[..|txns| - 1]), txns[|txns| - 1];
      RunKeepsRollups(t, txns[..|txns| - 1]);
      match txn
      case Write(batch, _) => WriteKeeps(before, batch);
      case Purge(ids, _) => PurgeKeeps(before, ids);
      case Open(_) => OpenKeeps(before);
    }
  }

  /** Opening a file with no rollups yields the view exactly when no row lies inside an hour before 1970. */
  lemma BackfilledIff(t: Tables)
    requires t.rollups == map[]
    ensures InSync(Opened(t)) <==> forall q :: q in t.queries ==> SameHour(q.ts)
  {
    BackfillIsViewIff(t.queries);
    assert t.queries == [] ==> Rolled(t.queries) == map[];
  }

  /** From such a file, any run keeps every rollup row equal to its group's direct count. */
  lemma RollupInvariant(disk: Tables, txns: seq<Txn>, k: Key)
    requires Consistent(disk) && disk.rollups == map[]
    requires forall q :: q in disk.queries ==> SameHour(q.ts)
    ensures var t := Run(Opened(disk), txns);
            && (k in t.rollups <==> Tally(t.queries, HasKey(KeyOf, k)).total > 0)
            && (k in t.rollups ==> t.rollups[k] == Tally(t.queries, HasKey(KeyOf, k)))
  {
    BackfilledIff(disk);
    RunKeepsRollups(Opened(disk), txns);
    RolledRowExistsIffPositive(Run(Opened(disk), txns).queries, k);
  }

  /** A single row half an hour before 1970 is enough for the backfill to file it in the wrong hour. */
  lemma BackfillCounterexample()
    ensures var q := Query(1, "", "10.0.0.7", "a.test.", "A", Blank, -HOUR / 2);
            Consistent(Tables([q], map[], 2)) && !InSync(Opened(Tables([q], map[], 2)))
  {
    var q := Query(1, "", "10.0.0.7", "a.test.", "A", Blank, -HOUR / 2);
    assert q in [q] && !SameHour(q.ts);
    BackfilledIff(Tables([q], map[], 2));
  }

  // ---- Choosing what to purge ----

  function Stale(cutoff: int): Query -> bool {
    (q: Query) => q.ts < cutoff
  }

  function Fresh(cutoff: int): Query -> bool {
    (q: Query) => q.ts >= cutoff
  }

  function IdIn(ids: set<int>): Query -> bool {
    (q: Query) => q.id in ids
  }

  function StaleIds(log: seq<Query>, cutoff: int): set<int> {
    set q | q in log && q.ts < cutoff :: q.id
  }

  /** SELECT id WHERE timestamp < cutoff ORDER BY timestamp LIMIT limit: ties may fall either way. */
  ghost predicate OldestStale(log: seq<Query>, cutoff: int, limit: nat, ids: set<int>) {
    && ids <= StaleIds(log, cutoff)
    && |ids| == (if |StaleIds(log, cutoff)| <= limit then |StaleIds(log, cutoff)| else limit)
    && forall a, b :: a in log && b in log && a.id in ids && b.ts < cutoff && b.id !in ids ==> a.ts <= b.ts
  }

  ghost function IdsOf(log: seq<Query>): set<int> {
    if log == [] then {} else IdsOf(log[..|log| - 1]) + {log[|log| - 1].id}
  }

  lemma {:induction false} IdsOfMembers(log: seq<Query>)
    ensures forall id :: id in IdsOf(log) ==> exists q :: q in log && q.id == id
    ensures forall q :: q in log ==> q.id in IdsOf(log)
  {
    if log != [] {
      var init, last := log[..|log| - 1], log[|log| - 1];
      IdsOfMembers(init);
      assert log == init + [last];
    }
  }

  lemma LastIdIsNew(log: seq<Query>)
    requires Ordered(log) && log != []
    ensures log[|log| - 1].id !in IdsOf(log[..|log| - 1])
  {
    IdsOfMembers(log[..|log| - 1]);
  }

  lemma AddOneId(ids: set<int>, all: set<int>, id: int)
    requires id !in all
    ensures |ids * (all + {id})| == |ids * all| + if id in ids then 1 else 0
  {
    assert ids * (all + {id}) == ids * all + (if id in ids then {id} else {});
  }

  /** Ids are unique, so as many rows carry an id of the set as the set has ids of the log. */
  lemma {:induction false} CountById(log: seq<Query>, ids: set<int>)
    requires Ordered(log)
    ensures |Filter(log, IdIn(ids))| == |ids * IdsOf(log)|
  {
    if log != [] {
      var init, last := log[..|log| - 1], log[|log| - 1];
      CountById(init, ids);
      LastIdIsNew(log);
      AddOneId(ids, IdsOf(init), last.id);
    }
  }

  lemma CountStaleIds(log: seq<Query>, cutoff: int, ids: set<int>)
    requires Ordered(log) && ids <= StaleIds(log, cutoff)
    ensures |Filter(log, IdIn(ids))| == |ids|
  {
    CountById(log, ids);
    IdsOfMembers(log);
    assert ids * IdsOf(log) == ids;
  }

  lemma StaleCount(log: seq<Query>, cutoff: int)
    requires Ordered(log)
    ensures |Filter(log, Stale(cutoff))| == |StaleIds(log, cutoff)|
  {
    CountStaleIds(log, cutoff, StaleIds(log, cutoff));
    forall q | q in log
      ensures Stale(cutoff)(q) == IdIn(StaleIds(log, cutoff))(q)
    {
      if q.id in StaleIds(log, cutoff) {
        var r :| r in log && r.ts < cutoff && r.id == q.id;
        SameRow(log, q, r);
      }
    }
    FilterCongruent(log, Stale(cutoff), IdIn(StaleIds(log, cutoff)));
  }

  lemma SameRow(log: seq<Query>, q: Query, r: Query)
    requires Ordered(log) && q in log && r in log && q.id == r.id
    ensures q == r
  {
  }

  /** The SELECT of one purge chunk. */
  method SelectOldestStale(log: seq<Query>, cutoff: int, limit: nat) returns (ids: set<int>)
    requires Ordered(log)
    ensures OldestStale(log, cutoff, limit, ids)
  {
    ids := {};
    var stale := StaleIds(log, cutoff);
    while |ids| < limit && ids != stale
      invariant ids <= stale && |ids| <= limit && |ids| <= |stale|
      invariant forall a, b :: a in log && b in log && a.id in ids && b.ts < cutoff && b.id !in ids ==> a.ts <= b.ts
      decreases |stale| - |ids|
    {
      var oldest := OldestOutside(log, cutoff, ids);
      Grows(ids, stale, oldest.id);
      forall a, b | a in log && b in log && a.id in ids + {oldest.id} && b.ts < cutoff && b.id !in ids + {oldest.id}
        ensures a.ts <= b.ts
      {
        if a.id == oldest.id {
          SameRow(log, a, oldest);
        }
      }
      ids := ids + {oldest.id};
    }
    Saturates(ids, stale);
  }

  lemma Grows(ids: set<int>, all: set<int>, x: int)
    requires ids <= all && x in all && x !in ids
    ensures |ids + {x}| == |ids| + 1 <= |all|
  {
    Saturates(ids + {x}, all);
  }

  lemma Saturates(ids: set<int>, all: set<int>)
    requires ids <= all
    ensures |ids| <= |all|
  {
    assert all == ids + (all - ids);
  }

  lemma AllOf(ids: set<int>, all: set<int>)
    requires ids <= all
    ensures |ids| == |all| ==> ids == all
  {
    assert all == ids + (all - ids);
  }

  method OldestOutside(log: seq<Query>, cutoff: int, ids: set<int>) returns (oldest: Query)
    requires ids <= StaleIds(log, cutoff) && ids != StaleIds(log, cutoff)
    ensures oldest in log && oldest.ts < cutoff && oldest.id !in ids
    ensures forall b :: b in log && b.ts < cutoff && b.id !in ids ==> oldest.ts <= b.ts
  {
    var id: int :| id in StaleIds(log, cutoff) && id !in ids;
    oldest :| oldest in log && oldest.ts < cutoff && oldest.id == id;
    for i := 0 to |log|
      invariant oldest in log && oldest.ts < cutoff && oldest.id !in ids
      invariant forall j :: 0 <= j < i && log[j].ts < cutoff && log[j].id !in ids ==> oldest.ts <= log[j].ts
    {
      if log[i].ts < cutoff && log[i].id !in ids && log[i].ts < oldest.ts {
        oldest := log[i];
      }
    }
  }

  /** Purging a chunk removes that many stale rows and touches no other row. */
  lemma PurgeRemovesStale(log: seq<Query>, cutoff: int, ids: set<int>)
    requires Ordered(log) && ids <= StaleIds(log, cutoff)
    ensures Filter(DeleteIds(log, ids), Fresh(cutoff)) == Filter(log, Fresh(cutoff))
    ensures |Filter(DeleteIds(log, ids), Stale(cutoff))| == |Filter(log, Stale(cutoff))| - |ids|
    ensures |DeleteIds(log, ids)| == |log| - |ids|
  {
    forall q | q in log
      ensures q.id in ids ==> q.ts < cutoff
    {
      if q.id in ids {
        var r :| r in log && r.ts < cutoff && r.id == q.id;
        SameRow(log, q, r);
      }
    }
    var staleKept := (q: Query) => q.ts < cutoff && q.id !in ids;
    FilterTwice(log, NotIn(ids), Fresh(cutoff), Fresh(cutoff));
    FilterTwice(log, NotIn(ids), Stale(cutoff), staleKept);
    FilterSplit(log, Stale(cutoff), staleKept, IdIn(ids));
    CountStaleIds(log, cutoff, ids);
    var all := (q: Query) => true;
    FilterSplit(log, all, NotIn(ids), IdIn(ids));
    FilterAll(log, all);
  }

  // ---- The two loops of WriteQueries ----

  /** The batch-local aggregation. */
  method Aggregate(batch: seq<Query>) returns (counts: map<Key, Counts>)
    ensures counts == CountRows(map[], batch)
  {
    counts := map[];
    for i := 0 to |batch|
      invariant counts == CountRows(map[], batch[..i])
    {
      var key := KeyOf(batch[i]);
      counts := counts[key := Counts(TotalAt(counts, key) + 1, TrackerAt(counts, key) + TrackerWeight(batch[i]))];
      CountRowsNext(map[], batch, i);
    }
    assert batch[..|batch|] == batch;
  }

  function Only(counts: map<Key, Counts>, keys: set<Key>): map<Key, Counts> {
    map k | k in counts && k in keys :: counts[k]
  }

  lemma OnlyNext(counts: map<Key, Counts>, done: set<Key>, k: Key)
    requires k in counts && k !in done
    ensures Upsert(Only(counts, done), k, counts[k].total, counts[k].tracker) == Only(counts, done + {k})
  {
  }

  /** The additive upserts, one per aggregated key, in whatever order the map yields them. */
  method UpsertAll(rollups: map<Key, Counts>, counts: map<Key, Counts>) returns (table: map<Key, Counts>)
    ensures table == Merge(rollups, counts)
  {
    table := rollups;
    var done: set<Key> := {};
    assert Merge(rollups, Only(counts, {})) == rollups;
    while done != counts.Keys
      invariant done <= counts.Keys
      invariant table == Merge(rollups, Only(counts, done))
      decreases counts.Keys - done
    {
      var k :| k in counts && k !in done;
      OnlyNext(counts, done, k);
      UpsertIntoMerge(rollups, Only(counts, done), k, counts[k].total, counts[k].tracker);
      table := Upsert(table, k, counts[k].total, counts[k].tracker);
      done := done + {k};
    }
    assert Only(counts, counts.Keys) == counts;
  }

  // ---- The object ----

  class Database {
    var queries: seq<Query>
    var rollups: map<Key, Counts>
    var nextId: int

    function View(): Tables
      reads this
    {
      Tables(queries, rollups, nextId)
    }

    /** Opening a database file, with the rollup backfill. */
    constructor (disk: Tables)
      ensures View() == Opened(disk)
    {
      queries, nextId := disk.queries, disk.nextId;
      if disk.rollups == map[] && disk.queries != [] {
        rollups := GroupBy(disk.queries, SqlKeyOf);
      } else {
        rollups := disk.rollups;
      }
    }

    /** Aggregates the batch in a map, then upserts the map's entries in whatever order it yields them. */
    method WriteQueries(batch: seq<Query>, commits: bool) returns (err: bool)
      modifies this
      ensures err == (batch != [] && !commits)
      ensures err ==> View() == old(View())
      ensures !err ==> View() == Written(old(View()), batch)
      ensures !err ==>
                && |queries| == old(|queries|) + |batch| && nextId == old(nextId) + |batch|
                && queries[..old(|queries|)] == old(queries)
                && forall i :: 0 <= i < |batch| ==>
                     queries[old(|queries|) + i] == batch[i].(id := old(nextId) + i)
      ensures old(Consistent(View()) && InSync(View())) ==> Consistent(View()) && InSync(View())
    {
      WriteKeepsBoth(View(), batch);
      NewRows(queries, batch, nextId, Stamp(batch, nextId));
      if batch == [] {
        assert Stamp(batch, nextId) == [];
        return false;
      }
      var counts := Aggregate(batch);
      var table := UpsertAll(rollups, counts);
      CountRowsIsMerge(rollups, batch);
      if !commits {
        return true;
      }
      queries, rollups, nextId := queries + Stamp(batch, nextId), table, nextId + |batch|;
      return false;
    }

    /** One chunk: select, delete, and rebuild each hour that lost a row. */
    method PurgeChunk(cutoff: int, commits: bool) returns (deleted: nat, err: bool, ghost ids: set<int>)
      requires Ordered(queries)
      modifies this
      ensures OldestStale(old(queries), cutoff, PURGE_CHUNK_SIZE, ids)
      ensures err == !commits && deleted == if commits then |ids| else 0
      ensures err ==> View() == old(View())
      ensures !err ==> View() == Purged(old(View()), ids)
      ensures |ids| <= 900 && (|ids| < 900 ==> ids == StaleIds(old(queries), cutoff))
    {
      var chosen := SelectOldestStale(queries, cutoff, PURGE_CHUNK_SIZE);
      AllOf(chosen, StaleIds(queries, cutoff));
      ids := chosen;
      if !commits {
        return 0, true, chosen;
      }
      var rest := DeleteIds(queries, chosen);
      var buckets := TouchedBuckets(queries, chosen);
      var table, done := rollups, {};
      assert Rebuilt(rollups, Rolled(rest), {}) == rollups;
      while done != buckets
        modifies {}
        invariant done <= buckets
        invariant table == Rebuilt(rollups, Rolled(rest), done)
        decreases buckets - done
      {
        var bucket :| bucket in buckets && bucket !in done;
        RebuildNext(rollups, rest, done, bucket);
        table := RebuildBucket(table, rest, bucket);
        done := done + {bucket};
      }
      queries, rollups := rest, table;
      return |chosen|, false, chosen;
    }

    /** Chunk after chunk until one deletes nothing or fails; `commits(i)` says whether chunk i commits. */
    method PurgeQueriesOlderThan(cutoff: int, commits: nat -> bool) returns (total: nat, err: bool)
      requires Consistent(View())
      modifies this
      ensures Consistent(View()) && nextId == old(nextId)
      ensures old(InSync(View())) ==> InSync(View())
      ensures Filter(queries, Fresh(cutoff)) == Filter(old(queries), Fresh(cutoff))
      ensures total == |old(queries)| - |queries|
      ensures !err ==> queries == Filter(old(queries), Fresh(cutoff))
      ensures !err ==> forall q :: q in queries <==> q in old(queries) && q.ts >= cutoff
      ensures err ==> exists i: nat :: !commits(i)
    {
      total := 0;
      var chunk := 0;
      while true
        invariant Consistent(View()) && nextId == old(nextId)
        invariant old(InSync(View())) ==> InSync(View())
        invariant Filter(queries, Fresh(cutoff)) == Filter(old(queries), Fresh(cutoff))
        invariant total == |old(queries)| - |queries|
        decreases |StaleIds(queries, cutoff)|
      {
        ghost var before := View();
        var deleted, failed, ids := PurgeChunk(cutoff, commits(chunk));
        PurgeKeeps(before, ids);
        PurgeRemovesStale(before.queries, cutoff, ids);
        StaleCount(before.queries, cutoff);
        StaleCount(queries, cutoff);
        total := total + deleted;
        if failed || deleted == 0 {
          if !failed {
            assert StaleIds(before.queries, cutoff) == {};
            NothingStale(before.queries, cutoff, ids);
            FilterMembers(old(queries), Fresh(cutoff));
          }
          return total, failed;
        }
        chunk := chunk + 1;
      }
    }

    /** The 24 hours up to the current one. */
    method HourlyActivity(now: int, a: Actor) returns (buckets: seq<Bucket>)
      ensures UpToNow(buckets, 24, 3_600_000_000_000, now)
      ensures HourlyChart(queries, rollups, a, buckets[0].start, buckets)
    {
      var oldest := FloorHour(now) - 23 * HOUR;
      var counts := SumByGroup(rollups, a, oldest, HourGroup());
      buckets := [];
      for i := 0 to 24
        invariant |buckets| == i
        invariant forall j :: 0 <= j < i ==> buckets[j].start == HourStart(oldest, j)
        invariant forall j :: 0 <= j < i ==> BarRead(rollups, a, oldest, HourGroup(), buckets[j].start, buckets[j])
      {
        var start := HourStart(oldest, i);
        BarForReads(counts, rollups, a, oldest, HourGroup(), start, start);
        buckets := buckets + [BarFor(counts, start, start)];
      }
      HoursUpToNow(now, buckets);
      if rollups == Rolled(queries) {
        HoursAreDirect(queries, a, oldest, buckets);
      }
    }

    /** The `n` UTC days up to the current one. */
    method DailyActivity(now: int, a: Actor, n: nat) returns (buckets: seq<Bucket>)
      ensures UpToNow(buckets, n, 86_400_000_000_000, now)
      ensures n > 0 ==> DailyChart(queries, rollups, a, buckets[0].start, n, buckets)
    {
      var oldest := WindowStart(now, n);
      var counts := SumByGroup(rollups, a, oldest, DayGroup());
      buckets := [];
      for i := 0 to n
        invariant |buckets| == i
        invariant forall j :: 0 <= j < i ==> buckets[j].start == DayStart(oldest, j)
        invariant forall j :: 0 <= j < i ==>
                    BarRead(rollups, a, oldest, DayGroup(), TruncDiv(buckets[j].start, DAY), buckets[j])
      {
        var start := DayStart(oldest, i);
        BarForReads(counts, rollups, a, oldest, DayGroup(), TruncDiv(start, DAY), start);
        buckets := buckets + [BarFor(counts, TruncDiv(start, DAY), start)];
      }
      DaysUpToNow(now, n, buckets);
      WindowAligned(now, n);
      if rollups == Rolled(queries) {
        DaysAreDirectIff(queries, a, oldest, buckets);
      }
      assert DailyChart(queries, rollups, a, oldest, n, buckets);
    }

    /** Each range has its own chart, of hours or of days; any other range is an error. */
    method RangedActivity(now: int, a: Actor, range: string) returns (r: RangeResult)
      ensures r.InvalidRange? <==> range !in {"", "24h", "7d", "30d"}
      ensures range in {"", "24h"} ==> UpToNow(r.buckets, 24, 3_600_000_000_000, now)
      ensures range == "7d" ==> UpToNow(r.buckets, 7, 86_400_000_000_000, now)
      ensures range == "30d" ==> UpToNow(r.buckets, 30, 86_400_000_000_000, now)
      ensures range in {"", "24h"} ==> HourlyChart(queries, rollups, a, r.buckets[0].start, r.buckets)
      ensures range == "7d" ==> DailyChart(queries, rollups, a, r.buckets[0].start, 7, r.buckets)
      ensures range == "30d" ==> DailyChart(queries, rollups, a, r.buckets[0].start, 30, r.buckets)
    {
      if range == "" || range == "24h" {
        var buckets := HourlyActivity(now, a);
        return Buckets(buckets);
      } else if range == "7d" {
        var buckets := DailyActivity(now, a, 7);
        return Buckets(buckets);
      } else if range == "30d" {
        var buckets := DailyActivity(now, a, 30);
        return Buckets(buckets);
      }
      return InvalidRange;
    }
  }

  lemma NothingStale(log: seq<Query>, cutoff: int, ids: set<int>)
    requires StaleIds(log, cutoff) == {} && ids == {}
    ensures DeleteIds(log, ids) == log == Filter(log, Fresh(cutoff))
  {
  }
}
