/** The spliced stream is exact: which rows a client gets, and exactly when none is missing. */
module Splice {
  import opened Seqs
  import opened QueryLog
  import opened HubProtocol
  import opened HubInvariants
  import opened HubTheorems
  import opened StreamHandler

  function Max(a: int, b: int): int {
    if a < b then b else a
  }

  function Past(after: int, f: FeedFilter): Query -> bool {
    (q: Query) => q.id > after && MatchesFeedFilter(q, f)
  }

  /** On ids in increasing order the moving cursor skips nothing it has not already written. */
  lemma {:induction false} StreamedIsFilter(after: int, incoming: seq<Query>, f: FeedFilter)
    requires Ordered(incoming)
    ensures Streamed(after, incoming, f) == Filter(incoming, Past(after, f))
  {
    if incoming != [] {
      var init, q := incoming[..|incoming| - 1], incoming[|incoming| - 1];
      StreamedIsFilter(after, init, f);
      var before := Streamed(after, init, f);
      if before != [] {
        FilterMembers(init, Past(after, f));
        var last := before[|before| - 1];
        assert last in before && last in init;
        assert after < last.id < q.id;
      }
    }
  }

  // ---- The snapshot ----

  /** How far a snapshot reaches: to the end of the log it read, or to its last row when the limit cut it. */
  function Covered(log: seq<Query>, after: int, initial: seq<Query>, limit: nat): int {
    if |initial| < limit then Max(after, LatestId(log)) else LatestId(initial)
  }

  lemma SnapshotSelects(log: seq<Query>, after: int, f: FeedFilter)
    requires Ordered(log)
    ensures Filter(log, Selected(after, f)) == Sel(log, after, Max(after, LatestId(log)), f)
  {
    forall q | q in log
      ensures Selected(after, f)(q) == Owed(after, Max(after, LatestId(log)), f)(q)
    {
      FiltersAgree(q, after, f);
      var i :| 0 <= i < |log| && log[i] == q;
      assert log[i].id <= log[|log| - 1].id;
    }
    FilterCongruent(log, Selected(after, f), Owed(after, Max(after, LatestId(log)), f));
  }

  lemma {:induction false} FilterKeepsOrder(log: seq<Query>, p: Query -> bool)
    requires Ordered(log)
    ensures Ordered(Filter(log, p))
    ensures forall i :: 0 <= i < |Filter(log, p)| ==> Filter(log, p)[i].id <= LatestId(log)
  {
    if log != [] {
      var init, last := log[..|log| - 1], log[|log| - 1];
      FilterKeepsOrder(init, p);
      assert init != [] ==> LatestId(init) < last.id;
      assert forall i :: 0 <= i < |Filter(init, p)| ==> Filter(init, p)[i].id < last.id;
    }
  }

  /** A prefix of an ordered selection is the selection up to its last id. */
  lemma PrefixIsSel(log: seq<Query>, a: int, b: int, f: FeedFilter, n: nat)
    requires Ordered(log) && 0 < n <= |Sel(log, a, b, f)|
    ensures var x := Sel(log, a, b, f)[n - 1].id; a < x <= b && Sel(log, a, b, f)[..n] == Sel(log, a, x, f)
  {
    var all := Sel(log, a, b, f);
    var x := all[n - 1].id;
    SelMembers(log, a, b, f);
    assert all[n - 1] in all;
    SelSplit(log, a, x, b, f);
    FilterKeepsOrder(log, Owed(a, b, f));
    var low, high := Sel(log, a, x, f), Sel(log, x, b, f);
    SelMembers(log, a, x, f);
    SelMembers(log, x, b, f);
    assert all == low + high;
    assert forall i :: 0 <= i < |low| ==> low[i] in low;
    assert forall i :: 0 <= i < |high| ==> high[i] in high;
    SplitPoint(all, low, high, n, x);
  }

  lemma SplitPoint(all: seq<Query>, low: seq<Query>, high: seq<Query>, n: nat, x: int)
    requires Ordered(all) && all == low + high && 0 < n <= |all| && all[n - 1].id == x
    requires forall i :: 0 <= i < |low| ==> low[i].id <= x
    requires forall i :: 0 <= i < |high| ==> high[i].id > x
    ensures |low| == n
  {
    assert forall i :: |low| <= i < |all| ==> all[i] == high[i - |low|];
    PosIs(all, x, |low|);
    PosIs(all, x, n);
  }

  /** The snapshot holds every owed row up to where it reaches, and none is owed between its last row and there. */
  lemma SnapshotExact(log: seq<Query>, after: int, f: FeedFilter, limit: nat)
    requires Ordered(log) && limit > 0
    ensures var initial := QueryFeed(log, after, f, limit);
            var covered := Covered(log, after, initial, limit);
            && after <= CursorAfter(after, initial) <= covered <= Max(after, LatestId(log))
            && initial == Sel(log, after, covered, f)
            && Sel(log, CursorAfter(after, initial), covered, f) == []
  {
    var all := Filter(log, Selected(after, f));
    var initial := QueryFeed(log, after, f, limit);
    SnapshotSelects(log, after, f);
    var top := Max(after, LatestId(log));
    if |all| >= limit {
      PrefixIsSel(log, after, top, f, limit);
      assert initial == all[..limit];
    }
    var covered := Covered(log, after, initial, limit);
    assert initial == Sel(log, after, covered, f);
    NothingAfterLast(log, after, covered, f);
  }

  lemma NothingAfterLast(log: seq<Query>, a: int, b: int, f: FeedFilter)
    requires Ordered(log) && a <= b
    ensures a <= CursorAfter(a, Sel(log, a, b, f)) <= b
    ensures Sel(log, CursorAfter(a, Sel(log, a, b, f)), b, f) == []
  {
    var rows := Sel(log, a, b, f);
    SelMembers(log, a, b, f);
    if rows != [] {
      assert rows[|rows| - 1] in rows;
      PrefixIsSel(log, a, b, f, |rows|);
      SelSplit(log, a, LatestId(rows), b, f);
      assert rows[..|rows|] == rows;
    }
  }

  // ---- The channel ----

  /** Around a slice of consecutive rows: ids up to `start` before it, above its last id after it. */
  lemma SliceIds(log: seq<Query>, start: int, s: nat, n: nat)
    requires Ordered(log) && 0 < n && s == Pos(log, start) && s + n <= |log|
    ensures forall q :: q in log[..s] ==> q.id <= start
    ensures forall q :: q in log[s..s + n] ==> start < q.id <= log[s + n - 1].id
    ensures forall q :: q in log[s + n..] ==> q.id > log[s + n - 1].id
  {
    PosSplits(log, start);
  }

  /** Only the slice has rows between `start` and its last id. */
  lemma SliceSelects(log: seq<Query>, start: int, s: nat, n: nat, after: int, f: FeedFilter)
    requires Ordered(log) && 0 < n && s == Pos(log, start) && s + n <= |log|
    ensures Sel(log, Max(start, after), log[s + n - 1].id, f) == Filter(log[s..s + n], Past(after, f))
  {
    var low, mid, high, last := log[..s], log[s..s + n], log[s + n..], log[s + n - 1].id;
    SliceIds(log, start, s, n);
    MiddleSelects(low, mid, high, start, last, after, f);
    ThreeParts(log, s, s + n);
  }

  lemma MiddleSelects(low: seq<Query>, mid: seq<Query>, high: seq<Query>, start: int, last: int, after: int,
                      f: FeedFilter)
    requires forall q :: q in low ==> q.id <= start
    requires forall q :: q in mid ==> start < q.id <= last
    requires forall q :: q in high ==> q.id > last
    ensures Sel(low + mid + high, Max(start, after), last, f) == Filter(mid, Past(after, f))
  {
    var owed := Owed(Max(start, after), last, f);
    FilterConcat(low + mid, high, owed);
    FilterConcat(low, mid, owed);
    FilterNone(low, owed);
    FilterNone(high, owed);
    FilterCongruent(mid, Past(after, f), owed);
  }

  lemma SliceOrdered(log: seq<Query>, s: nat, n: nat)
    requires Ordered(log) && s + n <= |log|
    ensures Ordered(log[s..s + n])
  {
  }

  /** The first `n` rows after `start`: what a channel opened at `start` delivers. */
  function RowsFrom(log: seq<Query>, start: int, n: nat): seq<Query>
    requires Pos(log, start) + n <= |log|
  {
    log[Pos(log, start)..Pos(log, start) + n]
  }

  lemma RowsFromLast(log: seq<Query>, start: int, n: nat)
    requires Ordered(log) && n > 0 && Pos(log, start) + n <= |log|
    ensures RowsFrom(log, start, n) != []
    ensures LatestId(RowsFrom(log, start, n)) == log[Pos(log, start) + n - 1].id > start
  {
    PosSplits(log, start);
  }

  /** What the receive loop writes out of the rows after `start`. */
  lemma ChannelPart(log: seq<Query>, start: int, n: nat, after: int, f: FeedFilter)
    requires Ordered(log) && 0 < n && Pos(log, start) + n <= |log|
    ensures var rows := RowsFrom(log, start, n);
            Streamed(after, rows, f) == Sel(log, Max(start, after), LatestId(rows), f)
  {
    var s := Pos(log, start);
    SliceOrdered(log, s, n);
    StreamedIsFilter(after, log[s..s + n], f);
    SliceSelects(log, start, s, n, after, f);
    RowsFromLast(log, start, n);
  }

  // ---- The splice ----

  /** The owed rows between the client's cursor and the hub's cursor when it subscribed. */
  function Backlog(log: seq<Query>, after: int, start: int, f: FeedFilter): seq<Query> {
    Sel(log, after, start, f)
  }

  /** Where a stream has got to: past its snapshot, and past the last row received if any. */
  function Reached(snapshot: seq<Query>, after: int, initial: seq<Query>, limit: nat, incoming: seq<Query>): int {
    if incoming == [] then Covered(snapshot, after, initial, limit)
    else Max(Covered(snapshot, after, initial, limit), LatestId(incoming))
  }

  lemma SelGap(log: seq<Query>, a: int, b: int, c: int, d: int, f: FeedFilter)
    requires Sel(log, a, d, f) == [] && a <= b && c <= d
    ensures Sel(log, b, c, f) == []
  {
    SelMembers(log, a, d, f);
    forall q | q in log && b < q.id <= c
      ensures !MatchesFeedFilter(q, f)
    {
      assert q !in Sel(log, a, d, f);
    }
    SelEmpty(log, b, c, f);
  }

  /** With cursor a, snapshot up to b (last row m) and channel rows (start, p], only (b, start] can be missing. */
  lemma SpliceAlgebra(log: seq<Query>, a: int, m: int, b: int, start: int, p: int, f: FeedFilter)
    requires Ordered(log) && a <= m <= b && start <= p && Sel(log, m, b, f) == []
    ensures Sel(log, a, b, f) + Sel(log, Max(start, m), p, f) == Sel(log, a, Max(b, p), f)
        <==> b >= start || Sel(log, b, start, f) == []
  {
    var c := Max(start, m);
    if p <= b {
      SelGap(log, m, c, p, b, f);
    } else {
      SelSplit(log, a, b, p, f);
      if start <= b {
        SelSplit(log, c, b, p, f);
        SelGap(log, m, c, b, b, f);
      } else {
        SelSplit(log, b, start, p, f);
      }
    }
  }

  /** The client's events are exactly the owed rows up to where the stream has got to. */
  ghost predicate StreamExact(snapshot: seq<Query>, full: seq<Query>, after: int, incoming: seq<Query>, f: FeedFilter,
                              limit: nat) {
    var initial := QueryFeed(snapshot, after, f, limit);
    ClientEvents(after, initial, incoming, f) == Sel(full, after, Reached(snapshot, after, initial, limit, incoming), f)
  }

  lemma SnapshotAloneExact(snapshot: seq<Query>, full: seq<Query>, after: int, f: FeedFilter, limit: nat)
    requires Ordered(full) && snapshot <= full && limit > 0
    ensures StreamExact(snapshot, full, after, [], f, limit)
  {
    SnapshotOfFull(snapshot, full, after, f, limit);
  }

  /** The spliced stream is exact iff the backlog fits in the snapshot, or nothing has arrived on the channel yet. */
  lemma SpliceExactIff(snapshot: seq<Query>, full: seq<Query>, after: int, start: int, n: nat, f: FeedFilter,
                       limit: nat)
    requires Ordered(full) && snapshot <= full && limit > 0
    requires start <= LatestId(snapshot) && Pos(full, start) + n <= |full|
    ensures StreamExact(snapshot, full, after, RowsFrom(full, start, n), f, limit)
        <==> n == 0 || |Backlog(snapshot, after, start, f)| <= limit
  {
    if n == 0 {
      assert RowsFrom(full, start, 0) == [];
      SnapshotAloneExact(snapshot, full, after, f, limit);
    } else {
      SpliceWithRows(snapshot, full, after, start, n, f, limit);
      BacklogFits(snapshot, full, after, start, f, limit);
    }
  }

  lemma SpliceWithRows(snapshot: seq<Query>, full: seq<Query>, after: int, start: int, n: nat, f: FeedFilter,
                       limit: nat)
    requires Ordered(full) && snapshot <= full && limit > 0 && n > 0
    requires Pos(full, start) + n <= |full|
    ensures var b := Covered(snapshot, after, QueryFeed(snapshot, after, f, limit), limit);
            StreamExact(snapshot, full, after, RowsFrom(full, start, n), f, limit)
            <==> b >= start || Sel(full, b, start, f) == []
  {
    var initial := QueryFeed(snapshot, after, f, limit);
    var m, b := CursorAfter(after, initial), Covered(snapshot, after, initial, limit);
    var p := LatestId(RowsFrom(full, start, n));
    JoinedStream(snapshot, full, after, start, n, f, limit);
    SnapshotOfFull(snapshot, full, after, f, limit);
    RowsFromLast(full, start, n);
    SpliceAlgebra(full, after, m, b, start, p, f);
  }

  /** The stream is the snapshot's interval followed by the channel's. */
  lemma JoinedStream(snapshot: seq<Query>, full: seq<Query>, after: int, start: int, n: nat, f: FeedFilter, limit: nat)
    requires Ordered(full) && snapshot <= full && limit > 0 && n > 0
    requires Pos(full, start) + n <= |full|
    ensures var initial := QueryFeed(snapshot, after, f, limit);
            var m, b := CursorAfter(after, initial), Covered(snapshot, after, initial, limit);
            ClientEvents(after, initial, RowsFrom(full, start, n), f)
              == Sel(full, after, b, f) + Sel(full, Max(start, m), LatestId(RowsFrom(full, start, n)), f)
  {
    SnapshotOfFull(snapshot, full, after, f, limit);
    ChannelPart(full, start, n, CursorAfter(after, QueryFeed(snapshot, after, f, limit)), f);
  }

  /** The snapshot's rows, restated on a log that has grown since. */
  lemma SnapshotOfFull(snapshot: seq<Query>, full: seq<Query>, after: int, f: FeedFilter, limit: nat)
    requires Ordered(full) && snapshot <= full && limit > 0
    ensures var initial := QueryFeed(snapshot, after, f, limit);
            var m, b := CursorAfter(after, initial), Covered(snapshot, after, initial, limit);
            after <= m <= b && initial == Sel(full, after, b, f) && Sel(full, m, b, f) == []
  {
    var more := full[|snapshot|..];
    assert full == snapshot + more;
    OrderedPrefix(snapshot, more);
    SnapshotExact(snapshot, after, f, limit);
    var initial := QueryFeed(snapshot, after, f, limit);
    SnapshotInFullLog(snapshot, more, after, CursorAfter(after, initial), Covered(snapshot, after, initial, limit), f);
  }

  /** What the snapshot read still holds of the grown log; past the old end it reached nothing new. */
  lemma SnapshotInFullLog(log: seq<Query>, more: seq<Query>, after: int, m: int, b: int, f: FeedFilter)
    requires Ordered(log + more) && b <= Max(after, LatestId(log)) && after <= m <= b
    ensures Sel(log + more, after, b, f) == Sel(log, after, b, f)
    ensures Sel(log + more, m, b, f) == Sel(log, m, b, f)
  {
    if b <= LatestId(log) {
      SelStable(log, more, after, b, f);
      SelStable(log, more, m, b, f);
    } else {
      SelEmpty(log + more, after, b, f);
      SelEmpty(log, after, b, f);
      SelEmpty(log + more, m, b, f);
      SelEmpty(log, m, b, f);
    }
  }

  /** Rows are missing between the snapshot and the subscription exactly when the backlog exceeds the limit. */
  lemma BacklogFits(snapshot: seq<Query>, full: seq<Query>, after: int, start: int, f: FeedFilter, limit: nat)
    requires Ordered(full) && snapshot <= full && limit > 0 && start <= LatestId(snapshot)
    ensures var b := Covered(snapshot, after, QueryFeed(snapshot, after, f, limit), limit);
            b >= start || Sel(full, b, start, f) == [] <==> |Backlog(snapshot, after, start, f)| <= limit
  {
    var more := full[|snapshot|..];
    assert full == snapshot + more;
    OrderedPrefix(snapshot, more);
    SnapshotExact(snapshot, after, f, limit);
    var b := Covered(snapshot, after, QueryFeed(snapshot, after, f, limit), limit);
    if b < start {
      SelStable(snapshot, more, b, start, f);
      SelSplit(snapshot, after, b, start, f);
    } else if after <= start {
      SelSplit(snapshot, after, start, b, f);
    } else {
      SelEmpty(snapshot, after, start, f);
    }
  }

  /** Whatever the backlog, a client's events have strictly increasing ids: none is repeated or out of order. */
  lemma EventsIncrease(snapshot: seq<Query>, full: seq<Query>, after: int, start: int, n: nat, f: FeedFilter,
                       limit: nat)
    requires Ordered(full) && snapshot <= full && limit > 0 && Pos(full, start) + n <= |full|
    ensures Ordered(ClientEvents(after, QueryFeed(snapshot, after, f, limit), RowsFrom(full, start, n), f))
  {
    var initial := QueryFeed(snapshot, after, f, limit);
    var m, b := CursorAfter(after, initial), Covered(snapshot, after, initial, limit);
    assert full == snapshot + full[|snapshot|..];
    OrderedPrefix(snapshot, full[|snapshot|..]);
    SnapshotExact(snapshot, after, f, limit);
    FilterKeepsOrder(snapshot, Owed(after, b, f));
    var incoming := RowsFrom(full, start, n);
    SliceOrdered(full, Pos(full, start), n);
    StreamedIsFilter(m, incoming, f);
    FilterKeepsOrder(incoming, Past(m, f));
    FilterMembers(incoming, Past(m, f));
    JoinOrdered(initial, Streamed(m, incoming, f), m);
  }

  lemma JoinOrdered(a: seq<Query>, b: seq<Query>, m: int)
    requires Ordered(a) && Ordered(b) && (a != [] ==> m == LatestId(a))
    requires forall q :: q in b ==> q.id > m
    ensures Ordered(a + b)
  {
  }

  // ---- Over every run of the hub ----

  /** The rows client `id` has taken from its channel. */
  function Received(h: Hub, id: nat): seq<Query> {
    if id < |h.s.channels| then Take(h.s.channels[id].sent, h.s.channels[id].taken) else []
  }

  lemma SentSlice(log: seq<Query>, lastId: int, c: Channel, open: bool)
    requires Ordered(log) && ChannelOk(log, lastId, c, open)
    ensures Pos(log, c.start) + c.taken <= |log|
    ensures Take(c.sent, c.taken) == RowsFrom(log, c.start, c.taken)
  {
  }

  /** What any client of a hub in a good state has received after any further steps. */
  lemma ReceivedRows(h: Hub, id: nat, steps: seq<Step>) returns (n: nat)
    requires Inv(h) && id < |h.s.channels|
    ensures Ordered(Exec(h, steps).log) && h.log <= Exec(h, steps).log
    ensures h.s.channels[id].start <= LatestId(Exec(h, steps).log)
    ensures Pos(Exec(h, steps).log, h.s.channels[id].start) + n <= |Exec(h, steps).log|
    ensures Received(Exec(h, steps), id) == RowsFrom(Exec(h, steps).log, h.s.channels[id].start, n)
  {
    var h' := Exec(h, steps);
    ExecKeeps(h, steps);
    ExecGrows(h, steps);
    LatestGrows(h.log, h'.log);
    assert ChannelOk(h.log, h.s.lastId, h.s.channels[id], id in h.s.subs);
    assert ChannelGrows(h.s.channels[id], h'.s.channels[id]);
    SentSlice(h'.log, h'.s.lastId, h'.s.channels[id], id in h'.s.subs);
    n := h'.s.channels[id].taken;
  }

  /** For any channel of a hub in a good state. */
  lemma ChannelStreamExactIff(h: Hub, id: nat, between: seq<Step>, later: seq<Step>, after: int, f: FeedFilter,
                              limit: nat)
    requires Inv(h) && id < |h.s.channels| && limit > 0
    ensures var received := Received(Exec(h, between + later), id);
            StreamExact(Exec(h, between).log, Exec(h, between + later).log, after, received, f, limit)
            <==> received == [] || |Backlog(Exec(h, between).log, after, h.s.channels[id].start, f)| <= limit
  {
    var m := ReceivedRows(h, id, between);
    var n := ReceivedRows(h, id, between + later);
    ExecConcat(h, between, later);
    ExecGrows(Exec(h, between), later);
    SpliceExactIff(Exec(h, between).log, Exec(h, between + later).log, after, h.s.channels[id].start, n, f, limit);
  }

  lemma FreshChannel(h0: Hub)
    requires Inv(h0) && !Locked(h0.phase)
    ensures Inv(Next(h0, Subscribe(true)))
    ensures |h0.s.channels| < |Next(h0, Subscribe(true)).s.channels|
    ensures Next(h0, Subscribe(true)).s.channels[|h0.s.channels|].start == Next(h0, Subscribe(true)).s.lastId
  {
    StepKeeps(h0, Subscribe(true));
  }

  /**
   A client that subscribes at any reachable state with the mutex free, takes its snapshot at any later one and
   receives any number of rows by any later one: its stream is exact iff its backlog fits in the snapshot.
   */
  lemma ClientStreamExactIff(batchSize: nat, disk: seq<Query>, before: seq<Step>, between: seq<Step>, later: seq<Step>,
                             after: int, f: FeedFilter, limit: nat)
    requires Ordered(disk) && limit > 0 && !Locked(Exec(Initial(batchSize, disk), before).phase)
    ensures var h0 := Exec(Initial(batchSize, disk), before);
            var h1 := Next(h0, Subscribe(true));
            var received := Received(Exec(h1, between + later), |h0.s.channels|);
            StreamExact(Exec(h1, between).log, Exec(h1, between + later).log, after, received, f, limit)
            <==> received == [] || |Backlog(Exec(h1, between).log, after, h1.s.lastId, f)| <= limit
  {
    var h0 := Exec(Initial(batchSize, disk), before);
    ReachableInv(batchSize, disk, before);
    FreshChannel(h0);
    ChannelStreamExactIff(Next(h0, Subscribe(true)), |h0.s.channels|, between, later, after, f, limit);
  }

  /** One subscriber waits at row `b` in a hub whose log has just grown by `c`, announced. */
  lemma OneRowAppended(batchSize: nat, a: Query, b: Query, c: Query) returns (steps: seq<Step>, h: Hub)
    requires 0 < a.id < b.id < c.id
    ensures Exec(Next(Initial(batchSize, [a, b]), Subscribe(true)), steps) == h
    ensures h.phase.Parked? && h.log == [a, b, c] && h.batchSize == batchSize
    ensures h.s == Shared([Channel(b.id, b.id, [], 0, 0, 0)], {0}, b.id, true, false, true)
  {
    var h1 := Next(Initial(batchSize, [a, b]), Subscribe(true));
    assert h1.s == Shared([Channel(b.id, b.id, [], 0, 0, 0)], {0}, b.id, true, false, false);
    steps, h := Extend(h1, [], h1, Append([c]));
    steps, h := Extend(h1, steps, h, Notify);
  }

  /** The loop is about to read `c`. */
  lemma OneRowAwaited(batchSize: nat, a: Query, b: Query, c: Query) returns (steps: seq<Step>, h: Hub)
    requires 0 < a.id < b.id < c.id
    ensures Exec(Next(Initial(batchSize, [a, b]), Subscribe(true)), steps) == h
    ensures h.phase == Fetching(b.id, 0) && h.log == [a, b, c] && h.batchSize == batchSize
    ensures h.s.lastId == b.id && h.s.subs == {0} && h.s.channels == [Channel(b.id, b.id, [], 0, 0, 0)]
  {
    var h1 := Next(Initial(batchSize, [a, b]), Subscribe(true));
    steps, h := OneRowAppended(batchSize, a, b, c);
    steps, h := Extend(h1, steps, h, TakeWake);
    steps, h := Extend(h1, steps, h, Begin);
  }

  lemma OneRowFetched(batchSize: nat, a: Query, b: Query, c: Query) returns (steps: seq<Step>, h: Hub)
    requires 0 < a.id < b.id < c.id && batchSize > 0
    ensures Exec(Next(Initial(batchSize, [a, b]), Subscribe(true)), steps) == h
    ensures Locked(h.phase) && h.phase.rows == [c] && h.phase.done == 0 && h.s.lastId == b.id && h.s.subs == {0}
    ensures h.s.channels == [Channel(b.id, b.id, [], 0, 0, 0)]
  {
    var h1 := Next(Initial(batchSize, [a, b]), Subscribe(true));
    steps, h := OneRowAwaited(batchSize, a, b, c);
    FetchIsNext([a, b, c], b.id, batchSize);
    PosIs([a, b, c], b.id, 2);
    assert [a, b, c][2..] == [c];
    steps, h := Extend(h1, steps, h, Fetch(true));
    steps, h := Extend(h1, steps, h, Publish);
  }

  lemma OneRowReceived(batchSize: nat, a: Query, b: Query, c: Query) returns (steps: seq<Step>)
    requires 0 < a.id < b.id < c.id && batchSize > 0
    ensures Received(Exec(Next(Initial(batchSize, [a, b]), Subscribe(true)), steps), 0) == [c]
  {
    var h1 := Next(Initial(batchSize, [a, b]), Subscribe(true));
    var h: Hub;
    steps, h := OneRowFetched(batchSize, a, b, c);
    steps, h := Extend(h1, steps, h, Send);
    assert h.s.channels[0].sent == [c];
    steps, h := Extend(h1, steps, h, Consume(0));
  }

  /**
   The condition can fail: a client that asks for everything after 0 with limit 1, subscribes at a hub already at row
   two and then receives row three has a stream with a gap.
   */
  lemma LongBacklogLeavesGap(batchSize: nat, a: Query, b: Query, c: Query) returns (later: seq<Step>)
    requires 0 < a.id < b.id < c.id && batchSize > 0
    ensures var h1 := Next(Initial(batchSize, [a, b]), Subscribe(true));
            !StreamExact(h1.log, Exec(h1, later).log, 0, Received(Exec(h1, later), 0), NO_FILTER, 1)
  {
    later := OneRowReceived(batchSize, a, b, c);
    var h1 := Next(Initial(batchSize, [a, b]), Subscribe(true));
    ClientStreamExactIff(batchSize, [a, b], [], [], later, 0, NO_FILTER, 1);
    assert [] + later == later && Exec(h1, []) == h1 && h1.s.lastId == b.id;
    FilterAll([a, b], Owed(0, b.id, NO_FILTER));
    assert Backlog(h1.log, 0, b.id, NO_FILTER) == [a, b];
  }

  /** A client without a cursor, whose start is the latest id read some time after subscribing: always exact. */
  lemma FreshClientStreamExact(batchSize: nat, disk: seq<Query>, before: seq<Step>, toCursor: seq<Step>,
                               toSnapshot: seq<Step>, later: seq<Step>, f: FeedFilter, limit: nat)
    requires Ordered(disk) && limit > 0 && !Locked(Exec(Initial(batchSize, disk), before).phase)
    ensures var h0 := Exec(Initial(batchSize, disk), before);
            var h1 := Next(h0, Subscribe(true));
            var after := LatestId(Exec(h1, toCursor).log);
            var between := toCursor + toSnapshot;
            StreamExact(Exec(h1, between).log, Exec(h1, between + later).log, after,
                        Received(Exec(h1, between + later), |h0.s.channels|), f, limit)
  {
    var h0 := Exec(Initial(batchSize, disk), before);
    var h1 := Next(h0, Subscribe(true));
    var after := LatestId(Exec(h1, toCursor).log);
    ReachableInv(batchSize, disk, before);
    FreshChannel(h0);
    var n := ReceivedRows(h1, |h0.s.channels|, toCursor);
    NoBacklog(Exec(h1, toCursor + toSnapshot).log, after, h1.s.lastId, f);
    ClientStreamExactIff(batchSize, disk, before, toCursor + toSnapshot, later, after, f, limit);
  }

  /** A cursor at or past the hub's has no backlog. */
  lemma NoBacklog(log: seq<Query>, after: int, start: int, f: FeedFilter)
    requires start <= after
    ensures Backlog(log, after, start, f) == []
  {
    SelEmpty(log, after, start, f);
  }

  lemma {:induction false} ExecKeeps(h: Hub, steps: seq<Step>)
    requires Inv(h)
    ensures Inv(Exec(h, steps))
  {
    if steps != [] {
      ExecKeeps(h, steps[..|steps| - 1]);
      StepKeeps(Exec(h, steps[..|steps| - 1]), steps[|steps| - 1]);
    }
  }

  lemma LatestGrows(a: seq<Query>, b: seq<Query>)
    requires Ordered(b) && a <= b
    ensures LatestId(a) <= LatestId(b)
  {
  }
}
