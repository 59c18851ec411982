/** What every step of the fan-out protocol keeps. */
module HubInvariants {
  import opened Seqs
  import opened QueryLog
  import opened HubProtocol

  /**
   An open channel has been sent exactly the rows from its start to the hub's cursor; a closed one a prefix of them.
   */
  ghost predicate ChannelOk(log: seq<Query>, lastId: int, c: Channel, open: bool) {
    && 0 <= c.start <= c.upto <= lastId
    && (open ==> c.upto == lastId)
    && c.sent == Between(log, c.start, c.upto)
    && c.taken <= |c.sent| <= c.taken + CHANNEL_CAPACITY
    && c.closes == (if open then 0 else 1)
    && c.lateSends == 0
  }

  ghost predicate SharedOk(log: seq<Query>, s: Shared) {
    && Ordered(log)
    && 0 <= s.lastId <= LatestId(log)
    && (forall i :: i in s.subs ==> i < |s.channels|)
    && (s.subs != {} ==> s.running)
    && (forall i :: 0 <= i < |s.channels| ==> ChannelOk(log, s.lastId, s.channels[i], i in s.subs))
  }

  /** `rows` is what a fetch after `cursor` read from the first `seen` rows of the log. */
  ghost predicate FetchedRows(log: seq<Query>, cursor: int, batchSize: nat, rows: seq<Query>, seen: nat) {
    var k := Pos(log, cursor);
    && k < seen <= |log|
    && 0 < |rows| == (if seen - k <= batchSize then seen - k else batchSize)
    && rows == log[k..k + |rows|]
  }

  /** The cursor is past every row offered so far; without the mutex none is. */
  ghost predicate SentSoFar(log: seq<Query>, lastId: int, phase: Phase)
    requires phase.Publishing?
  {
    && phase.done <= |phase.rows| && (!phase.locked ==> phase.done == 0)
    && Pos(log, phase.cursor) + phase.done <= Pos(log, lastId)
  }

  ghost predicate PhaseOk(h: Hub) {
    && (!h.phase.Parked? ==> h.s.running)
    && (if h.phase.Exited? then h.s.stop else h.stranded ==> h.phase.Parked?)
    && (h.phase.Fetching? ==> 0 <= h.phase.cursor <= h.s.lastId && h.phase.batch < MAX_BATCHES_PER_WAKE)
    && (h.phase.Publishing? ==>
          && 0 <= h.phase.cursor <= h.s.lastId && h.phase.batch < MAX_BATCHES_PER_WAKE
          && FetchedRows(h.log, h.phase.cursor, h.batchSize, h.phase.rows, h.phase.seen)
          && SentSoFar(h.log, h.s.lastId, h.phase))
  }

  /** Someone will still wake the loop. */
  predicate WakePending(h: Hub) {
    h.s.wake || h.notifiers > 0
  }

  /**
   Unpublished rows always have a wake token, a poll or a notifier ahead of them, unless the last poll stranded
   them.
   */
  ghost predicate NoLostWakeup(h: Hub) {
    h.batchSize > 0 && !h.s.stop ==>
      && (h.s.subs != {} && h.s.lastId < LatestId(h.log) ==> WakePending(h) || !h.phase.Parked? || h.stranded)
      && (h.stranded ==> h.s.lastId < LatestId(h.log) || WakePending(h))
      && (h.phase.Publishing? && h.phase.seen < |h.log| ==> WakePending(h))
  }

  ghost predicate Inv(h: Hub) {
    SharedOk(h.log, h.s) && PhaseOk(h) && NoLostWakeup(h)
  }

  // ---- Appending ----

  lemma AppendedOrdered(log: seq<Query>, rows: seq<Query>)
    requires Ordered(log) && AppendOk(log, rows)
    ensures Ordered(log + rows) && LatestId(log + rows) > LatestId(log)
  {
  }

  lemma AppendKeepsShared(log: seq<Query>, s: Shared, rows: seq<Query>)
    requires SharedOk(log, s) && AppendOk(log, rows)
    ensures SharedOk(log + rows, s) && LatestId(log + rows) > LatestId(log)
  {
    AppendedOrdered(log, rows);
    forall i | 0 <= i < |s.channels|
      ensures ChannelOk(log + rows, s.lastId, s.channels[i], i in s.subs)
    {
      assert ChannelOk(log, s.lastId, s.channels[i], i in s.subs);
      BetweenStable(log, rows, s.channels[i].start, s.channels[i].upto);
    }
  }

  lemma AppendKeepsFetched(log: seq<Query>, more: seq<Query>, cursor: int, batchSize: nat, rows: seq<Query>, seen: nat)
    requires Ordered(log + more) && cursor <= LatestId(log) && FetchedRows(log, cursor, batchSize, rows, seen)
    ensures FetchedRows(log + more, cursor, batchSize, rows, seen)
  {
    PosStable(log, more, cursor);
  }

  lemma AppendKeeps(h: Hub, rows: seq<Query>)
    requires Inv(h) && AppendOk(h.log, rows)
    ensures Inv(Next(h, Append(rows)))
  {
    AppendKeepsShared(h.log, h.s, rows);
    if h.phase.Publishing? {
      AppendKeepsFetched(h.log, rows, h.phase.cursor, h.batchSize, h.phase.rows, h.phase.seen);
      PosStable(h.log, rows, h.phase.cursor);
      PosStable(h.log, rows, h.s.lastId);
    }
  }

  // ---- Publishing ----

  lemma PosOfRow(log: seq<Query>, p: nat)
    requires Ordered(log) && p < |log|
    ensures Pos(log, log[p].id) == p + 1 && 0 < log[p].id <= LatestId(log)
  {
  }

  lemma LatestAtPos(log: seq<Query>, cursor: int)
    requires Ordered(log)
    ensures Pos(log, cursor) == |log| ==> log == [] || LatestId(log) <= cursor
    ensures LatestId(log) <= cursor ==> Pos(log, cursor) == |log|
  {
  }

  lemma OfferKeeps(log: seq<Query>, lastId: int, c: Channel, p: nat)
    requires Ordered(log) && ChannelOk(log, lastId, c, true)
    requires p < |log| && Pos(log, lastId) == p && log[p].id > lastId
    ensures ChannelOk(log, log[p].id, Offer(c, log[p]), HasRoom(c))
  {
    PosOfRow(log, p);
    PosMonotone(log, c.start, lastId);
    var lo := Pos(log, c.start);
    assert log[lo..p] + [log[p]] == log[lo..p + 1];
  }

  /** Publishing the row at index `p`, when every earlier row is already published, keeps every channel exact. */
  lemma PublishRowKeeps(log: seq<Query>, s: Shared, p: nat)
    requires SharedOk(log, s) && p < |log| && p <= Pos(log, s.lastId)
    ensures SharedOk(log, PublishRow(s, log[p]))
    ensures Advances(log, s, PublishRow(s, log[p]), p + 1)
  {
    var q := log[p];
    var t := PublishRow(s, q);
    PosOfRow(log, p);
    PosSplits(log, s.lastId);
    if q.id > s.lastId {
      forall i | 0 <= i < |s.channels|
        ensures ChannelOk(log, q.id, t.channels[i], i in t.subs)
      {
        assert ChannelOk(log, s.lastId, s.channels[i], i in s.subs);
        if i in s.subs {
          OfferKeeps(log, s.lastId, s.channels[i], p);
        }
      }
    }
  }

  /** The cursor moved forward, past the first `p` rows, and nothing but cursor and channels changed. */
  ghost predicate Advances(log: seq<Query>, s: Shared, t: Shared, p: nat) {
    && t.lastId >= s.lastId
    && p <= Pos(log, t.lastId)
    && t.running == s.running && t.stop == s.stop && t.wake == s.wake
    && |t.channels| == |s.channels|
  }

  lemma PublishRowsNext(log: seq<Query>, s: Shared, k: nat, n: nat)
    requires 0 < n && k + n <= |log|
    ensures PublishRows(s, log[k..k + n]) == PublishRow(PublishRows(s, log[k..k + n - 1]), log[k + n - 1])
  {
    assert log[k..k + n][..n - 1] == log[k..k + n - 1];
  }

  /** Publishing a fetched batch: the channels stay exact and the cursor ends at or past the batch. */
  lemma {:induction false} PublishRowsKeeps(log: seq<Query>, s: Shared, k: nat, n: nat)
    requires SharedOk(log, s) && k <= Pos(log, s.lastId) && k + n <= |log|
    ensures SharedOk(log, PublishRows(s, log[k..k + n]))
    ensures Advances(log, s, PublishRows(s, log[k..k + n]), k + n)
    decreases n
  {
    if n == 0 {
      assert PublishRows(s, log[k..k]) == s;
    } else {
      PublishRowsKeeps(log, s, k, n - 1);
      PublishOneMore(log, s, PublishRows(s, log[k..k + n - 1]), k + n - 1);
      PublishRowsNext(log, s, k, n);
    }
  }

  lemma PublishOneMore(log: seq<Query>, s: Shared, t: Shared, p: nat)
    requires SharedOk(log, t) && Advances(log, s, t, p) && p < |log|
    ensures SharedOk(log, PublishRow(t, log[p])) && Advances(log, s, PublishRow(t, log[p]), p + 1)
  {
    PublishRowKeeps(log, t, p);
    AdvancesTwice(log, s, t, PublishRow(t, log[p]), p, p + 1);
  }

  lemma AdvancesTwice(log: seq<Query>, s: Shared, t: Shared, u: Shared, p: nat, q: nat)
    requires Advances(log, s, t, p) && Advances(log, t, u, q)
    ensures Advances(log, s, u, q)
  {
  }

  /** A short batch that reached the end of the log as read leaves only rows a notifier announces. */
  lemma ShortBatchReachesEnd(h: Hub)
    requires SharedOk(h.log, h.s) && PhaseOk(h) && h.phase.Publishing? && h.phase.done == |h.phase.rows|
    requires |h.phase.rows| < h.batchSize && h.phase.seen == |h.log|
    ensures h.s.lastId >= LatestId(h.log)
  {
    LatestAtPos(h.log, h.s.lastId);
  }

  lemma SendKeeps(h: Hub)
    requires Inv(h) && Enabled(h, Send)
    ensures Inv(Next(h, Send))
  {
    var p := Pos(h.log, h.phase.cursor) + h.phase.done;
    assert h.phase.rows[h.phase.done] == h.log[p];
    PublishRowKeeps(h.log, h.s, p);
    assert SharedOk(h.log, Next(h, Send).s);
  }

  lemma UnlockKeeps(h: Hub)
    requires Inv(h) && Enabled(h, Unlock)
    ensures Inv(Next(h, Unlock))
  {
    if |h.phase.rows| < h.batchSize && h.phase.seen == |h.log| {
      ShortBatchReachesEnd(h);
    }
  }

  // ---- Fetching ----

  /** An unfiltered fetch is the next rows of the log. */
  lemma FetchIsNext(log: seq<Query>, cursor: int, limit: nat)
    requires Ordered(log)
    ensures QueryFeed(log, cursor, NO_FILTER, limit) == Take(log[Pos(log, cursor)..], limit)
  {
    var p, sel := Pos(log, cursor), Selected(cursor, NO_FILTER);
    PosSplits(log, cursor);
    forall q | q in log
      ensures sel(q) == (q.id > cursor)
    {
      FiltersAgree(q, cursor, NO_FILTER);
    }
    assert log == log[..p] + log[p..];
    FilterConcat(log[..p], log[p..], sel);
    FilterNone(log[..p], sel);
    FilterAll(log[p..], sel);
  }

  lemma FetchKeeps(h: Hub, ok: bool)
    requires Inv(h) && h.phase.Fetching?
    ensures Inv(Next(h, Fetch(ok)))
  {
    FetchIsNext(h.log, h.phase.cursor, h.batchSize);
    LatestAtPos(h.log, h.phase.cursor);
    PosMonotone(h.log, h.phase.cursor, h.s.lastId);
  }

  // ---- Subscribing ----

  lemma SubscribedOk(log: seq<Query>, s: Shared)
    requires SharedOk(log, s)
    ensures SharedOk(log, Subscribed(s, LatestId(log))) && Subscribed(s, LatestId(log)).lastId >= s.lastId
  {
    var t := Subscribed(s, LatestId(log));
    forall i | 0 <= i < |t.channels|
      ensures ChannelOk(log, t.lastId, t.channels[i], i in t.subs)
    {
      assert i < |s.channels| ==> ChannelOk(log, s.lastId, s.channels[i], i in s.subs);
    }
    assert log != [] ==> log[|log| - 1].id > 0;
  }

  lemma SubscribeKeeps(h: Hub, latestOk: bool)
    requires Inv(h) && Enabled(h, Subscribe(latestOk))
    ensures Inv(Next(h, Subscribe(latestOk)))
  {
    SubscribedOk(h.log, h.s);
    if h.phase.Publishing? {
      PosMonotone(h.log, h.s.lastId, Subscribed(h.s, LatestId(h.log)).lastId);
    }
  }

  lemma UnsubscribeKeeps(h: Hub, id: nat)
    requires Inv(h) && Enabled(h, Unsubscribe(id))
    ensures Inv(Next(h, Unsubscribe(id)))
  {
    var s := Unsubscribed(h.s, id);
    forall i | 0 <= i < |s.channels|
      ensures ChannelOk(h.log, s.lastId, s.channels[i], i in s.subs)
    {
      assert ChannelOk(h.log, h.s.lastId, h.s.channels[i], i in h.s.subs);
    }
    assert SharedOk(h.log, s);
  }

  lemma ConsumeKeeps(h: Hub, id: nat)
    requires Inv(h) && Enabled(h, Consume(id))
    ensures Inv(Next(h, Consume(id)))
  {
    var s := Next(h, Consume(id)).s;
    forall i | 0 <= i < |s.channels|
      ensures ChannelOk(h.log, s.lastId, s.channels[i], i in s.subs)
    {
      assert ChannelOk(h.log, h.s.lastId, h.s.channels[i], i in h.s.subs);
    }
    assert SharedOk(h.log, s);
  }

  lemma LoopKeeps(h: Hub, step: Step)
    requires Inv(h) && Enabled(h, step) && step in {Notify, TakeWake, Begin, Publish, Renotify, Stop}
    ensures Inv(Next(h, step))
  {
    assert SharedOk(h.log, Next(h, step).s);
  }

  lemma ShutdownKeeps(h: Hub)
    requires Inv(h) && Enabled(h, Shutdown)
    ensures Inv(Next(h, Shutdown))
  {
  }

  /** Every step keeps the invariant. */
  lemma StepKeeps(h: Hub, step: Step)
    requires Inv(h)
    ensures Inv(Next(h, step))
  {
    if Enabled(h, step) {
      match step
      case Append(rows) => AppendKeeps(h, rows);
      case Subscribe(latestOk) => SubscribeKeeps(h, latestOk);
      case Unsubscribe(id) => UnsubscribeKeeps(h, id);
      case Consume(id) => ConsumeKeeps(h, id);
      case Fetch(ok) => FetchKeeps(h, ok);
      case Send => SendKeeps(h);
      case Unlock => UnlockKeeps(h);
      case Shutdown => ShutdownKeeps(h);
      case _ => LoopKeeps(h, step);
    }
  }

  /** Every reachable state, under every interleaving, satisfies the invariant. */
  lemma {:induction false} ReachableInv(batchSize: nat, log: seq<Query>, steps: seq<Step>)
    requires Ordered(log)
    ensures Inv(Exec(Initial(batchSize, log), steps))
  {
    if steps == [] {
      assert log != [] ==> log[|log| - 1].id > 0;
    } else {
      ReachableInv(batchSize, log, steps[..|steps| - 1]);
      StepKeeps(Exec(Initial(batchSize, log), steps[..|steps| - 1]), steps[|steps| - 1]);
    }
  }
}
