/** The hub object: its critical sections and loops, each equal to the protocol's step on the shared state. */
module HubObject {
  import opened Seqs
  import opened QueryLog
  import opened HubProtocol
  import opened HubTheorems

  datatype LatestResult = Latest(id: int) | LatestFailed

  datatype SubscribeResult = Subscription(id: nat) | SubscribeFailed

  predicate OwnStep(step: Step) {
    step.Begin? || step.Fetch? || step.Publish? || step.Send? || step.Unlock? || step.Renotify?
  }

  /** `steps` are the loop's own, lead from `h` to `h'` and read the database `fetches` times. */
  ghost predicate Polled(h: Hub, steps: seq<Step>, h': Hub, fetches: nat) {
    && Exec(h, steps) == h'
    && (forall i :: 0 <= i < |steps| ==> OwnStep(steps[i]))
    && |Filter(steps, IsFetch())| == fetches
  }

  function IsFetch(): Step -> bool {
    (step: Step) => step.Fetch?
  }

  lemma PollNothing(h: Hub)
    ensures Polled(h, [], h, 0)
  {
  }

  lemma PollStep(h: Hub, steps: seq<Step>, mid: Hub, fetches: nat, step: Step)
    returns (steps': seq<Step>, h': Hub)
    requires Polled(h, steps, mid, fetches) && OwnStep(step)
    ensures h' == Next(mid, step) && Polled(h, steps', h', if step.Fetch? then fetches + 1 else fetches)
  {
    steps', h' := Extend(h, steps, mid, step);
  }

  lemma PollConcat(h: Hub, a: seq<Step>, mid: Hub, m: nat, b: seq<Step>, h': Hub, n: nat)
    requires Polled(h, a, mid, m) && Polled(mid, b, h', n)
    ensures Polled(h, a + b, h', m + n)
  {
    ExecConcat(h, a, b);
    FilterConcat(a, b, IsFetch());
  }

  /** The hub between two rounds of pollOnce's loop. */
  ghost function InLoop(h: Hub, s: Shared, cursor: int, batch: nat): Hub {
    h.(s := s, phase := if batch < MAX_BATCHES_PER_WAKE then Fetching(cursor, batch) else Renotifying)
  }

  /** What a fetch that succeeds, with `queries`, or fails does. */
  lemma FetchEffect(h: Hub, cursor: int, batch: nat, ok: bool, queries: seq<Query>)
    returns (steps: seq<Step>, h': Hub)
    requires h.phase == Fetching(cursor, batch) && queries == QueryFeed(h.log, cursor, NO_FILTER, h.batchSize)
    ensures Polled(h, steps, h', 1)
    ensures !ok ==> h' == h.(phase := Parked, stranded := h.s.lastId < LatestId(h.log))
    ensures ok && queries == [] ==> h' == h.(phase := Parked)
    ensures ok && queries != [] ==> h' == h.(phase := Publishing(cursor, batch, queries, |h.log|, false, 0))
  {
    PollNothing(h);
    steps, h' := PollStep(h, [], h, 0, Fetch(ok));
  }

  /** The rows of a batch, one by one, while the loop holds the mutex. */
  lemma {:induction false} SendsPublish(h: Hub, n: nat) returns (steps: seq<Step>)
    requires Locked(h.phase) && h.phase.done == 0 && n <= |h.phase.rows|
    ensures Polled(h, steps, h.(s := PublishRows(h.s, h.phase.rows[..n]), phase := h.phase.(done := n)), 0)
  {
    if n == 0 {
      steps := [];
      PollNothing(h);
    } else {
      var init := SendsPublish(h, n - 1);
      var h';
      steps, h' := PollStep(h, init, Exec(h, init), 0, Send);
      assert h.phase.rows[..n][..n - 1] == h.phase.rows[..n - 1];
    }
  }

  lemma SendsAll(h: Hub, t: Shared) returns (steps: seq<Step>)
    requires Locked(h.phase) && h.phase.done == 0 && t == PublishRows(h.s, h.phase.rows)
    ensures Polled(h, steps, h.(s := t, phase := h.phase.(done := |h.phase.rows|)), 0)
  {
    assert h.phase.rows[..|h.phase.rows|] == h.phase.rows;
    steps := SendsPublish(h, |h.phase.rows|);
  }

  lemma UnlockEffect(h: Hub)
    requires Enabled(h, Unlock)
    ensures h.s.subs != {} && |h.phase.rows| >= h.batchSize
        ==> Next(h, Unlock) == InLoop(h, h.s, h.s.lastId, h.phase.batch + 1)
    ensures !(h.s.subs != {} && |h.phase.rows| >= h.batchSize) ==> Next(h, Unlock) == h.(phase := Parked)
  {
  }

  /** What the steps of one batch do: the mutex is taken, every row offered, the mutex released. */
  lemma PublishEffect(h: Hub, t: Shared) returns (steps: seq<Step>, h': Hub)
    requires h.phase.Publishing? && !h.phase.locked && h.phase.done == 0 && t == PublishRows(h.s, h.phase.rows)
    ensures Polled(h, steps, h', 0)
    ensures t.subs != {} && |h.phase.rows| >= h.batchSize ==> h' == InLoop(h, t, t.lastId, h.phase.batch + 1)
    ensures !(t.subs != {} && |h.phase.rows| >= h.batchSize) ==> h' == h.(s := t, phase := Parked)
  {
    PollNothing(h);
    var sent: Hub, sends;
    steps, h' := PollStep(h, [], h, 0, Publish);
    sends := SendsAll(h', t);
    sent := h'.(s := t, phase := h'.phase.(done := |h.phase.rows|));
    PollConcat(h, steps, h', 0, sends, sent, 0);
    UnlockEffect(sent);
    steps, h' := PollStep(h, steps + sends, sent, 0, Unlock);
  }

  class QueryStreamHub {
    var channels: seq<Channel>
    var subscribers: set<nat>
    var lastId: int
    var running: bool
    var stop: bool
    var wake: bool

    function View(): Shared
      reads this
    {
      Shared(channels, subscribers, lastId, running, stop, wake)
    }

    /** The map's channels exist and are open. */
    ghost predicate Valid()
      reads this
    {
      forall i :: i in subscribers ==> i < |channels| && channels[i].closes == 0
    }

    constructor ()
      ensures View() == Initial(0, []).s && Valid()
    {
      channels, subscribers, lastId, running, stop, wake := [], {}, 0, false, false, false;
    }

    /** The section of Subscribe under the lock; the id read happens only when nobody is subscribed. */
    method SubscribeLocked(latest: LatestResult) returns (r: SubscribeResult)
      requires Valid()
      modifies this
      ensures Valid()
      ensures r.SubscribeFailed? <==> old(subscribers) == {} && latest.LatestFailed?
      ensures r.SubscribeFailed? ==> View() == old(View())
      ensures r.Subscription? ==>
                r.id == old(|channels|)
                && View() == Subscribed(old(View()), if latest.Latest? then latest.id else old(lastId))
      ensures r.Subscription? ==>
                && subscribers == old(subscribers) + {r.id} && running
                && lastId == (if old(subscribers) == {} && latest.Latest? then latest.id else old(lastId))
                && channels == old(channels) + [Channel(lastId, lastId, [], 0, 0, 0)]
    {
      if subscribers == {} {
        if latest.LatestFailed? {
          return SubscribeFailed;
        }
        lastId := latest.id;
      }
      running := true;
      var id := |channels|;
      channels := channels + [Channel(lastId, lastId, [], 0, 0, 0)];
      subscribers := subscribers + {id};
      return Subscription(id);
    }

    method Unsubscribe(id: nat)
      requires Valid()
      modifies this
      ensures Valid() && View() == Unsubscribed(old(View()), id)
      ensures subscribers == old(subscribers) - {id} && |channels| == old(|channels|) && lastId == old(lastId)
      ensures id in old(subscribers) ==> channels[id] == old(channels)[id].(closes := 1)
      ensures forall i :: 0 <= i < |channels| && !(i == id && id in old(subscribers)) ==>
                channels[i] == old(channels)[i]
    {
      if id !in subscribers {
        return;
      }
      subscribers := subscribers - {id};
      channels := channels[id := CloseChannel(channels[id])];
    }

    method NotifyNewQueries()
      modifies this`wake
      ensures View() == Notified(old(View())) && wake == (old(wake) || !stop)
    {
      if stop {
        return;
      }
      if !wake {
        wake := true;
      }
    }

    method CloseAllSubscribers()
      requires Valid()
      modifies this
      ensures Valid() && View() == ClosedAll(old(View()))
      ensures subscribers == {} && |channels| == old(|channels|)
      ensures forall i :: 0 <= i < |channels| ==>
                channels[i] == if i in old(subscribers) then old(channels)[i].(closes := 1) else old(channels)[i]
    {
      ghost var before := View();
      while subscribers != {}
        invariant Valid() && subscribers <= before.subs
        invariant |channels| == |before.channels|
        invariant lastId == before.lastId && running == before.running && stop == before.stop && wake == before.wake
        invariant forall i :: 0 <= i < |channels| ==>
          channels[i] == if i in before.subs - subscribers then CloseChannel(before.channels[i]) else before.channels[i]
        decreases subscribers
      {
        var id :| id in subscribers;
        channels := channels[id := CloseChannel(channels[id])];
        subscribers := subscribers - {id};
      }
      assert channels == ClosedAll(before).channels;
    }

    /**
     One row to every subscriber, in whatever order the map yields them; a reader that has not taken the last 256 rows
     is closed and removed.
     */
    method FanOut(query: Query)
      requires Valid() && query.id > lastId
      modifies this`channels, this`subscribers, this`lastId
      ensures Valid() && View() == PublishRow(old(View()), query)
      ensures subscribers <= old(subscribers) && |channels| == old(|channels|) && lastId == query.id
      ensures forall i :: 0 <= i < |channels| ==>
                var c := old(channels)[i];
                if i !in old(subscribers) then channels[i] == c
                else if |c.sent| - c.taken < 256 then
                  i in subscribers && channels[i] == c.(sent := c.sent + [query], upto := query.id)
                else i !in subscribers && channels[i] == c.(closes := 1)
    {
      ghost var before := View();
      lastId := query.id;
      var pending := subscribers;
      while pending != {}
        invariant pending <= subscribers <= before.subs && Valid()
        invariant |channels| == |before.channels|
        invariant lastId == query.id && running == before.running && stop == before.stop && wake == before.wake
        invariant forall i :: i in before.subs ==> (i in subscribers <==> i in pending || HasRoom(before.channels[i]))
        invariant forall i :: 0 <= i < |channels| ==>
          channels[i] == if i in before.subs - pending then Offer(before.channels[i], query) else before.channels[i]
        decreases pending
      {
        var id :| id in pending;
        pending := pending - {id};
        if HasRoom(channels[id]) {
          channels := channels[id := channels[id].(sent := channels[id].sent + [query], upto := query.id)];
        } else {
          channels := channels[id := CloseChannel(channels[id])];
          subscribers := subscribers - {id};
        }
      }
      assert subscribers == PublishRow(before, query).subs;
      assert channels == PublishRow(before, query).channels;
    }

    /** The section of pollOnce under the lock. */
    method PublishBatch(queries: seq<Query>)
      requires Valid()
      modifies this`channels, this`subscribers, this`lastId
      ensures Valid() && View() == PublishRows(old(View()), queries)
    {
      for i := 0 to |queries|
        invariant Valid() && View() == PublishRows(old(View()), queries[..i])
      {
        assert queries[..i + 1][..i] == queries[..i];
        if queries[i].id <= lastId {
          continue;
        }
        FanOut(queries[i]);
      }
      assert queries[..|queries|] == queries;
    }

    /** One round of pollOnce's loop: fetch, publish, and whether to go on. */
    method PollBatch(log: seq<Query>, batchSize: nat, cursor: int, batch: nat, fetchOk: bool, ghost h: Hub)
      returns (more: bool, next: int, ghost h': Hub, ghost steps: seq<Step>)
      requires Valid() && batch < MAX_BATCHES_PER_WAKE
      requires h == Hub(batchSize, log, View(), Fetching(cursor, batch), h.notifiers, false)
      modifies this`channels, this`subscribers, this`lastId
      ensures Valid() && Polled(h, steps, h', 1)
      ensures more ==> h' == InLoop(h, View(), next, batch + 1)
      ensures !more ==> h' == h.(s := View(), phase := Parked, stranded := !fetchOk && lastId < LatestId(log))
    {
      steps, h' := FetchEffect(h, cursor, batch, fetchOk, QueryFeed(log, cursor, NO_FILTER, batchSize));
      if !fetchOk {
        return false, cursor, h', steps;
      }
      var queries := QueryFeed(log, cursor, NO_FILTER, batchSize);
      if |queries| == 0 {
        return false, cursor, h', steps;
      }
      PublishBatch(queries);
      ghost var publish, fetched := [], h';
      publish, h' := PublishEffect(fetched, View());
      PollConcat(h, steps, fetched, 1, publish, h', 0);
      steps := steps + publish;
      more := subscribers != {} && |queries| >= batchSize;
      next := lastId;
    }

    /**
     pollOnce while nothing else runs: a poll over `log` whose i-th fetch succeeds iff `fetchOk(i)`. Its effect is that
     of a run of the protocol's loop steps, from just after the wake token was taken until the loop is parked again. It
     makes at most three fetches, and wakes itself only after three.
     */
    method PollOnce(log: seq<Query>, batchSize: nat, fetchOk: nat -> bool, ghost notifiers: nat)
      returns (ghost steps: seq<Step>, ghost fetches: nat)
      requires Valid()
      modifies this
      ensures Valid() && fetches <= 3 && (wake != old(wake) ==> fetches == 3)
      ensures var h0 := Hub(batchSize, log, old(View()), Starting, notifiers, false);
              var h := Exec(h0, steps);
              && Polled(h0, steps, h, fetches)
              && h == Hub(batchSize, log, View(), Parked, notifiers, h.stranded)
              && (h.stranded ==> lastId < LatestId(log) && exists i: nat :: !fetchOk(i))
    {
      ghost var h0 := Hub(batchSize, log, View(), Starting, notifiers, false);
      ghost var h: Hub;
      var cursor := lastId;
      var hasSubscribers := subscribers != {};
      PollNothing(h0);
      fetches := 0;
      steps, h := PollStep(h0, [], h0, 0, Begin);
      if !hasSubscribers {
        return;
      }
      for batch := 0 to MAX_BATCHES_PER_WAKE
        invariant Valid() && Polled(h0, steps, h, batch) && fetches == batch && wake == old(wake)
        invariant h == InLoop(h0, View(), cursor, batch)
      {
        var more;
        ghost var h', round;
        more, cursor, h', round := PollBatch(log, batchSize, cursor, batch, fetchOk(batch), h);
        PollConcat(h0, steps, h, batch, round, h', 1);
        steps, h, fetches := steps + round, h', fetches + 1;
        if !more {
          return;
        }
      }
      NotifyNewQueries();
      steps, h := PollStep(h0, steps, h, fetches, Renotify);
    }

    method Stop()
      modifies this`stop
      ensures View() == old(View()).(stop := true)
    {
      if stop {
        return;
      }
      stop := true;
    }
  }
}
