/** From a received record to a subscriber's channel: the writer, the store and the hub composed. */
module EndToEnd {
  import opened Seqs
  import opened QueryLog
  import opened Store
  import opened HubProtocol
  import opened HubTheorems
  import Writer = PipelineWriter

  /** The batches a hub run sees committed, in order. */
  function Appends(steps: seq<Step>): seq<seq<Query>> {
    if steps == [] then []
    else
      var before := Appends(steps[..|steps| - 1]);
      if steps[|steps| - 1].Append? then before + [steps[|steps| - 1].rows] else before
  }

  /** Consecutive batches with the ids the store gives them. */
  function Stamped(batches: seq<seq<Query>>, nextId: int): seq<seq<Query>> {
    if batches == [] then []
    else
      var init := batches[..|batches| - 1];
      Stamped(init, nextId) + [Stamp(batches[|batches| - 1], nextId + |Flatten(init)|)]
  }

  /** What a commit does to the log: nothing, unless its rows are valid for it. */
  function Appended(log: seq<Query>, rows: seq<Query>): seq<Query> {
    if AppendOk(log, rows) then log + rows else log
  }

  lemma NextLog(h: Hub, step: Step)
    ensures Next(h, step).log == if step.Append? then Appended(h.log, step.rows) else h.log
  {
  }

  /** A stamped batch is a valid append to the log it is stamped for. */
  lemma StampAppend(log: seq<Query>, batch: seq<Query>, nextId: int)
    requires Ordered(log) && LatestId(log) < nextId && batch != []
    ensures Appended(log, Stamp(batch, nextId)) == log + Stamp(batch, nextId)
  {
    assert log != [] ==> log[|log| - 1].id > 0;
  }

  lemma NextIsAppended(t: Tables, earlier: seq<Query>, batch: seq<Query>)
    requires Consistent(t) && batch != []
    ensures var log, rows := t.queries + Stamp(earlier, t.nextId), Stamp(batch, t.nextId + |earlier|);
            Appended(log, rows) == log + rows
  {
    StampedOrdered(t.queries, earlier, t.nextId);
    StampAppend(t.queries + Stamp(earlier, t.nextId), batch, t.nextId + |earlier|);
  }

  lemma StampedRows(log: seq<Query>, earlier: seq<Query>, batch: seq<Query>, nextId: int)
    ensures log + Stamp(earlier, nextId) + Stamp(batch, nextId + |earlier|) == log + Stamp(earlier + batch, nextId)
  {
    Writer.StampConcat(earlier, batch, nextId);
    Associate(log, Stamp(earlier, nextId), Stamp(batch, nextId + |earlier|));
  }

  lemma NextIsStored(t: Tables, earlier: seq<Query>, batch: seq<Query>)
    requires Consistent(t) && batch != []
    ensures Appended(t.queries + Stamp(earlier, t.nextId), Stamp(batch, t.nextId + |earlier|))
         == t.queries + Stamp(earlier + batch, t.nextId)
  {
    NextIsAppended(t, earlier, batch);
    StampedRows(t.queries, earlier, batch, t.nextId);
  }

  lemma {:induction false} StampedCount(batches: seq<seq<Query>>, nextId: int)
    ensures |Stamped(batches, nextId)| == |batches|
  {
    if batches != [] {
      StampedCount(batches[..|batches| - 1], nextId);
    }
  }

  /** Whatever else happens in between, the hub's log is the store's. */
  lemma {:induction false} HubLogIsStored(hubBatch: nat, t: Tables, batches: seq<seq<Query>>, steps: seq<Step>)
    requires Consistent(t) && Appends(steps) == Stamped(batches, t.nextId)
    requires Writer.NonEmpty(batches)
    ensures Exec(Initial(hubBatch, t.queries), steps).log == LogAfter(t, batches)
    decreases |steps|
  {
    StampedCount(batches, t.nextId);
    if steps == [] {
      assert Stamp([], t.nextId) == [];
    } else {
      var before, step := steps[..|steps| - 1], steps[|steps| - 1];
      NextLog(Exec(Initial(hubBatch, t.queries), before), step);
      if step.Append? {
        LastBatch(t, batches, Appends(before), step.rows);
        HubLogIsStored(hubBatch, t, batches[..|batches| - 1], before);
        AppendStep(t, batches);
      } else {
        HubLogIsStored(hubBatch, t, batches, before);
      }
    }
  }

  /** The log once the batches have been written. */
  function LogAfter(t: Tables, batches: seq<seq<Query>>): seq<Query> {
    t.queries + Stamp(Flatten(batches), t.nextId)
  }

  lemma AppendStep(t: Tables, batches: seq<seq<Query>>)
    requires Consistent(t) && batches != [] && batches[|batches| - 1] != []
    ensures var init := batches[..|batches| - 1];
            var rows := Stamp(batches[|batches| - 1], t.nextId + |Flatten(init)|);
            Appended(LogAfter(t, init), rows) == LogAfter(t, batches)
  {
    NextIsStored(t, Flatten(batches[..|batches| - 1]), batches[|batches| - 1]);
  }

  /** The last append of a run is the last batch, stamped after the others. */
  lemma LastBatch(t: Tables, batches: seq<seq<Query>>, appends: seq<seq<Query>>, rows: seq<Query>)
    requires appends + [rows] == Stamped(batches, t.nextId)
    ensures batches != []
    ensures var init := batches[..|batches| - 1];
            && appends == Stamped(init, t.nextId)
            && rows == Stamp(batches[|batches| - 1], t.nextId + |Flatten(init)|)
  {
    StampedCount(batches, t.nextId);
    assert |batches| == |appends| + 1;
    var init, last := batches[..|batches| - 1], batches[|batches| - 1];
    SamePrefix(appends, rows, Stamped(init, t.nextId), Stamp(last, t.nextId + |Flatten(init)|));
  }

  lemma SamePrefix<T>(a: seq<T>, x: T, b: seq<T>, y: T)
    requires a + [x] == b + [y]
    ensures a == b && x == y
  {
    assert (a + [x])[..|a|] == a && (b + [y])[..|b|] == b;
    assert (a + [x])[|a|] == x && (b + [y])[|b|] == y;
  }

  /**
   Any writer run and any hub run over its commits: once the hub is quiescent, a registered subscriber has been sent
   exactly the stored rows after its start, in order and once each, if and only if the last poll stranded none.
   */
  lemma SubscribersGetStoredRows(batchSize: nat, events: seq<Writer.Event>, t: Tables, commits: nat -> bool,
                                 hubBatch: nat, steps: seq<Step>, i: nat)
    requires Consistent(t) && hubBatch > 0
    requires Appends(steps) == Stamped(Writer.Committed(Writer.Exec(batchSize, events).handed, commits), t.nextId)
    requires i in Exec(Initial(hubBatch, t.queries), steps).s.subs
    ensures var h := Exec(Initial(hubBatch, t.queries), steps);
            && h.log == Writer.Stored(t, Writer.Exec(batchSize, events).handed, commits).queries
            && (Quiescent(h) ==> (Delivered(h, i) <==> !h.stranded))
  {
    var handed := Writer.Exec(batchSize, events).handed;
    Writer.HandedNonEmpty(batchSize, events);
    Writer.CommittedNonEmpty(handed, commits);
    HubLogIsStored(hubBatch, t, Writer.Committed(handed, commits), steps);
    Writer.StoredIsCommitted(t, handed, commits);
    QuiescentDelivered(hubBatch, t.queries, steps, i);
  }

  /** With a finished run whose writes all commit, those rows are the received records, enriched. */
  lemma RecordsReachSubscribers(batchSize: nat, events: seq<Writer.Event>, t: Tables, commits: nat -> bool,
                                hubBatch: nat, steps: seq<Step>, i: nat)
    requires events != [] && Writer.Exec(batchSize, events).stopped
    requires forall k :: 0 <= k < |Writer.Exec(batchSize, events).handed| ==> commits(k)
    requires Consistent(t) && hubBatch > 0
    requires Appends(steps) == Stamped(Writer.Exec(batchSize, events).handed, t.nextId)
    requires i in Exec(Initial(hubBatch, t.queries), steps).s.subs
    ensures var h := Exec(Initial(hubBatch, t.queries), steps);
            && h.log == Writer.Stored(t, Writer.Exec(batchSize, events).handed, commits).queries
            && Writer.RowsOf(t, Writer.Stored(t, Writer.Exec(batchSize, events).handed, commits),
                             Writer.Arrivals(Writer.Observed(events)))
            && (Quiescent(h) ==> (Delivered(h, i) <==> !h.stranded))
  {
    Writer.AllCommitted(Writer.Exec(batchSize, events).handed, commits);
    SubscribersGetStoredRows(batchSize, events, t, commits, hubBatch, steps, i);
    Writer.FinishedRunStoresAll(batchSize, events, t, commits);
  }
}
