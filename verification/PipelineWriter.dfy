/** The batching query writer: receive, tick, channel close and shutdown drain, and what reaches the store. */
module PipelineWriter {
  import opened Seqs
  import opened QueryLog
  import opened Tallies
  import opened Rollups
  import opened Activity
  import opened Store
  import Classifier

  datatype Record = Record(source: string, domain: string, qtype: string, ts: int)

  /** A received record, with the address cache and the classifier's maps as they are at that moment. */
  datatype Arrival = Arrival(record: Record, macs: map<string, string>, overrides: map<string, Category>,
                             listed: map<string, Category>)

  function Enrich(a: Arrival): Query {
    var mac := if a.record.source in a.macs then a.macs[a.record.source] else "";
    var category := Classifier.Lookup(a.overrides, a.listed, a.record.domain);
    Query(0, mac, a.record.source, a.record.domain, a.record.qtype, category, a.record.ts)
  }

  /** The row of a record: its own fields, the MAC cached for its address or none, and the category looked up then. */
  ghost predicate IsRowOf(q: Query, a: Arrival, id: int) {
    && q.id == id && q.source == a.record.source && q.domain == a.record.domain
    && q.qtype == a.record.qtype && q.ts == a.record.ts
    && (if q.source in a.macs then q.mac == a.macs[q.source] else q.mac == "")
    && q.category == Classifier.Lookup(a.overrides, a.listed, q.domain)
  }

  /** The stored query counts for its device when the cache knows the address, for its source address otherwise. */
  lemma EnrichedForActor(a: Arrival)
    ensures var ip, q := a.record.source, Enrich(a);
            && IsRowOf(q, a, 0)
            && (QueryMatches(Source(ip), q) <==> ip !in a.macs || a.macs[ip] == "")
            && (ip in a.macs ==> QueryMatches(Device(a.macs[ip]), q))
  {
  }

  lemma {:induction false} EnrichAllAt(arrivals: seq<Arrival>)
    ensures |EnrichAll(arrivals)| == |arrivals|
    ensures forall i :: 0 <= i < |arrivals| ==> EnrichAll(arrivals)[i] == Enrich(arrivals[i])
  {
    if arrivals != [] {
      EnrichAllAt(arrivals[..|arrivals| - 1]);
    }
  }

  function EnrichAll(arrivals: seq<Arrival>): seq<Query> {
    if arrivals == [] then [] else EnrichAll(arrivals[..|arrivals| - 1]) + [Enrich(arrivals[|arrivals| - 1])]
  }

  /** What one round of Run's select observes; a cancellation carries the records the drain finds queued. */
  datatype Event = Receive(arrival: Arrival) | InputClosed | Tick | Cancelled(queued: seq<Arrival>)

  /** The pending buffer, the batches handed to WriteQueries so far, and whether Run has returned. */
  datatype Progress = Progress(buf: seq<Query>, handed: seq<seq<Query>>, stopped: bool)

  function Flushed(p: Progress): Progress {
    if p.buf == [] then p else p.(buf := [], handed := p.handed + [p.buf])
  }

  function Step(batchSize: nat, p: Progress, e: Event): Progress {
    if p.stopped then p
    else match e
      case Receive(a) =>
        var q := p.(buf := p.buf + [Enrich(a)]);
        if |q.buf| >= batchSize then Flushed(q) else q
      case InputClosed => Flushed(p).(stopped := true)
      case Tick => Flushed(p)
      case Cancelled(queued) => Flushed(p.(buf := p.buf + EnrichAll(queued))).(stopped := true)
  }

  function Exec(batchSize: nat, events: seq<Event>): Progress {
    if events == [] then Progress([], [], false)
    else Step(batchSize, Exec(batchSize, events[..|events| - 1]), events[|events| - 1])
  }

  predicate Ends(e: Event) {
    e.InputClosed? || e.Cancelled?
  }

  /** The events up to and including the first that ends the run. */
  function Observed(events: seq<Event>): seq<Event> {
    if events == [] then []
    else
      var seen := Observed(events[..|events| - 1]);
      if seen != [] && Ends(seen[|seen| - 1]) then seen else seen + [events[|events| - 1]]
  }

  /** The records an event brings. */
  function Brought(e: Event): seq<Arrival> {
    match e
    case Receive(a) => [a]
    case Cancelled(queued) => queued
    case _ => []
  }

  function Arrivals(events: seq<Event>): seq<Arrival> {
    if events == [] then [] else Arrivals(events[..|events| - 1]) + Brought(events[|events| - 1])
  }

  // ---- Conservation ----

  lemma {:induction false} EnrichAllConcat(a: seq<Arrival>, b: seq<Arrival>)
    ensures EnrichAll(a + b) == EnrichAll(a) + EnrichAll(b)
  {
    if b == [] {
      assert a + b == a;
    } else {
      assert (a + b)[..|a + b| - 1] == a + b[..|b| - 1];
      EnrichAllConcat(a, b[..|b| - 1]);
    }
  }

  lemma EnrichOne(a: Arrival)
    ensures EnrichAll([a]) == [Enrich(a)]
  {
  }

  lemma FlushConserves(p: Progress)
    ensures Flatten(Flushed(p).handed) + Flushed(p).buf == Flatten(p.handed) + p.buf
  {
  }

  lemma StepConserves(batchSize: nat, p: Progress, e: Event)
    requires !p.stopped
    ensures var p' := Step(batchSize, p, e);
            Flatten(p'.handed) + p'.buf == Flatten(p.handed) + p.buf + EnrichAll(Brought(e))
  {
    var filled := p.(buf := p.buf + EnrichAll(Brought(e)));
    Associate(Flatten(p.handed), p.buf, EnrichAll(Brought(e)));
    FlushConserves(filled);
    match e
    case Receive(a) => EnrichOne(a);
    case Cancelled(queued) =>
    case _ => assert filled == p;
  }

  lemma {:induction false} StoppedIff(batchSize: nat, events: seq<Event>)
    ensures var seen := Observed(events); Exec(batchSize, events).stopped <==> seen != [] && Ends(seen[|seen| - 1])
    ensures events != [] ==> Observed(events) != []
  {
    if events != [] {
      StoppedIff(batchSize, events[..|events| - 1]);
      StepStops(batchSize, Exec(batchSize, events[..|events| - 1]), events[|events| - 1]);
    }
  }

  lemma StepStops(batchSize: nat, p: Progress, e: Event)
    ensures Step(batchSize, p, e).stopped <==> p.stopped || Ends(e)
  {
  }

  /** The batches handed to the store, then the buffer, are the received records, enriched, in order and once each. */
  lemma {:induction false} WriterConserves(batchSize: nat, events: seq<Event>)
    ensures var p := Exec(batchSize, events); Flatten(p.handed) + p.buf == EnrichAll(Arrivals(Observed(events)))
  {
    if events != [] {
      var init, last := events[..|events| - 1], events[|events| - 1];
      WriterConserves(batchSize, init);
      StoppedIff(batchSize, init);
      var seen := Observed(init);
      if !Exec(batchSize, init).stopped {
        StepConserves(batchSize, Exec(batchSize, init), last);
        assert (seen + [last])[..|seen|] == seen;
        EnrichAllConcat(Arrivals(seen), Brought(last));
        assert Arrivals(seen + [last]) == Arrivals(seen) + Brought(last);
      }
    }
  }

  // ---- Batch sizes ----

  function Limit(batchSize: nat): nat {
    if batchSize == 0 then 1 else batchSize
  }

  ghost predicate Bounded(batches: seq<seq<Query>>, limit: nat) {
    forall b :: b in batches ==> 1 <= |b| <= limit
  }

  lemma FlushBounded(p: Progress, limit: nat)
    requires Bounded(p.handed, limit) && |p.buf| <= limit
    ensures Bounded(Flushed(p).handed, limit) && Flushed(p).buf == []
  {
  }

  /** Until a shutdown drain, every batch is non-empty and within BatchSize, and the buffer is always below it. */
  lemma {:induction false} BatchesBounded(batchSize: nat, events: seq<Event>)
    requires forall e :: e in events ==> !e.Cancelled?
    ensures var p := Exec(batchSize, events); Bounded(p.handed, Limit(batchSize)) && |p.buf| < Limit(batchSize)
  {
    if events != [] {
      var init, last := events[..|events| - 1], events[|events| - 1];
      BatchesBounded(batchSize, init);
      assert last in events;
      var p := Exec(batchSize, init);
      match last
      case Receive(a) => FlushBounded(p.(buf := p.buf + [Enrich(a)]), Limit(batchSize));
      case _ => FlushBounded(p, Limit(batchSize));
    }
  }

  /** A received record waits until the buffer, with it, has reached BatchSize; then the whole buffer goes. */
  lemma ReceiveHandsFullBatch(batchSize: nat, events: seq<Event>, a: Arrival)
    requires !Exec(batchSize, events).stopped
    ensures var before, after := Exec(batchSize, events), Exec(batchSize, events + [Receive(a)]);
            var rows := before.buf + [Enrich(a)];
            && !after.stopped
            && (|rows| < batchSize ==> after.buf == rows && after.handed == before.handed)
            && (|rows| >= batchSize ==> after.buf == [] && after.handed == before.handed + [rows])
  {
  }

  /** While records alone arrive, every batch handed over has exactly BatchSize rows, or one when that is zero. */
  lemma {:induction false} OnlyFullBatches(batchSize: nat, events: seq<Event>)
    requires forall i :: 0 <= i < |events| ==> events[i].Receive?
    ensures var p := Exec(batchSize, events);
            && !p.stopped && |p.buf| < Limit(batchSize)
            && forall i :: 0 <= i < |p.handed| ==> |p.handed[i]| == Limit(batchSize)
  {
    if events != [] {
      var init, last := events[..|events| - 1], events[|events| - 1];
      OnlyFullBatches(batchSize, init);
      ReceiveHandsFullBatch(batchSize, init, last.arrival);
      assert events == init + [last];
    }
  }

  /** The drain hands over one batch more at most: what was buffered and everything queued. */
  lemma DrainHandsOneBatch(batchSize: nat, events: seq<Event>, queued: seq<Arrival>)
    requires !Exec(batchSize, events).stopped
    ensures var before, after := Exec(batchSize, events), Exec(batchSize, events + [Cancelled(queued)]);
            var batch := before.buf + EnrichAll(queued);
            after == Progress([], if batch == [] then before.handed else before.handed + [batch], true)
  {
  }

  /** The end of the run, like a tick, leaves nothing waiting. */
  lemma {:induction false} NothingWaits(batchSize: nat, events: seq<Event>)
    requires events != []
    ensures Exec(batchSize, events).stopped || events[|events| - 1].Tick? ==> Exec(batchSize, events).buf == []
  {
    if |events| > 1 {
      NothingWaits(batchSize, events[..|events| - 1]);
    }
  }

  ghost predicate NonEmpty(batches: seq<seq<Query>>) {
    forall i :: 0 <= i < |batches| ==> |batches[i]| > 0
  }

  /** No empty batch is ever handed over, not even by the drain. */
  lemma {:induction false} HandedNonEmpty(batchSize: nat, events: seq<Event>)
    ensures NonEmpty(Exec(batchSize, events).handed)
  {
    if events != [] {
      HandedNonEmpty(batchSize, events[..|events| - 1]);
    }
  }

  // ---- What is stored ----

  /** The tables after handing over the batches; `commits(i)` says whether attempt i commits. */
  function Stored(t: Tables, handed: seq<seq<Query>>, commits: nat -> bool): Tables {
    if handed == [] then t
    else
      var before := Stored(t, handed[..|handed| - 1], commits);
      if commits(|handed| - 1) then Written(before, handed[|handed| - 1]) else before
  }

  function Committed(handed: seq<seq<Query>>, commits: nat -> bool): seq<seq<Query>> {
    if handed == [] then []
    else
      var before := Committed(handed[..|handed| - 1], commits);
      if commits(|handed| - 1) then before + [handed[|handed| - 1]] else before
  }

  lemma {:induction false} CountRowsConcat(rollups: map<Key, Counts>, a: seq<Query>, b: seq<Query>)
    ensures CountRows(CountRows(rollups, a), b) == CountRows(rollups, a + b)
  {
    if b == [] {
      assert a + b == a;
    } else {
      assert (a + b)[..|a + b| - 1] == a + b[..|b| - 1];
      CountRowsConcat(rollups, a, b[..|b| - 1]);
    }
  }

  lemma StampConcat(a: seq<Query>, b: seq<Query>, nextId: int)
    ensures Stamp(a, nextId) + Stamp(b, nextId + |a|) == Stamp(a + b, nextId)
  {
  }

  /** Two transactions leave the tables one transaction over both batches would. */
  lemma WrittenTwice(t: Tables, a: seq<Query>, b: seq<Query>)
    ensures Written(Written(t, a), b) == Written(t, a + b)
  {
    CountRowsConcat(t.rollups, a, b);
    StampConcat(a, b, t.nextId);
    Associate(t.queries, Stamp(a, t.nextId), Stamp(b, t.nextId + |a|));
  }

  /**
   However the rows were batched, the tables hold exactly those of the committed batches; a failed batch is lost
   whole.
   */
  lemma {:induction false} StoredIsCommitted(t: Tables, handed: seq<seq<Query>>, commits: nat -> bool)
    ensures Stored(t, handed, commits) == Written(t, Flatten(Committed(handed, commits)))
  {
    if handed == [] {
      assert Stamp([], t.nextId) == [];
      assert t.queries + [] == t.queries;
    } else {
      var init, last := handed[..|handed| - 1], handed[|handed| - 1];
      StoredIsCommitted(t, init, commits);
      var kept := Committed(init, commits);
      if commits(|handed| - 1) {
        assert (kept + [last])[..|kept|] == kept;
        WrittenTwice(t, Flatten(kept), last);
      }
    }
  }

  lemma {:induction false} CommittedNonEmpty(handed: seq<seq<Query>>, commits: nat -> bool)
    requires NonEmpty(handed)
    ensures NonEmpty(Committed(handed, commits))
  {
    if handed != [] {
      CommittedNonEmpty(handed[..|handed| - 1], commits);
    }
  }

  lemma {:induction false} AllCommitted(handed: seq<seq<Query>>, commits: nat -> bool)
    requires forall i :: 0 <= i < |handed| ==> commits(i)
    ensures Committed(handed, commits) == handed
  {
    if handed != [] {
      AllCommitted(handed[..|handed| - 1], commits);
    }
  }

  /**
   A finished run whose writes all commit stores every received record, once and in order, and keeps rollups exact.
   */
  lemma FinishedRunStoresAll(batchSize: nat, events: seq<Event>, t: Tables, commits: nat -> bool)
    requires events != [] && Exec(batchSize, events).stopped
    requires forall i :: 0 <= i < |Exec(batchSize, events).handed| ==> commits(i)
    requires Consistent(t)
    ensures var t' := Stored(t, Exec(batchSize, events).handed, commits);
            && RowsOf(t, t', Arrivals(Observed(events)))
            && t'.queries == t.queries + Stamp(EnrichAll(Arrivals(Observed(events))), t.nextId)
            && Consistent(t') && (InSync(t) ==> InSync(t'))
  {
    var p := Exec(batchSize, events);
    WriterConserves(batchSize, events);
    NothingWaits(batchSize, events);
    StoredIsCommitted(t, p.handed, commits);
    AllCommitted(p.handed, commits);
    assert Flatten(p.handed) + [] == Flatten(p.handed);
    WriteKeeps(t, Flatten(p.handed));
    StoredRows(t, Written(t, Flatten(p.handed)), Arrivals(Observed(events)));
  }

  /** The log has grown by one row for each record, in order, with the next ids. */
  ghost predicate RowsOf(t: Tables, t': Tables, arrivals: seq<Arrival>) {
    && |t'.queries| == |t.queries| + |arrivals| && t'.nextId == t.nextId + |arrivals|
    && t'.queries[..|t.queries|] == t.queries
    && forall i :: 0 <= i < |arrivals| ==> IsRowOf(t'.queries[|t.queries| + i], arrivals[i], t.nextId + i)
  }

  lemma StoredRows(t: Tables, t': Tables, arrivals: seq<Arrival>)
    requires t' == Written(t, EnrichAll(arrivals))
    ensures RowsOf(t, t', arrivals)
  {
    EnrichAllAt(arrivals);
    NewRows(t.queries, EnrichAll(arrivals), t.nextId, Stamp(EnrichAll(arrivals), t.nextId));
    forall i | 0 <= i < |arrivals|
      ensures IsRowOf(t'.queries[|t.queries| + i], arrivals[i], t.nextId + i)
    {
      EnrichedForActor(arrivals[i]);
    }
  }

  // ---- Announcements ----

  /** The log's length at each OnFlush: one entry per commit, none for a failure. */
  function Notices(t: Tables, handed: seq<seq<Query>>, commits: nat -> bool): seq<nat> {
    if handed == [] then []
    else
      var before := Notices(t, handed[..|handed| - 1], commits);
      if commits(|handed| - 1) then before + [|Stored(t, handed, commits).queries|] else before
  }

  /** The k-th announcement comes when exactly the first k + 1 committed batches are in the log. */
  lemma {:induction false} NoticesFollowCommits(t: Tables, handed: seq<seq<Query>>, commits: nat -> bool, k: nat)
    requires k < |Notices(t, handed, commits)|
    ensures |Notices(t, handed, commits)| == |Committed(handed, commits)|
    ensures Notices(t, handed, commits)[k] == |t.queries| + |Flatten(Committed(handed, commits)[..k + 1])|
  {
    var init := handed[..|handed| - 1];
    NoticeCount(t, init, commits);
    var kept := Committed(handed, commits);
    if k < |Notices(t, init, commits)| {
      NoticesFollowCommits(t, init, commits, k);
      assert kept[..k + 1] == Committed(init, commits)[..k + 1];
    } else {
      StoredIsCommitted(t, handed, commits);
      assert kept[..k + 1] == kept;
    }
  }

  lemma {:induction false} NoticeCount(t: Tables, handed: seq<seq<Query>>, commits: nat -> bool)
    ensures |Notices(t, handed, commits)| == |Committed(handed, commits)|
  {
    if handed != [] {
      NoticeCount(t, handed[..|handed| - 1], commits);
    }
  }

  // ---- The object ----

  class Writer {
    const db: Database
    const batchSize: nat
    var notices: seq<nat>   // the log's length at each OnFlush

    constructor (store: Database, size: nat)
      ensures db == store && batchSize == size && notices == []
    {
      db, batchSize, notices := store, size, [];
    }

    method Flush(buf: seq<Query>, commits: bool)
      modifies this, db
      ensures db.View() == if buf != [] && commits then Written(old(db.View()), buf) else old(db.View())
      ensures notices == if buf != [] && commits then old(notices) + [|db.queries|] else old(notices)
    {
      if |buf| == 0 {
        return;
      }
      var err := db.WriteQueries(buf, commits);
      if err {
        return;
      }
      notices := notices + [|db.queries|];
    }

    method Drain(pending: seq<Query>, queued: seq<Arrival>) returns (buf: seq<Query>)
      ensures buf == pending + EnrichAll(queued)
    {
      buf := pending;
      for i := 0 to |queued|
        invariant buf == pending + EnrichAll(queued[..i])
      {
        buf := buf + [Enrich(queued[i])];
        assert queued[..i + 1][..i] == queued[..i];
      }
      assert queued[..|queued|] == queued;
    }

    /** One round of the select; a batch that is due goes to the store before the next event is taken. */
    method Round(e: Event, pending: seq<Query>, attempt: nat, commits: nat -> bool, ghost t: Tables,
                 ghost before: seq<seq<Query>>)
      returns (buf: seq<Query>, flushed: bool, stopped: bool, ghost handed: seq<seq<Query>>)
      requires attempt == |before| && db.View() == Stored(t, before, commits) && notices == Notices(t, before, commits)
      modifies this, db
      ensures Progress(buf, handed, stopped) == Step(batchSize, Progress(pending, before, false), e)
      ensures db.View() == Stored(t, handed, commits) && notices == Notices(t, handed, commits)
      ensures |handed| == |before| + if flushed then 1 else 0
    {
      buf, stopped, handed := pending, Ends(e), before;
      var due := true;
      match e {
        case Receive(a) =>
          buf := buf + [Enrich(a)];
          due := |buf| >= batchSize;
        case Cancelled(queued) =>
          buf := Drain(buf, queued);
        case _ =>
      }
      flushed := due && |buf| > 0;
      if flushed {
        StoredNext(t, before, buf, commits);
        Flush(buf, commits(attempt));
        handed := before + [buf];
        buf := [];
      }
    }

    /** Runs over the observed events; `commits(i)` says whether the i-th call of WriteQueries commits. */
    method Run(events: seq<Event>, commits: nat -> bool)
      returns (buf: seq<Query>, ghost handed: seq<seq<Query>>, stopped: bool)
      requires notices == []
      modifies this, db
      ensures Progress(buf, handed, stopped) == Exec(batchSize, events)
      ensures db.View() == Stored(old(db.View()), handed, commits)
      ensures notices == Notices(old(db.View()), handed, commits)
    {
      buf, handed, stopped := [], [], false;
      var k, attempts := 0, 0;
      while k < |events| && !stopped
        invariant 0 <= k <= |events| && attempts == |handed|
        invariant Progress(buf, handed, stopped) == Exec(batchSize, events[..k])
        invariant db.View() == Stored(old(db.View()), handed, commits)
        invariant notices == Notices(old(db.View()), handed, commits)
      {
        var flushed;
        buf, flushed, stopped, handed := Round(events[k], buf, attempts, commits, old(db.View()), handed);
        attempts := attempts + if flushed then 1 else 0;
        assert events[..k + 1][..k] == events[..k];
        k := k + 1;
      }
      StoppedStays(batchSize, events, k);
    }
  }

  lemma StoredNext(t: Tables, handed: seq<seq<Query>>, batch: seq<Query>, commits: nat -> bool)
    ensures var before, after := Stored(t, handed, commits), Stored(t, handed + [batch], commits);
            && after == (if commits(|handed|) then Written(before, batch) else before)
            && Notices(t, handed + [batch], commits)
            == Notices(t, handed, commits) + (if commits(|handed|) then [|after.queries|] else [])
  {
  }

  /** Nothing after the end of the run is observed. */
  lemma {:induction false} StoppedStays(batchSize: nat, events: seq<Event>, k: nat)
    requires k <= |events| && (k == |events| || Exec(batchSize, events[..k]).stopped)
    ensures Exec(batchSize, events) == Exec(batchSize, events[..k])
  {
    if k == |events| {
      assert events[..k] == events;
    } else {
      var init := events[..|events| - 1];
      assert init[..k] == events[..k];
      StoppedStays(batchSize, init, k);
    }
  }
}
