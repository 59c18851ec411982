/** What subscribing, leaving, publishing and shutting down do to each channel, in plain terms. */
module HubLaws {
  import opened Seqs
  import opened QueryLog
  import opened HubProtocol
  import opened HubInvariants
  import opened HubTheorems

  // ---- Publishing ----

  function After(cursor: int): Query -> bool {
    (q: Query) => q.id > cursor
  }

  /** Rows a channel holds for its reader. */
  function Unread(c: Channel): int {
    |c.sent| - c.taken
  }

  /** The channel got all the rows if it has room for them in 256, and otherwise those that filled it and was closed. */
  ghost predicate Offered(c: Channel, d: Channel, rows: seq<Query>, open: bool) {
    && d.start == c.start && d.taken == c.taken
    && (open <==> Unread(c) + |rows| <= 256)
    && (open ==> d.sent == c.sent + rows && d.closes == c.closes)
    && (!open ==> Unread(d) == 256 && c.sent <= d.sent <= c.sent + rows && d.closes == c.closes + 1)
  }

  lemma OfferOne(c: Channel, q: Query)
    requires c.closes == 0 && Unread(c) <= 256
    ensures Offered(c, Offer(c, q), [q], HasRoom(c))
  {
    if !HasRoom(c) {
      assert c.sent <= c.sent + [q];
    }
  }

  lemma OfferedThenOpen(c: Channel, d: Channel, e: Channel, rows: seq<Query>, q: Query, open: bool)
    requires Offered(c, d, rows, true) && Offered(d, e, [q], open)
    ensures Offered(c, e, rows + [q], open)
  {
    assert c.sent + rows + [q] == c.sent + (rows + [q]);
    if !open {
      assert c.sent <= c.sent + rows;
    }
  }

  lemma OfferedThenClosed(c: Channel, d: Channel, rows: seq<Query>, q: Query)
    requires Offered(c, d, rows, false)
    ensures Offered(c, d, rows + [q], false)
  {
    assert c.sent + (rows + [q]) == c.sent + rows + [q];
  }

  /** The rows published so far that are past the old cursor decide each subscriber's fate. */
  ghost predicate FannedOut(s: Shared, t: Shared, rows: seq<Query>) {
    && |t.channels| == |s.channels| && t.subs <= s.subs
    && forall i :: 0 <= i < |s.channels| ==>
         if i in s.subs then Offered(s.channels[i], t.channels[i], rows, i in t.subs)
         else t.channels[i] == s.channels[i]
  }

  ghost predicate Open(s: Shared) {
    && (forall i :: i in s.subs ==> i < |s.channels|)
    && forall i :: 0 <= i < |s.channels| && i in s.subs ==> s.channels[i].closes == 0 && Unread(s.channels[i]) <= 256
  }

  lemma FanOutOne(s: Shared, t: Shared, rows: seq<Query>, q: Query)
    requires Open(s) && FannedOut(s, t, rows) && q.id > t.lastId
    ensures FannedOut(s, PublishRow(t, q), rows + [q])
  {
    var u := PublishRow(t, q);
    forall i | 0 <= i < |s.channels|
      ensures if i in s.subs then Offered(s.channels[i], u.channels[i], rows + [q], i in u.subs)
              else u.channels[i] == s.channels[i]
    {
      if i in t.subs {
        OfferOne(t.channels[i], q);
        OfferedThenOpen(s.channels[i], t.channels[i], u.channels[i], rows, q, i in u.subs);
      } else if i in s.subs {
        OfferedThenClosed(s.channels[i], t.channels[i], rows, q);
      }
    }
  }

  lemma FannedOutNothing(s: Shared)
    requires Open(s)
    ensures FannedOut(s, s, [])
  {
    forall i | 0 <= i < |s.channels| && i in s.subs
      ensures Offered(s.channels[i], s.channels[i], [], true)
    {
      assert s.channels[i].sent + [] == s.channels[i].sent;
    }
  }

  lemma {:induction false} PublishFansOut(s: Shared, rows: seq<Query>)
    requires Open(s) && Ordered(rows)
    ensures FannedOut(s, PublishRows(s, rows), Filter(rows, After(s.lastId)))
    ensures PublishRows(s, rows).lastId == if rows == [] || LatestId(rows) <= s.lastId then s.lastId else LatestId(rows)
  {
    if rows == [] {
      FannedOutNothing(s);
    } else {
      var init, q := rows[..|rows| - 1], rows[|rows| - 1];
      PublishFansOut(s, init);
      assert init != [] ==> LatestId(init) < q.id;
      if q.id > s.lastId {
        FanOutOne(s, PublishRows(s, init), Filter(init, After(s.lastId)), q);
      } else {
        assert Filter(init, After(s.lastId)) + [] == Filter(init, After(s.lastId));
      }
    }
  }

  /** So it does in every reachable state that is about to publish, when no reader takes rows meanwhile. */
  lemma BatchFansOut(batchSize: nat, log: seq<Query>, steps: seq<Step>)
    requires Ordered(log) && Exec(Initial(batchSize, log), steps).phase.Publishing?
    ensures var h := Exec(Initial(batchSize, log), steps);
            FannedOut(h.s, PublishRows(h.s, h.phase.rows), Filter(h.phase.rows, After(h.s.lastId)))
  {
    var h := Exec(Initial(batchSize, log), steps);
    ReachableInv(batchSize, log, steps);
    OpenWhenOk(h.log, h.s);
    FetchedOrdered(h);
    PublishFansOut(h.s, h.phase.rows);
  }

  /** The next row offered: the one at `done` in the fetched batch. */
  function NextRow(h: Hub): Query
    requires Enabled(h, Send)
  {
    h.phase.rows[h.phase.done]
  }

  /**
   Over every run: a row past the cursor reaches a subscriber exactly when it has fewer than 256 unread rows; one with
   256 is closed and removed instead. A row at or below the cursor, and a channel nobody is registered on, are skipped.
   */
  lemma SendIsExact(batchSize: nat, log: seq<Query>, steps: seq<Step>, i: nat)
    requires Ordered(log) && i < |Exec(Initial(batchSize, log), steps).s.channels|
    requires Enabled(Exec(Initial(batchSize, log), steps), Send)
    ensures var h := Exec(Initial(batchSize, log), steps);
            var h', q := Next(h, Send), NextRow(h);
            && h'.s.lastId == (if q.id <= h.s.lastId then h.s.lastId else q.id) && |h'.s.channels| == |h.s.channels|
            && SentTo(h.s.channels[i], h'.s.channels[i], i in h.s.subs, i in h'.s.subs, q, q.id > h.s.lastId)
  {
    ReachableInv(batchSize, log, steps);
    var h := Exec(Initial(batchSize, log), steps);
    assert ChannelOk(h.log, h.s.lastId, h.s.channels[i], i in h.s.subs);
  }

  ghost predicate SentTo(c: Channel, d: Channel, was: bool, open: bool, q: Query, isNew: bool) {
    && d.start == c.start && d.taken == c.taken
    && (if was && isNew then
          && (open <==> |c.sent| - c.taken < 256)
          && (open ==> d.sent == c.sent + [q] && d.closes == 0)
          && (!open ==> |c.sent| - c.taken == 256 && d.sent == c.sent && d.closes == 1)
        else d == c && (open <==> was))
  }

  /** After a batch the loop fetches on from the cursor only if it was full and someone listens, twice at most. */
  lemma UnlockDecides(batchSize: nat, log: seq<Query>, steps: seq<Step>)
    requires Ordered(log) && Enabled(Exec(Initial(batchSize, log), steps), Unlock)
    ensures var h := Exec(Initial(batchSize, log), steps);
            var h', more := Next(h, Unlock), h.s.subs != {} && |h.phase.rows| == batchSize;
            && h'.s == h.s && h.phase.batch < 3
            && (h'.phase.Parked? <==> !more)
            && (h'.phase == Renotifying <==> more && h.phase.batch == 2)
            && (h'.phase == Fetching(h.s.lastId, h.phase.batch + 1) <==> more && h.phase.batch < 2)
  {
    ReachableInv(batchSize, log, steps);
    ExecGrows(Initial(batchSize, log), steps);
  }

  lemma OpenWhenOk(log: seq<Query>, s: Shared)
    requires SharedOk(log, s)
    ensures Open(s)
  {
    forall i | 0 <= i < |s.channels| && i in s.subs
      ensures s.channels[i].closes == 0 && Unread(s.channels[i]) <= 256
    {
      assert ChannelOk(log, s.lastId, s.channels[i], true);
    }
  }

  lemma FetchedOrdered(h: Hub)
    requires SharedOk(h.log, h.s) && PhaseOk(h) && h.phase.Publishing?
    ensures Ordered(h.phase.rows)
  {
    var k := Pos(h.log, h.phase.cursor);
    assert forall j :: 0 <= j < |h.phase.rows| ==> h.phase.rows[j] == h.log[k + j];
  }

  /** While the loop holds the mutex, nobody else changes the map, the cursor or what any channel has been sent. */
  lemma MutexExcludes(h: Hub, step: Step, i: nat)
    requires Locked(h.phase) && step != Send && step != Unlock && i < |h.s.channels|
    ensures var h' := Next(h, step);
            && h'.s.subs == h.s.subs && h'.s.lastId == h.s.lastId && h'.phase == h.phase
            && |h'.s.channels| == |h.s.channels|
            && h'.s.channels[i] == h.s.channels[i].(taken := h'.s.channels[i].taken)
  {
  }

  /** A reader takes one row, and nothing else changes. */
  lemma ConsumeTakesOne(h: Hub, id: nat)
    requires Enabled(h, Consume(id))
    ensures var h', c := Next(h, Consume(id)), h.s.channels[id];
            && |h'.s.channels| == |h.s.channels| && h'.s.channels[id] == c.(taken := c.taken + 1) && c.taken < |c.sent|
            && (forall i :: 0 <= i < |h.s.channels| && i != id ==> h'.s.channels[i] == h.s.channels[i])
            && h'.s.subs == h.s.subs && h'.s.lastId == h.s.lastId && h'.phase == h.phase
  {
  }

  // ---- Subscribing, leaving, shutting down ----

  /** The first subscriber starts at the latest row, any other where the hub stands; nothing else changes. */
  lemma SubscribeStarts(h: Hub)
    requires Enabled(h, Subscribe(true))
    ensures var h', n := Next(h, Subscribe(true)), |h.s.channels|;
            var start := if h.s.subs == {} then LatestId(h.log) else h.s.lastId;
            && h'.s.subs == h.s.subs + {n} && h'.s.lastId == start && h'.s.running && h'.notifiers == h.notifiers + 1
            && |h'.s.channels| == n + 1 && (forall i :: 0 <= i < n ==> h'.s.channels[i] == h.s.channels[i])
            && var c := h'.s.channels[n]; c.start == start && c.sent == [] && c.taken == 0 && c.closes == 0
  {
  }

  /** When the first subscriber's id read fails, nothing changes. */
  lemma SubscribeFails(h: Hub)
    ensures Next(h, Subscribe(false)) == if h.s.subs == {} then h else Next(h, Subscribe(true))
  {
  }

  /** Leaving takes exactly that subscriber out and closes its channel, once. */
  lemma LeaveCloses(h: Hub, id: nat)
    requires SharedOk(h.log, h.s) && Enabled(h, Unsubscribe(id))
    ensures var h' := Next(h, Unsubscribe(id));
            && h'.s.subs == h.s.subs - {id} && |h'.s.channels| == |h.s.channels|
            && (forall i :: 0 <= i < |h.s.channels| && !(i == id && id in h.s.subs) ==>
                  h'.s.channels[i] == h.s.channels[i])
            && (id in h.s.subs ==> h'.s.channels[id].closes == 1 && h'.s.channels[id].sent == h.s.channels[id].sent)
  {
    if id in h.s.subs {
      assert ChannelOk(h.log, h.s.lastId, h.s.channels[id], true);
    }
  }

  /** Shutdown leaves nobody registered and every channel closed. */
  lemma ShutdownClosesAll(h: Hub)
    requires SharedOk(h.log, h.s) && Enabled(h, Shutdown)
    ensures var h' := Next(h, Shutdown);
            && h'.s.subs == {} && h'.phase.Exited? && |h'.s.channels| == |h.s.channels|
            && forall i :: 0 <= i < |h.s.channels| ==>
                 h'.s.channels[i].closes == 1 && h'.s.channels[i].sent == h.s.channels[i].sent
  {
    forall i | 0 <= i < |h.s.channels|
      ensures Next(h, Shutdown).s.channels[i].closes == 1
    {
      assert ChannelOk(h.log, h.s.lastId, h.s.channels[i], i in h.s.subs);
    }
  }

  /** Over every run, a channel is closed only by its own leaving, by shutdown, or with exactly 256 unread rows. */
  lemma ClosedOnlyBy(batchSize: nat, log: seq<Query>, steps: seq<Step>, step: Step, i: nat)
    requires Ordered(log) && i in Exec(Initial(batchSize, log), steps).s.subs
    requires i !in Next(Exec(Initial(batchSize, log), steps), step).s.subs
    ensures var h' := Next(Exec(Initial(batchSize, log), steps), step);
            || step == Unsubscribe(i) || step == Shutdown
            || (step == Send && i < |h'.s.channels| && |h'.s.channels[i].sent| - h'.s.channels[i].taken == 256)
  {
    var h := Exec(Initial(batchSize, log), steps);
    ReachableInv(batchSize, log, steps);
    if step == Send && Enabled(h, Send) {
      SendIsExact(batchSize, log, steps, i);
    }
  }
}
