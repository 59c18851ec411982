/** The SSE handler: a database snapshot spliced onto the hub's channel. */
module StreamHandler {
  import opened Seqs
  import opened QueryLog
  import opened HubProtocol
  import opened HubInvariants
  import opened HubTheorems

  // ---- The handler's loops ----

  /**
   Writes each row until the connection fails, after `writable` rows; returns the last id written, or 0 for none, and
   whether a write failed.
   */
  method WriteQueryStreamBatch(rows: seq<Query>, writable: nat) returns (written: seq<Query>, lastId: int, err: bool)
    ensures written == Take(rows, writable) && lastId == LatestId(written) && err == (|rows| > writable)
  {
    written, lastId := [], 0;
    for i := 0 to |rows|
      invariant i <= writable && written == rows[..i] && lastId == LatestId(rows[..i])
    {
      if i == writable {
        return written, lastId, true;
      }
      written := written + [rows[i]];
      lastId := rows[i].id;
    }
    assert rows[..|rows|] == rows;
    return written, lastId, false;
  }

  /** The rows the receive loop writes: those past its moving cursor that match. */
  function Streamed(after: int, incoming: seq<Query>, f: FeedFilter): seq<Query> {
    if incoming == [] then []
    else
      var before, q := Streamed(after, incoming[..|incoming| - 1], f), incoming[|incoming| - 1];
      if q.id <= CursorAfter(after, before) || !MatchesFeedFilter(q, f) then before else before + [q]
  }

  function CursorAfter(after: int, written: seq<Query>): int {
    if written == [] then after else LatestId(written)
  }

  /** Everything the handler writes for one client whose connection lasts, up to the rows received so far. */
  function ClientEvents(after: int, initial: seq<Query>, incoming: seq<Query>, f: FeedFilter): seq<Query> {
    initial + Streamed(CursorAfter(after, initial), incoming, f)
  }

  lemma {:induction false} StreamedGrows(after: int, incoming: seq<Query>, i: nat, f: FeedFilter)
    requires i <= |incoming|
    ensures Streamed(after, incoming[..i], f) <= Streamed(after, incoming, f)
  {
    if i == |incoming| {
      assert incoming[..i] == incoming;
    } else {
      assert incoming[..|incoming| - 1][..i] == incoming[..i];
      StreamedGrows(after, incoming[..|incoming| - 1], i, f);
    }
  }

  lemma StreamedNext(after: int, incoming: seq<Query>, i: nat, f: FeedFilter)
    requires i < |incoming|
    ensures var before, q := Streamed(after, incoming[..i], f), incoming[i];
            Streamed(after, incoming[..i + 1], f)
            == if q.id <= CursorAfter(after, before) || !MatchesFeedFilter(q, f) then before else before + [q]
  {
    assert incoming[..i + 1][..i] == incoming[..i];
  }

  /** The receive loop; on a connection that takes only `writable` more rows it stops there. */
  method ReceiveLoop(after: int, incoming: seq<Query>, f: FeedFilter, writable: nat)
    returns (sent: seq<Query>, err: bool)
    ensures sent == Take(Streamed(after, incoming, f), writable) && err == (|Streamed(after, incoming, f)| > writable)
  {
    var afterId := after;
    sent := [];
    for i := 0 to |incoming|
      invariant sent == Streamed(after, incoming[..i], f) && |sent| <= writable && afterId == CursorAfter(after, sent)
    {
      var query := incoming[i];
      StreamedNext(after, incoming, i, f);
      if query.id <= afterId {
        continue;
      }
      if !MatchesFeedFilter(query, f) {
        continue;
      }
      var written, lastId, failed := WriteQueryStreamBatch([query], writable - |sent|);
      if failed {
        StreamedGrows(after, incoming, i + 1, f);
        return sent, true;
      }
      sent := sent + [query];
      afterId := lastId;
    }
    assert incoming[..|incoming|] == incoming;
    return sent, false;
  }

  /** Runs over the rows received until the client goes away, its connection fails or the hub closes the channel. */
  method HandleQueryStream(cursor: int, initial: seq<Query>, incoming: seq<Query>, f: FeedFilter, writable: nat)
    returns (events: seq<Query>, err: bool)
    ensures events == Take(ClientEvents(cursor, initial, incoming, f), writable)
    ensures err == (|ClientEvents(cursor, initial, incoming, f)| > writable)
  {
    var afterId := cursor;
    var written, lastId, failed := WriteQueryStreamBatch(initial, writable);
    if failed {
      return written, true;
    }
    if |initial| > 0 {
      afterId := lastId;
    }
    var sent;
    sent, err := ReceiveLoop(afterId, incoming, f, writable - |initial|);
    events := initial + sent;
  }

  // ---- What a client is owed ----

  function Owed(a: int, b: int, f: FeedFilter): Query -> bool {
    (q: Query) => a < q.id <= b && MatchesFeedFilter(q, f)
  }

  /** The rows with id above `a` and at most `b` that satisfy the filter, in order. */
  function Sel(log: seq<Query>, a: int, b: int, f: FeedFilter): seq<Query> {
    Filter(log, Owed(a, b, f))
  }

  lemma SelMembers(log: seq<Query>, a: int, b: int, f: FeedFilter)
    ensures forall q :: q in Sel(log, a, b, f) <==> q in log && a < q.id <= b && MatchesFeedFilter(q, f)
  {
    FilterMembers(log, Owed(a, b, f));
  }

  lemma SelEmpty(log: seq<Query>, a: int, b: int, f: FeedFilter)
    requires forall q :: q in log && a < q.id <= b ==> !MatchesFeedFilter(q, f)
    ensures Sel(log, a, b, f) == []
  {
    FilterNone(log, Owed(a, b, f));
  }

  /** Intervals of an ordered log concatenate. */
  lemma SelSplit(log: seq<Query>, a: int, b: int, c: int, f: FeedFilter)
    requires Ordered(log) && a <= b <= c
    ensures Sel(log, a, c, f) == Sel(log, a, b, f) + Sel(log, b, c, f)
  {
    var p := Pos(log, b);
    PosSplits(log, b);
    var low, high := log[..p], log[p..];
    assert log == low + high;
    FilterConcat(low, high, Owed(a, c, f));
    FilterConcat(low, high, Owed(a, b, f));
    FilterConcat(low, high, Owed(b, c, f));
    FilterCongruent(low, Owed(a, c, f), Owed(a, b, f));
    FilterNone(low, Owed(b, c, f));
    FilterCongruent(high, Owed(a, c, f), Owed(b, c, f));
    FilterNone(high, Owed(a, b, f));
  }

  /** Rows appended later do not change an interval that ends within the log. */
  lemma SelStable(log: seq<Query>, more: seq<Query>, a: int, b: int, f: FeedFilter)
    requires Ordered(log + more) && b <= LatestId(log)
    ensures Sel(log + more, a, b, f) == Sel(log, a, b, f)
  {
    FilterConcat(log, more, Owed(a, b, f));
    forall q | q in more
      ensures q.id > b
    {
      var i :| 0 <= i < |more| && more[i] == q;
      assert (log + more)[|log| + i] == q;
      assert log != [] ==> (log + more)[|log| - 1] == log[|log| - 1];
    }
    FilterNone(more, Owed(a, b, f));
  }
}
