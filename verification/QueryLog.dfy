/** The `queries` table: its rows, its id order, and the two feed filters. */
module QueryLog {
  import opened Seqs

  /**
   A stored category string: empty, one of the six known names, or one of all other strings, numbered in some order.
   */
  datatype Category =
    | Blank | Tracking | Advertising | Analytics | Telemetry | Malware | Uncategorized
    | Other(number: nat)

  /** A stored query; `ts` is nanoseconds since the Unix epoch. */
  datatype Query = Query(
    id: int, mac: string, source: string, domain: string, qtype: string, category: Category, ts: int)

  /** category IN trackingCategorySQL, the test of the store's SQL. */
  predicate InTrackingSet(category: Category) {
    category in {Tracking, Advertising, Malware}
  }

  /** The switch WriteQueries counts with. */
  predicate IsTrackingCategory(category: Category) {
    match category
    case Tracking => true
    case Advertising => true
    case Malware => true
    case _ => false
  }

  /** The two agree on every stored string, which the rollups depend on. */
  lemma TrackingTestsAgree(category: Category)
    ensures IsTrackingCategory(category) <==> InTrackingSet(category)
  {
  }

  /** Rows in id order, every id positive and used once, as AUTOINCREMENT assigns them. */
  ghost predicate Ordered(log: seq<Query>) {
    && (forall i :: 0 <= i < |log| ==> log[i].id > 0)
    && (forall i, j :: 0 <= i < j < |log| ==> log[i].id < log[j].id)
  }

  /** SELECT COALESCE(MAX(id), 0) over rows kept in id order. */
  function LatestId(log: seq<Query>): int {
    if log == [] then 0 else log[|log| - 1].id
  }

  /** It is the largest id, and 0 for an empty table. */
  lemma LatestIsMax(log: seq<Query>)
    requires Ordered(log)
    ensures forall q :: q in log ==> q.id <= LatestId(log)
    ensures if log == [] then LatestId(log) == 0 else exists q :: q in log && q.id == LatestId(log)
  {
    if log != [] {
      assert log[|log| - 1] in log;
    }
  }

  /** How many rows of an ordered log have an id at or below `cursor`. */
  function Pos(log: seq<Query>, cursor: int): (p: nat)
    ensures p <= |log|
  {
    if log == [] then 0
    else if log[|log| - 1].id <= cursor then |log|
    else Pos(log[..|log| - 1], cursor)
  }

  /** `p` splits the log at `cursor`: no row before it is above, no row from it on is at or below. */
  ghost predicate Splits(log: seq<Query>, cursor: int, p: nat) {
    && p <= |log|
    && (forall i :: 0 <= i < p ==> log[i].id <= cursor)
    && (forall i :: p <= i < |log| ==> log[i].id > cursor)
  }

  lemma {:induction false} PosSplits(log: seq<Query>, cursor: int)
    requires Ordered(log)
    ensures Splits(log, cursor, Pos(log, cursor))
  {
    if log != [] && log[|log| - 1].id > cursor {
      PosSplits(log[..|log| - 1], cursor);
    }
  }

  lemma {:induction false} PosIs(log: seq<Query>, cursor: int, p: nat)
    requires Ordered(log) && Splits(log, cursor, p)
    ensures Pos(log, cursor) == p
  {
    if log != [] && log[|log| - 1].id > cursor {
      PosIs(log[..|log| - 1], cursor, p);
    }
  }

  lemma {:induction false} PosMonotone(log: seq<Query>, a: int, b: int)
    requires a <= b
    ensures Pos(log, a) <= Pos(log, b)
  {
    if log != [] && log[|log| - 1].id > b {
      PosMonotone(log[..|log| - 1], a, b);
    }
  }

  /** Appending rows above every existing id moves no cursor that was within the log. */
  lemma PosStable(log: seq<Query>, more: seq<Query>, cursor: int)
    requires Ordered(log + more) && cursor <= LatestId(log)
    ensures Ordered(log) && Pos(log + more, cursor) == Pos(log, cursor)
  {
    OrderedPrefix(log, more);
    PosSplits(log, cursor);
    var p := Pos(log, cursor);
    forall i | p <= i < |log + more|
      ensures (log + more)[i].id > cursor
    {
      if i >= |log| && log != [] {
        assert (log + more)[|log| - 1].id < (log + more)[i].id;
      }
    }
    PosIs(log + more, cursor, p);
  }

  lemma OrderedPrefix(log: seq<Query>, more: seq<Query>)
    requires Ordered(log + more)
    ensures Ordered(log)
  {
    assert forall i :: 0 <= i < |log| ==> log[i] == (log + more)[i];
  }

  /** The rows with id above `a` and at most `b`, in order. */
  function Between(log: seq<Query>, a: int, b: int): seq<Query> {
    var lo, hi := Pos(log, a), Pos(log, b);
    if lo <= hi then log[lo..hi] else []
  }

  /** `Between` is exactly those rows, each once and in id order. */
  lemma BetweenIsExact(log: seq<Query>, a: int, b: int)
    requires Ordered(log)
    ensures Ordered(Between(log, a, b))
    ensures forall q :: q in Between(log, a, b) <==> q in log && a < q.id <= b
  {
    PosSplits(log, a);
    PosSplits(log, b);
    var lo, hi := Pos(log, a), Pos(log, b);
    forall q | q in log && a < q.id <= b
      ensures q in Between(log, a, b)
    {
      var i :| 0 <= i < |log| && log[i] == q;
      assert lo <= i < hi;
      assert q == log[lo..hi][i - lo];
    }
  }

  lemma BetweenStable(log: seq<Query>, more: seq<Query>, a: int, b: int)
    requires Ordered(log + more) && a <= b <= LatestId(log)
    ensures Between(log + more, a, b) == Between(log, a, b)
  {
    PosStable(log, more, a);
    PosStable(log, more, b);
  }

  // ---- Feed filters ----

  datatype FeedFilter = FeedFilter(mac: string, source: string, domain: string, category: Category)

  /** One conjunct of the WHERE clause `QueryFeed` builds. */
  datatype Condition =
    | IdAfter(id: int)
    | MacIs(mac: string)
    | SourceIs(source: string)
    | DomainIs(domain: string)
    | CategoryIs(category: Category)
    | CategoryEmptyOr(category: Category)

  predicate Holds(c: Condition, q: Query) {
    match c
    case IdAfter(id) => q.id > id
    case MacIs(mac) => q.mac == mac
    case SourceIs(source) => q.source == source
    case DomainIs(domain) => q.domain == domain
    case CategoryIs(category) => q.category == category
    case CategoryEmptyOr(category) => q.category.Blank? || q.category == category
  }

  /** The conjuncts, in the order the source appends them. */
  function FeedConditions(afterId: int, f: FeedFilter): seq<Condition> {
    [IdAfter(afterId)]
    + (if f.source != "" then [MacIs(""), SourceIs(f.source)]
       else if f.mac != "" then [MacIs(f.mac)] else [])
    + (if f.domain != "" then [DomainIs(f.domain)] else [])
    + (if f.category.Blank? then []
       else if f.category == Uncategorized then [CategoryEmptyOr(Uncategorized)]
       else [CategoryIs(f.category)])
  }

  predicate AllHold(cs: seq<Condition>, q: Query) {
    forall i :: 0 <= i < |cs| ==> Holds(cs[i], q)
  }

  function Selected(afterId: int, f: FeedFilter): Query -> bool {
    (q: Query) => AllHold(FeedConditions(afterId, f), q)
  }

  /** SELECT ... WHERE the conditions hold ORDER BY id LIMIT limit. */
  function QueryFeed(log: seq<Query>, afterId: int, f: FeedFilter, limit: nat): seq<Query> {
    Take(Filter(log, Selected(afterId, f)), limit)
  }

  /** The stream handler's own test, in the source's early-return order. */
  predicate MatchesFeedFilter(q: Query, f: FeedFilter) {
    if f.source != "" && (q.mac != "" || q.source != f.source) then false
    else if f.source == "" && f.mac != "" && q.mac != f.mac then false
    else if f.domain != "" && q.domain != f.domain then false
    else if f.category == Uncategorized then q.category.Blank? || q.category == Uncategorized
    else if !f.category.Blank? && q.category != f.category then false
    else true
  }

  lemma AllHoldConcat(a: seq<Condition>, b: seq<Condition>, q: Query)
    ensures AllHold(a + b, q) <==> AllHold(a, q) && AllHold(b, q)
  {
    forall i | 0 <= i < |b|
      ensures (a + b)[|a| + i] == b[i]
    {
    }
    if AllHold(a + b, q) {
      forall i | 0 <= i < |a|
        ensures Holds(a[i], q)
      {
        assert (a + b)[i] == a[i];
      }
      forall i | 0 <= i < |b|
        ensures Holds(b[i], q)
      {
        assert (a + b)[|a| + i] == b[i];
      }
    }
  }

  lemma OneHolds(c: Condition, q: Query)
    ensures AllHold([c], q) <==> Holds(c, q)
  {
    assert [c][0] == c;
  }

  /** The SQL snapshot and the in-memory stream test accept the same rows. */
  lemma FiltersAgree(q: Query, afterId: int, f: FeedFilter)
    ensures Selected(afterId, f)(q) <==> q.id > afterId && MatchesFeedFilter(q, f)
  {
    var byId := [IdAfter(afterId)];
    var byActor := if f.source != "" then [MacIs(""), SourceIs(f.source)]
                   else if f.mac != "" then [MacIs(f.mac)] else [];
    var byDomain := if f.domain != "" then [DomainIs(f.domain)] else [];
    var byCategory := if f.category.Blank? then []
                      else if f.category == Uncategorized then [CategoryEmptyOr(Uncategorized)]
                      else [CategoryIs(f.category)];
    AllHoldConcat(byId + byActor + byDomain, byCategory, q);
    AllHoldConcat(byId + byActor, byDomain, q);
    AllHoldConcat(byId, byActor, q);
    AllHoldConcat([MacIs("")], [SourceIs(f.source)], q);
    assert [MacIs("")] + [SourceIs(f.source)] == [MacIs(""), SourceIs(f.source)];
    OneHolds(IdAfter(afterId), q);
    OneHolds(MacIs(""), q);
    OneHolds(SourceIs(f.source), q);
    OneHolds(MacIs(f.mac), q);
    OneHolds(DomainIs(f.domain), q);
    OneHolds(CategoryIs(f.category), q);
    OneHolds(CategoryEmptyOr(Uncategorized), q);
  }

  /** A source's own rows or a device's, of a domain, of a category; Uncategorized takes the empty one along. */
  predicate Wanted(f: FeedFilter, q: Query) {
    && (f.source != "" ==> q.mac == "" && q.source == f.source)
    && (f.source == "" && f.mac != "" ==> q.mac == f.mac)
    && (f.domain != "" ==> q.domain == f.domain)
    && (f.category == Uncategorized ==> q.category in {Blank, Uncategorized})
    && (f.category !in {Blank, Uncategorized} ==> q.category == f.category)
  }

  /** Both tests select exactly those rows, the SQL's only past the cursor. */
  lemma FilterSelects(q: Query, afterId: int, f: FeedFilter)
    ensures Selected(afterId, f)(q) <==> q.id > afterId && Wanted(f, q)
    ensures MatchesFeedFilter(q, f) <==> Wanted(f, q)
  {
    FiltersAgree(q, afterId, f);
  }
}
