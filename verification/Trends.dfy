/** The two trend windows, the per-category counts over them, and the list-match panel built from those counts. */
module Trends {
  import opened Seqs
  import opened QueryLog
  import opened Tallies
  import opened Activity

  /** The windows are [now - 8d, now - 24h) and [now - 24h, now). */
  function PriorStart(now: int): int {
    now - 8 * DAY
  }

  function CurrentStart(now: int): int {
    now - DAY
  }

  /** The counts LoadTrendsAt scans before it turns them into percentages. */
  datatype TrendCounts = TrendCounts(current: int, currentTracker: int, prior: int, priorTracker: int)

  function From(start: int): Query -> bool {
    (q: Query) => q.ts >= start
  }

  function Before(end: int): Query -> bool {
    (q: Query) => q.ts < end
  }

  function Both(p: Query -> bool, r: Query -> bool): Query -> bool {
    (q: Query) => p(q) && r(q)
  }

  /** One statement: the WHERE selects both windows, each SUM(CASE ...) counts one of them. */
  function LoadTrendsAt(log: seq<Query>, a: Actor, now: int): TrendCounts {
    var rows := Filter(log, InSpan(a, PriorStart(now), now));
    var inCurrent := Both(From(CurrentStart(now)), Before(now));
    var inPrior := Both(From(PriorStart(now)), Before(CurrentStart(now)));
    TrendCounts(|Filter(rows, inCurrent)|, |Filter(rows, Tracked(inCurrent))|,
                |Filter(rows, inPrior)|, |Filter(rows, Tracked(inPrior))|)
  }

  /** The scanned counts are those of two disjoint windows that together cover the eight days. */
  lemma TrendsPartition(log: seq<Query>, a: Actor, now: int)
    ensures var t, day := LoadTrendsAt(log, a, now), 86_400_000_000_000;
            && t.current == Tally(log, InSpan(a, now - day, now)).total
            && t.currentTracker == Tally(log, InSpan(a, now - day, now)).tracker
            && t.prior == Tally(log, InSpan(a, now - 8 * day, now - day)).total
            && t.priorTracker == Tally(log, InSpan(a, now - 8 * day, now - day)).tracker
            && t.current + t.prior == Tally(log, InSpan(a, now - 8 * day, now)).total
            && t.currentTracker + t.priorTracker == Tally(log, InSpan(a, now - 8 * day, now)).tracker
  {
    var all, current := InSpan(a, PriorStart(now), now), InSpan(a, CurrentStart(now), now);
    var prior := InSpan(a, PriorStart(now), CurrentStart(now));
    TallyOfFilter(log, all, Both(From(CurrentStart(now)), Before(now)), current);
    TallyOfFilter(log, all, Both(From(PriorStart(now)), Before(CurrentStart(now))), prior);
    TallySplit(log, all, current, prior);
  }

  // ---- Per-category counts ----

  datatype WindowCount = WindowCount(category: Category, current: int, prior: int)

  function InCategories(a: Actor, from: int, to: int, categories: set<Category>): Query -> bool {
    (q: Query) => from <= q.ts < to && QueryMatches(a, q) && q.category in categories
  }

  function CountIn(log: seq<Query>, a: Actor, from: int, to: int, categories: set<Category>): nat {
    |Filter(log, InCategories(a, from, to, categories))|
  }

  function Categories(rows: seq<WindowCount>): set<Category> {
    set r | r in rows :: r.category
  }

  ghost predicate DistinctCategories(rows: seq<WindowCount>) {
    forall i, j :: 0 <= i < j < |rows| ==> rows[i].category != rows[j].category
  }

  ghost predicate RowsExact(rows: seq<WindowCount>, log: seq<Query>, a: Actor, from: int, mid: int, to: int) {
    forall r :: r in rows ==>
      r.current == CountIn(log, a, mid, to, {r.category}) && r.prior == CountIn(log, a, from, mid, {r.category})
  }

  /** One row per category that occurs, with its count in each of two adjacent windows. */
  ghost predicate CountsIn(rows: seq<WindowCount>, log: seq<Query>, a: Actor, from: int, mid: int, to: int) {
    && DistinctCategories(rows)
    && Categories(rows) == SeenCategories(log, a, from, to)
    && RowsExact(rows, log, a, from, mid, to)
  }

  /** The windows are the last 24 hours and the seven days before. */
  ghost predicate IsCategoryCounts(rows: seq<WindowCount>, log: seq<Query>, a: Actor, now: int) {
    CountsIn(rows, log, a, now - 8 * 86_400_000_000_000, now - 86_400_000_000_000, now)
  }

  function SeenCategories(log: seq<Query>, a: Actor, from: int, to: int): set<Category> {
    set q | q in log && InSpan(a, from, to)(q) :: q.category
  }

  /** SELECT category, SUM(CASE ...), SUM(CASE ...) ... GROUP BY 1, read row by row. */
  method CategoryCountsAt(log: seq<Query>, a: Actor, now: int) returns (rows: seq<WindowCount>)
    ensures IsCategoryCounts(rows, log, a, now)
  {
    rows := [];
    var from, mid := PriorStart(now), CurrentStart(now);
    var selected := Filter(log, InSpan(a, from, now));
    var groups := SeenCategories(log, a, from, now);
    var pending := groups;
    while pending != {}
      invariant pending <= groups
      invariant DistinctCategories(rows) && Categories(rows) == groups - pending
      invariant RowsExact(rows, log, a, from, mid, now)
      decreases pending
    {
      var c :| c in pending;
      pending := pending - {c};
      GroupCounts(log, a, from, mid, now, c);
      var row := WindowCount(c, |Filter(selected, Both(HasKey(CategoryOf, c), From(mid)))|,
                             |Filter(selected, Both(HasKey(CategoryOf, c), Before(mid)))|);
      AddRow(rows, row);
      rows := rows + [row];
    }
  }

  function CategoryOf(q: Query): Category {
    q.category
  }

  lemma AddRow(rows: seq<WindowCount>, r: WindowCount)
    requires DistinctCategories(rows) && r.category !in Categories(rows)
    ensures DistinctCategories(rows + [r]) && Categories(rows + [r]) == Categories(rows) + {r.category}
  {
  }

  /** The two CASE sums of one group, against the whole log. */
  lemma GroupCounts(log: seq<Query>, a: Actor, from: int, mid: int, to: int, c: Category)
    requires from <= mid <= to
    ensures var rows := Filter(log, InSpan(a, from, to));
            && |Filter(rows, Both(HasKey(CategoryOf, c), From(mid)))| == CountIn(log, a, mid, to, {c})
            && |Filter(rows, Both(HasKey(CategoryOf, c), Before(mid)))| == CountIn(log, a, from, mid, {c})
  {
    GroupCount(log, a, from, to, c, From(mid), mid, to);
    GroupCount(log, a, from, to, c, Before(mid), from, mid);
  }

  lemma GroupCount(log: seq<Query>, a: Actor, from: int, to: int, c: Category, window: Query -> bool, lo: int, hi: int)
    requires forall q :: q in log ==> (from <= q.ts < to && window(q) <==> lo <= q.ts < hi)
    ensures |Filter(Filter(log, InSpan(a, from, to)), Both(HasKey(CategoryOf, c), window))|
         == CountIn(log, a, lo, hi, {c})
  {
    FilterTwice(log, InSpan(a, from, to), Both(HasKey(CategoryOf, c), window), InCategories(a, lo, hi, {c}));
  }

  function Sum(rows: seq<WindowCount>, count: WindowCount -> int): int {
    if rows == [] then 0 else Sum(rows[..|rows| - 1], count) + count(rows[|rows| - 1])
  }

  function Current(): WindowCount -> int {
    (r: WindowCount) => r.current
  }

  function Prior(): WindowCount -> int {
    (r: WindowCount) => r.prior
  }

  function TrackingRow(): WindowCount -> bool {
    (r: WindowCount) => InTrackingSet(r.category)
  }

  /** Rows of distinct categories add up to the count of their union. */
  lemma {:induction false} RowsAddUp(log: seq<Query>, a: Actor, from: int, to: int, rows: seq<WindowCount>,
                                     count: WindowCount -> int)
    requires DistinctCategories(rows)
    requires forall r :: r in rows ==> count(r) == CountIn(log, a, from, to, {r.category})
    ensures Sum(rows, count) == CountIn(log, a, from, to, Categories(rows))
  {
    if rows == [] {
      FilterNone(log, InCategories(a, from, to, Categories(rows)));
    } else {
      var init, last := rows[..|rows| - 1], rows[|rows| - 1];
      assert rows == init + [last];
      RowsAddUp(log, a, from, to, init, count);
      assert forall i :: 0 <= i < |init| ==> init[i].category == rows[i].category != last.category;
      assert last.category !in Categories(init);
      assert Categories(rows) == Categories(init) + {last.category};
      UnionCount(log, a, from, to, Categories(init), {last.category});
    }
  }

  lemma UnionCount(log: seq<Query>, a: Actor, from: int, to: int, x: set<Category>, y: set<Category>)
    requires x !! y
    ensures CountIn(log, a, from, to, x + y) == CountIn(log, a, from, to, x) + CountIn(log, a, from, to, y)
  {
    FilterSplit(log, InCategories(a, from, to, x + y), InCategories(a, from, to, x), InCategories(a, from, to, y));
  }

  lemma {:induction false} TrackingRowsDistinct(rows: seq<WindowCount>)
    requires DistinctCategories(rows)
    ensures DistinctCategories(Filter(rows, TrackingRow()))
    ensures Categories(Filter(rows, TrackingRow())) == set c | c in Categories(rows) && InTrackingSet(c)
  {
    FilterMembers(rows, TrackingRow());
    if rows != [] {
      var init, last := rows[..|rows| - 1], rows[|rows| - 1];
      TrackingRowsDistinct(init);
      assert forall i :: 0 <= i < |init| ==> init[i].category == rows[i].category != last.category;
      if TrackingRow()(last) {
        assert last.category !in Categories(Filter(init, TrackingRow()));
        AddRow(Filter(init, TrackingRow()), last);
      }
    }
  }

  /** The rows of every category seen add up to a window's totals, and the tracking rows to its tracker count. */
  lemma WindowSums(log: seq<Query>, a: Actor, oldest: int, now: int, from: int, to: int, rows: seq<WindowCount>,
                   count: WindowCount -> int)
    requires DistinctCategories(rows) && Categories(rows) == SeenCategories(log, a, oldest, now)
    requires oldest <= from && to <= now
    requires forall r :: r in rows ==> count(r) == CountIn(log, a, from, to, {r.category})
    ensures Sum(rows, count) == Tally(log, InSpan(a, from, to)).total
    ensures Sum(Filter(rows, TrackingRow()), count) == Tally(log, InSpan(a, from, to)).tracker
  {
    RowsAddUp(log, a, from, to, rows, count);
    FilterCongruent(log, InCategories(a, from, to, Categories(rows)), InSpan(a, from, to));
    var tracking := Filter(rows, TrackingRow());
    FilterMembers(rows, TrackingRow());
    TrackingRowsDistinct(rows);
    RowsAddUp(log, a, from, to, tracking, count);
    FilterCongruent(log, InCategories(a, from, to, Categories(tracking)), Tracked(InSpan(a, from, to)));
  }

  lemma BothWindowSums(log: seq<Query>, a: Actor, from: int, mid: int, to: int, rows: seq<WindowCount>)
    requires CountsIn(rows, log, a, from, mid, to) && from <= mid <= to
    ensures Sum(rows, Current()) == Tally(log, InSpan(a, mid, to)).total
    ensures Sum(rows, Prior()) == Tally(log, InSpan(a, from, mid)).total
    ensures Sum(Filter(rows, TrackingRow()), Current()) == Tally(log, InSpan(a, mid, to)).tracker
    ensures Sum(Filter(rows, TrackingRow()), Prior()) == Tally(log, InSpan(a, from, mid)).tracker
  {
    WindowSums(log, a, from, to, mid, to, rows, Current());
    WindowSums(log, a, from, to, from, mid, rows, Prior());
  }

  /** The category rows conserve what LoadTrendsAt counts, in both windows. */
  lemma CategoriesSumToTrends(log: seq<Query>, a: Actor, now: int, rows: seq<WindowCount>)
    requires IsCategoryCounts(rows, log, a, now)
    ensures var t := LoadTrendsAt(log, a, now);
            && Sum(rows, Current()) == t.current
            && Sum(rows, Prior()) == t.prior
            && Sum(Filter(rows, TrackingRow()), Current()) == t.currentTracker
            && Sum(Filter(rows, TrackingRow()), Prior()) == t.priorTracker
  {
    TrendsPartition(log, a, now);
    BothWindowSums(log, a, PriorStart(now), CurrentStart(now), now, rows);
  }

  // ---- The list-match panel ----

  datatype MatchRow = MatchRow(category: Category, count: int, prior: int)

  /** Percentages are drawn from these counts and totals. */
  datatype ListMatches = ListMatches(rows: seq<MatchRow>, unmatched: int, currentTotal: int, priorTotal: int)

  function ListMatchOrder(): seq<Category> {
    [Tracking, Advertising, Malware, Analytics, Telemetry]
  }

  /** The last row of a category, or the zero row Go's map lookup gives. */
  function RowOf(counts: seq<WindowCount>, c: Category): WindowCount {
    if counts == [] then WindowCount(c, 0, 0)
    else if counts[|counts| - 1].category == c then counts[|counts| - 1]
    else RowOf(counts[..|counts| - 1], c)
  }

  /** The panel rows for a list of names: one for each with a current count, in that order. */
  function RowsFor(counts: seq<WindowCount>, names: seq<Category>): seq<MatchRow> {
    if names == [] then []
    else
      var r := RowOf(counts, names[|names| - 1]);
      RowsFor(counts, names[..|names| - 1])
      + (if r.current == 0 then [] else [MatchRow(names[|names| - 1], r.current, r.prior)])
  }

  method MakeListMatches(counts: seq<WindowCount>) returns (m: ListMatches)
    ensures m.unmatched == RowOf(counts, Blank).current + RowOf(counts, Uncategorized).current
    ensures m.rows == RowsFor(counts, ListMatchOrder())
    ensures m.currentTotal == Sum(counts, Current()) && m.priorTotal == Sum(counts, Prior())
  {
    var byCategory: map<Category, WindowCount> := map[];
    var currentTotal, priorTotal := 0, 0;
    for i := 0 to |counts|
      invariant forall c :: At(byCategory, c) == RowOf(counts[..i], c)
      invariant currentTotal == Sum(counts[..i], Current()) && priorTotal == Sum(counts[..i], Prior())
    {
      assert counts[..i + 1][..i] == counts[..i];
      byCategory := byCategory[counts[i].category := counts[i]];
      currentTotal := currentTotal + counts[i].current;
      priorTotal := priorTotal + counts[i].prior;
    }
    assert counts[..|counts|] == counts;
    var names, rows: seq<MatchRow> := ListMatchOrder(), [];
    for k := 0 to |names|
      invariant rows == RowsFor(counts, names[..k])
    {
      assert names[..k + 1][..k] == names[..k];
      var c := At(byCategory, names[k]);
      if c.current != 0 {
        rows := rows + [MatchRow(names[k], c.current, c.prior)];
      }
    }
    assert names[..|names|] == names;
    var unmatched := At(byCategory, Blank).current + At(byCategory, Uncategorized).current;
    return ListMatches(rows, unmatched, currentTotal, priorTotal);
  }

  function At(byCategory: map<Category, WindowCount>, c: Category): WindowCount {
    if c in byCategory then byCategory[c] else WindowCount(c, 0, 0)
  }

  function SumCounts(rows: seq<MatchRow>): int {
    if rows == [] then 0 else SumCounts(rows[..|rows| - 1]) + rows[|rows| - 1].count
  }

  lemma {:induction false} RowOfCounts(counts: seq<WindowCount>, c: Category)
    ensures RowOf(counts, c).category == c
    ensures RowOf(counts, c) in counts || (RowOf(counts, c) == WindowCount(c, 0, 0) && c !in Categories(counts))
  {
    if counts != [] {
      var init, last := counts[..|counts| - 1], counts[|counts| - 1];
      assert counts == init + [last];
      RowOfCounts(init, c);
    }
  }

  /** Looking a category up gives its count in each window, also when it has no row. */
  lemma LookupIsCount(counts: seq<WindowCount>, log: seq<Query>, a: Actor, from: int, mid: int, to: int, c: Category)
    requires CountsIn(counts, log, a, from, mid, to) && from <= mid <= to
    ensures RowOf(counts, c).current == CountIn(log, a, mid, to, {c})
    ensures RowOf(counts, c).prior == CountIn(log, a, from, mid, {c})
  {
    RowOfCounts(counts, c);
    if RowOf(counts, c) !in counts {
      Unseen(log, a, from, mid, to, c);
    }
  }

  lemma Unseen(log: seq<Query>, a: Actor, from: int, mid: int, to: int, c: Category)
    requires c !in SeenCategories(log, a, from, to) && from <= mid <= to
    ensures CountIn(log, a, mid, to, {c}) == 0 && CountIn(log, a, from, mid, {c}) == 0
  {
    FilterNone(log, InCategories(a, mid, to, {c}));
    FilterNone(log, InCategories(a, from, mid, {c}));
  }

  function CategoriesOf(rows: seq<MatchRow>): seq<Category> {
    if rows == [] then [] else CategoriesOf(rows[..|rows| - 1]) + [rows[|rows| - 1].category]
  }

  /** Every category's row gives those counts, also when it has none. */
  ghost predicate Looks(counts: seq<WindowCount>, current: Category -> int, prior: Category -> int) {
    forall c :: RowOf(counts, c).current == current(c) && RowOf(counts, c).prior == prior(c)
  }

  function CountOf(log: seq<Query>, a: Actor, from: int, to: int): Category -> int {
    (c: Category) => CountIn(log, a, from, to, {c})
  }

  lemma AllLookups(counts: seq<WindowCount>, log: seq<Query>, a: Actor, from: int, mid: int, to: int)
    requires CountsIn(counts, log, a, from, mid, to) && from <= mid <= to
    ensures Looks(counts, CountOf(log, a, mid, to), CountOf(log, a, from, mid))
  {
    forall c
      ensures RowOf(counts, c).current == CountOf(log, a, mid, to)(c)
      ensures RowOf(counts, c).prior == CountOf(log, a, from, mid)(c)
    {
      LookupIsCount(counts, log, a, from, mid, to, c);
    }
  }

  function NonZero(current: Category -> int): Category -> bool {
    (c: Category) => current(c) != 0
  }

  lemma {:induction false} PanelRowCategories(counts: seq<WindowCount>, names: seq<Category>, current: Category -> int,
                                              prior: Category -> int)
    requires Looks(counts, current, prior)
    ensures CategoriesOf(RowsFor(counts, names)) == Filter(names, NonZero(current))
    ensures forall r :: r in RowsFor(counts, names) ==> r.count == current(r.category) && r.prior == prior(r.category)
  {
    if names != [] {
      var init, last := names[..|names| - 1], names[|names| - 1];
      PanelRowCategories(counts, init, current, prior);
      var rows, row := RowsFor(counts, init), MatchRow(last, RowOf(counts, last).current, RowOf(counts, last).prior);
      assert (rows + [row])[..|rows|] == rows;
      assert rows + [] == rows;
    }
  }

  /**
   The panel's rows: of five categories, in this order, those with a query in the last 24 hours, each with that count
   and the count of the seven days before.
   */
  lemma PanelRows(counts: seq<WindowCount>, log: seq<Query>, a: Actor, now: int)
    requires IsCategoryCounts(counts, log, a, now)
    ensures var rows, day := RowsFor(counts, ListMatchOrder()), 86_400_000_000_000;
            var current, prior := CountOf(log, a, now - day, now), CountOf(log, a, now - 8 * day, now - day);
            && CategoriesOf(rows)
            == Filter([Tracking, Advertising, Malware, Analytics, Telemetry], NonZero(current))
            && (forall r :: r in rows ==> r.count == current(r.category) && r.prior == prior(r.category))
            && RowOf(counts, Blank).current == current(Blank)
            && RowOf(counts, Uncategorized).current == current(Uncategorized)
  {
    var day := 86_400_000_000_000;
    AllLookups(counts, log, a, now - 8 * day, now - day, now);
    PanelRowCategories(counts, ListMatchOrder(), CountOf(log, a, now - day, now),
                       CountOf(log, a, now - 8 * day, now - day));
  }

  function SetOf(names: seq<Category>): set<Category> {
    set c | c in names
  }

  lemma {:induction false} RowsCount(counts: seq<WindowCount>, log: seq<Query>, a: Actor, from: int, to: int,
                                     prior: Category -> int, names: seq<Category>)
    requires Looks(counts, CountOf(log, a, from, to), prior)
    requires forall i, j :: 0 <= i < j < |names| ==> names[i] != names[j]
    ensures SumCounts(RowsFor(counts, names)) == CountIn(log, a, from, to, SetOf(names))
  {
    if names == [] {
      FilterNone(log, InCategories(a, from, to, SetOf(names)));
    } else {
      var init, last := names[..|names| - 1], names[|names| - 1];
      RowsCount(counts, log, a, from, to, prior, init);
      assert names == init + [last];
      assert SetOf(names) == SetOf(init) + {last};
      UnionCount(log, a, from, to, SetOf(init), {last});
      SumNext(counts, names);
    }
  }

  lemma PanelRowsCount(counts: seq<WindowCount>, log: seq<Query>, a: Actor, now: int, names: seq<Category>)
    requires IsCategoryCounts(counts, log, a, now)
    requires forall i, j :: 0 <= i < j < |names| ==> names[i] != names[j]
    ensures SumCounts(RowsFor(counts, names)) == CountIn(log, a, now - 86_400_000_000_000, now, SetOf(names))
  {
    var day := 86_400_000_000_000;
    AllLookups(counts, log, a, now - 8 * day, now - day, now);
    RowsCount(counts, log, a, now - day, now, CountOf(log, a, now - 8 * day, now - day), names);
  }

  lemma SumNext(counts: seq<WindowCount>, names: seq<Category>)
    requires names != []
    ensures var init, r := names[..|names| - 1], RowOf(counts, names[|names| - 1]);
            SumCounts(RowsFor(counts, names)) == SumCounts(RowsFor(counts, init)) + r.current
  {
    var init, last := names[..|names| - 1], names[|names| - 1];
    var rows, row := RowsFor(counts, init), MatchRow(last, RowOf(counts, last).current, RowOf(counts, last).prior);
    assert (rows + [row])[..|rows|] == rows;
    assert rows + [] == rows;
  }

  /** A stored category the panel does not know. */
  function Unknown(a: Actor, from: int, to: int): Query -> bool {
    (q: Query) => InSpan(a, from, to)(q) && q.category.Other?
  }

  lemma ShortfallFor(counts: seq<WindowCount>, log: seq<Query>, a: Actor, from: int, to: int, prior: Category -> int,
                     names: seq<Category>)
    requires Looks(counts, CountOf(log, a, from, to), prior) && names == ListMatchOrder()
    ensures RowOf(counts, Blank).current + RowOf(counts, Uncategorized).current + SumCounts(RowsFor(counts, names))
         == |Filter(log, InSpan(a, from, to))| - |Filter(log, Unknown(a, from, to))|
  {
    KnownCounts(log, a, from, to, names);
    RowsCount(counts, log, a, from, to, prior, names);
  }

  /** `Unmatched` plus the rows is the current total less the queries of unknown categories. */
  lemma PanelShortfall(counts: seq<WindowCount>, log: seq<Query>, a: Actor, now: int)
    requires IsCategoryCounts(counts, log, a, now)
    ensures RowOf(counts, Blank).current + RowOf(counts, Uncategorized).current
         + SumCounts(RowsFor(counts, ListMatchOrder()))
         == LoadTrendsAt(log, a, now).current - |Filter(log, Unknown(a, now - 86_400_000_000_000, now))|
  {
    var day := 86_400_000_000_000;
    AllLookups(counts, log, a, now - 8 * day, now - day, now);
    ShortfallFor(counts, log, a, now - day, now, CountOf(log, a, now - 8 * day, now - day), ListMatchOrder());
    CurrentCount(log, a, now);
  }

  lemma CurrentCount(log: seq<Query>, a: Actor, now: int)
    ensures LoadTrendsAt(log, a, now).current == |Filter(log, InSpan(a, now - 86_400_000_000_000, now))|
  {
    TrendsPartition(log, a, now);
  }

  lemma KnownCounts(log: seq<Query>, a: Actor, from: int, to: int, names: seq<Category>)
    requires names == ListMatchOrder()
    ensures CountIn(log, a, from, to, {Blank}) + CountIn(log, a, from, to, {Uncategorized})
         + CountIn(log, a, from, to, SetOf(names))
         == |Filter(log, InSpan(a, from, to))| - |Filter(log, Unknown(a, from, to))|
  {
    KnownOrOther(names);
    UnionCount(log, a, from, to, {Blank}, {Uncategorized});
    UnionCount(log, a, from, to, {Blank} + {Uncategorized}, SetOf(names));
    var known := {Blank} + {Uncategorized} + SetOf(names);
    FilterSplit(log, InSpan(a, from, to), InCategories(a, from, to, known), Unknown(a, from, to));
  }

  lemma KnownOrOther(names: seq<Category>)
    requires names == ListMatchOrder()
    ensures forall c: Category :: c in {Blank} + {Uncategorized} + SetOf(names) <==> !c.Other?
  {
  }

  /** The panel accounts for every current query exactly when none has a category it does not know. */
  lemma PanelConservesIff(counts: seq<WindowCount>, log: seq<Query>, a: Actor, now: int)
    requires IsCategoryCounts(counts, log, a, now)
    ensures RowOf(counts, Blank).current + RowOf(counts, Uncategorized).current
         + SumCounts(RowsFor(counts, ListMatchOrder()))
         == LoadTrendsAt(log, a, now).current
       <==> forall q :: q in log && InSpan(a, now - 86_400_000_000_000, now)(q) ==> !q.category.Other?
  {
    PanelShortfall(counts, log, a, now);
    TallyPositive(log, Unknown(a, CurrentStart(now), now));
  }

  /** A row of some other category, which only foreign data can hold, is left out of the panel. */
  lemma ForeignRowMissing(counts: seq<WindowCount>, now: int, number: nat)
    requires IsCategoryCounts(counts, [ForeignRow(now, number)], Everyone, now)
    ensures RowOf(counts, Blank).current + RowOf(counts, Uncategorized).current
         + SumCounts(RowsFor(counts, ListMatchOrder()))
         == LoadTrendsAt([ForeignRow(now, number)], Everyone, now).current - 1
  {
    var q := ForeignRow(now, number);
    PanelShortfall(counts, [q], Everyone, now);
    assert CurrentStart(now) <= q.ts < now && InSpan(Everyone, CurrentStart(now), now)(q);
    FilterOne(q, Unknown(Everyone, CurrentStart(now), now));
  }

  function ForeignRow(now: int, number: nat): Query {
    Query(1, "", "10.0.0.7", "a.test.", "A", Other(number), now - 1)
  }
}
