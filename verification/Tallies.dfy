/** COUNT(*) and the tracker SUM over a selection of rows, and sums of such counts over a key set. */
module Tallies {
  import opened Seqs
  import opened QueryLog

  datatype Counts = Counts(total: int, tracker: int)

  /** The selected rows whose category counts as tracking in SQL. */
  function Tracked(p: Query -> bool): Query -> bool {
    (q: Query) => p(q) && InTrackingSet(q.category)
  }

  /** The counts of the rows that satisfy `p`. */
  function Tally(log: seq<Query>, p: Query -> bool): Counts {
    Counts(|Filter(log, p)|, |Filter(log, Tracked(p))|)
  }

  lemma TallyConcat(a: seq<Query>, b: seq<Query>, p: Query -> bool)
    ensures Tally(a + b, p).total == Tally(a, p).total + Tally(b, p).total
    ensures Tally(a + b, p).tracker == Tally(a, p).tracker + Tally(b, p).tracker
  {
    FilterConcat(a, b, p);
    FilterConcat(a, b, Tracked(p));
  }

  lemma TallyCongruent(log: seq<Query>, p: Query -> bool, q: Query -> bool)
    requires forall x :: x in log ==> p(x) == q(x)
    ensures Tally(log, p) == Tally(log, q)
  {
    FilterCongruent(log, p, q);
    FilterCongruent(log, Tracked(p), Tracked(q));
  }

  lemma {:induction false} FilterSplit(log: seq<Query>, all: Query -> bool, left: Query -> bool, right: Query -> bool)
    requires forall x :: x in log ==> !(left(x) && right(x)) && (all(x) <==> left(x) || right(x))
    ensures |Filter(log, all)| == |Filter(log, left)| + |Filter(log, right)|
  {
    if log != [] {
      assert log[|log| - 1] in log;
      FilterSplit(log[..|log| - 1], all, left, right);
    }
  }

  /** A selection that is the disjoint union of two others counts as their sum. */
  lemma TallySplit(log: seq<Query>, all: Query -> bool, left: Query -> bool, right: Query -> bool)
    requires forall x :: x in log ==> !(left(x) && right(x)) && (all(x) <==> left(x) || right(x))
    ensures Tally(log, all).total == Tally(log, left).total + Tally(log, right).total
    ensures Tally(log, all).tracker == Tally(log, left).tracker + Tally(log, right).tracker
  {
    FilterSplit(log, all, left, right);
    FilterSplit(log, Tracked(all), Tracked(left), Tracked(right));
  }

  lemma TallyOfFilter(log: seq<Query>, keep: Query -> bool, p: Query -> bool, both: Query -> bool)
    requires forall x :: x in log ==> both(x) == (keep(x) && p(x))
    ensures Tally(Filter(log, keep), p) == Tally(log, both)
  {
    FilterTwice(log, keep, p, both);
    FilterTwice(log, keep, Tracked(p), Tracked(both));
  }

  lemma TallyPositive(log: seq<Query>, p: Query -> bool)
    ensures Tally(log, p).total > 0 <==> exists x :: x in log && p(x)
    ensures Tally(log, p).total == 0 ==> Tally(log, p).tracker == 0
  {
    FilterMembers(log, p);
    FilterMembers(log, Tracked(p));
    if exists x :: x in log && p(x) {
      var x :| x in log && p(x);
      assert x in Filter(log, p);
    } else {
      FilterNone(log, p);
    }
    if Filter(log, p) == [] && Filter(log, Tracked(p)) != [] {
      var x := Filter(log, Tracked(p))[0];
      assert x in Filter(log, Tracked(p));
      assert x in Filter(log, p);
    }
  }

  function OfCategory(p: Query -> bool, c: Category): Query -> bool {
    (q: Query) => p(q) && q.category == c
  }

  /** A tracker count is the rows of three categories, each counted once, and of no other. */
  lemma TrackersAreThree(log: seq<Query>, p: Query -> bool)
    ensures Tally(log, p).tracker == |Filter(log, OfCategory(p, Tracking))| + |Filter(log, OfCategory(p, Advertising))|
                                     + |Filter(log, OfCategory(p, Malware))|
  {
    var rest := (q: Query) => p(q) && q.category in {Advertising, Malware};
    FilterSplit(log, Tracked(p), OfCategory(p, Tracking), rest);
    FilterSplit(log, rest, OfCategory(p, Advertising), OfCategory(p, Malware));
  }

  // ---- Sums over a finite key set ----

  ghost function SumOver<K(!new)>(keys: set<K>, f: K -> int): int {
    if keys == {} then 0
    else var k :| k in keys; f(k) + SumOver(keys - {k}, f)
  }

  /** The sum does not depend on the order in which the keys are taken. */
  lemma {:induction false} SumOverPick<K(!new)>(keys: set<K>, f: K -> int, x: K)
    requires x in keys
    ensures SumOver(keys, f) == f(x) + SumOver(keys - {x}, f)
    decreases |keys|
  {
    var k :| k in keys && SumOver(keys, f) == f(k) + SumOver(keys - {k}, f);
    if k != x {
      SumOverPick(keys - {k}, f, x);
      SumOverPick(keys - {x}, f, k);
      assert keys - {k} - {x} == keys - {x} - {k};
    }
  }

  function HasKey<K(==)>(keyOf: Query -> K, k: K): Query -> bool {
    (q: Query) => keyOf(q) == k
  }

  function KeyIn<K(==)>(keyOf: Query -> K, keys: set<K>): Query -> bool {
    (q: Query) => keyOf(q) in keys
  }

  /** Summing one count per key counts every row whose key is in the set, once. */
  lemma {:induction false} SumOfTallies<K(!new)>(log: seq<Query>, keyOf: Query -> K, keys: set<K>, total: K -> int,
                                                 tracker: K -> int)
    requires forall k :: k in keys ==> total(k) == Tally(log, HasKey(keyOf, k)).total
    requires forall k :: k in keys ==> tracker(k) == Tally(log, HasKey(keyOf, k)).tracker
    ensures SumOver(keys, total) == Tally(log, KeyIn(keyOf, keys)).total
    ensures SumOver(keys, tracker) == Tally(log, KeyIn(keyOf, keys)).tracker
    decreases |keys|
  {
    if keys == {} {
      TallyPositive(log, KeyIn(keyOf, keys));
    } else {
      var k :| k in keys;
      SumOverPick(keys, total, k);
      SumOverPick(keys, tracker, k);
      SumOfTallies(log, keyOf, keys - {k}, total, tracker);
      TallySplit(log, KeyIn(keyOf, keys), HasKey(keyOf, k), KeyIn(keyOf, keys - {k}));
    }
  }
}
