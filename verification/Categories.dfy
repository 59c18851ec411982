/** Only known categories enter the system, so only known categories are ever stored and counted. */
module Categories {
  import opened Seqs
  import opened QueryLog
  import opened Store
  import opened Activity
  import opened Trends
  import opened Rollups
  import Classifier
  import Writer = PipelineWriter

  // ---- The callers' guard ----

  /** The white space of strings.TrimSpace, in ASCII. */
  predicate IsSpace(c: char) {
    c == ' ' || '\t' <= c <= '\r'
  }

  function Trim(s: string): string {
    if s == "" then s
    else if IsSpace(s[0]) then Trim(s[1..])
    else if IsSpace(s[|s| - 1]) then Trim(s[..|s| - 1])
    else s
  }

  datatype Normalized = Accepted(category: Category) | Rejected

  /** Empty and other strings never come out. */
  function Normalize(value: string): (r: Normalized)
    ensures r.Accepted? ==> Standard(r.category) && !r.category.Blank?
  {
    FromName(Classifier.Lower(Trim(value)))
  }

  /** The label of `uncategorized`, then each stored name. */
  function FromName(name: string): (r: Normalized)
    ensures r.Accepted? ==> Standard(r.category) && !r.category.Blank?
  {
    if name == "unclassified" then Accepted(Uncategorized)
    else if name == "tracking" then Accepted(Tracking)
    else if name == "advertising" then Accepted(Advertising)
    else if name == "analytics" then Accepted(Analytics)
    else if name == "telemetry" then Accepted(Telemetry)
    else if name == "malware" then Accepted(Malware)
    else if name == "uncategorized" then Accepted(Uncategorized)
    else Rejected
  }

  /** The string stored for a category. */
  function NameOf(category: Category): string
    requires Standard(category)
  {
    match category
    case Blank => ""
    case Tracking => "tracking"
    case Advertising => "advertising"
    case Analytics => "analytics"
    case Telemetry => "telemetry"
    case Malware => "malware"
    case Uncategorized => "uncategorized"
  }

  /** Tab, line feed, vertical tab, form feed, carriage return and space. */
  predicate AllSpace(s: string) {
    forall i :: 0 <= i < |s| ==> s[i] as int in {9, 10, 11, 12, 13, 32}
  }

  predicate Letters(s: string) {
    s != "" && forall i :: 0 <= i < |s| ==> 'a' <= s[i] <= 'z'
  }

  /** `value` is `name` in any ASCII case, between white space. */
  ghost predicate Spells(value: string, name: string) {
    exists pre, core, post :: Within(value, pre, core, post) && Classifier.SameName(core, name)
  }

  predicate Within(value: string, pre: string, core: string, post: string) {
    value == pre + core + post && AllSpace(pre) && AllSpace(post)
  }

  lemma {:induction false} TrimSplits(s: string) returns (pre: string, post: string)
    ensures Within(s, pre, Trim(s), post)
    decreases |s|
  {
    pre, post := "", "";
    if s == "" {
    } else if IsSpace(s[0]) {
      pre, post := TrimSplits(s[1..]);
      pre := [s[0]] + pre;
      assert s == [s[0]] + s[1..];
    } else if IsSpace(s[|s| - 1]) {
      pre, post := TrimSplits(s[..|s| - 1]);
      post := post + [s[|s| - 1]];
      assert s == s[..|s| - 1] + [s[|s| - 1]];
    }
  }

  lemma {:induction false} TrimWithin(s: string, pre: string, core: string, post: string)
    requires Within(s, pre, core, post) && core != "" && !IsSpace(core[0]) && !IsSpace(core[|core| - 1])
    ensures Trim(s) == core
    decreases |pre| + |post|
  {
    if pre != "" {
      assert s[0] == pre[0] && s[1..] == pre[1..] + core + post;
      TrimWithin(s[1..], pre[1..], core, post);
    } else if post != "" {
      assert s == core + post;
      assert s[0] == core[0] && s[|s| - 1] == post[|post| - 1];
      assert s[..|s| - 1] == core + post[..|post| - 1] == pre + core + post[..|post| - 1];
      TrimWithin(s[..|s| - 1], pre, core, post[..|post| - 1]);
    } else {
      assert s == core;
    }
  }

  lemma SpellsIff(value: string, name: string)
    requires Letters(name)
    ensures Spells(value, name) <==> Classifier.Lower(Trim(value)) == name
  {
    assert Classifier.Lower(name) == name;
    var pre, post := TrimSplits(value);
    Classifier.LowerIff(Trim(value), name);
    if Spells(value, name) {
      var pre', core, post' :| Within(value, pre', core, post') && Classifier.SameName(core, name);
      assert Classifier.SameLetter(core[0], name[0]);
      assert Classifier.SameLetter(core[|core| - 1], name[|core| - 1]);
      TrimWithin(value, pre', core, post');
    }
  }

  /** A value is accepted exactly when it spells one of the six names, or "unclassified" for the last of them. */
  lemma NormalizeIff(value: string, category: Category)
    ensures Normalize(value) == Accepted(category)
       <==> && Standard(category) && !category.Blank?
            && (Spells(value, NameOf(category)) || (category == Uncategorized && Spells(value, "unclassified")))
  {
    SpellsIff(value, "unclassified");
    FromNameIff(Classifier.Lower(Trim(value)), category);
    if Standard(category) && !category.Blank? {
      NamesAreLetters(category);
      SpellsIff(value, NameOf(category));
    }
  }

  lemma NamesAreLetters(category: Category)
    requires Standard(category) && !category.Blank?
    ensures Letters(NameOf(category))
  {
  }

  lemma FromNameIff(name: string, category: Category)
    ensures FromName(name) == Accepted(category)
       <==> && Standard(category) && !category.Blank?
            && (name == NameOf(category) || (category == Uncategorized && name == "unclassified"))
  {
  }

  lemma PlainName(s: string)
    requires s != "" && forall i :: 0 <= i < |s| ==> 'a' <= s[i] <= 'z'
    ensures Classifier.Lower(Trim(s)) == s
  {
  }

  /** A stored name normalises to itself. */
  lemma NormalizeIsStable(category: Category)
    requires Standard(category) && !category.Blank?
    ensures Normalize(NameOf(category)) == Accepted(category)
  {
    PlainName(NameOf(category));
  }

  /** A category the program itself writes. */
  predicate Standard(category: Category) {
    !category.Other?
  }

  datatype OverrideResult = Overridden | InvalidCategory | StoreFailed

  /** Sets an override only for a category that normalises. */
  method SetDomainOverride(mgr: Classifier.Manager, domain: string, value: string, accepted: bool)
    returns (r: OverrideResult, ghost ops: seq<Classifier.Op>)
    modifies mgr`overrides, mgr.db
    ensures r.InvalidCategory? <==> Normalize(value).Rejected?
    ensures r.StoreFailed? <==> Normalize(value).Accepted? && !accepted
    ensures StandardOps(ops) && mgr.View() == Classifier.Exec(old(mgr.View()), ops)
    ensures r.Overridden? ==> ops == [Classifier.SetOp(domain, Normalize(value).category, true)]
  {
    ops := [];
    var n := Normalize(value);
    if n.Rejected? {
      return InvalidCategory, ops;
    }
    ops := [Classifier.SetOp(domain, n.category, accepted)];
    assert ops[..0] == [];
    var err := mgr.SetOverride(domain, n.category, accepted);
    return if err then StoreFailed else Overridden, ops;
  }

  // ---- The classifier ----

  ghost predicate StandardMap(m: map<string, Category>) {
    forall d :: d in m ==> Standard(m[d])
  }

  ghost predicate StandardFetches(fetches: seq<Classifier.Fetch>) {
    forall f :: f in fetches && f.Fetched? ==> Standard(f.category)
  }

  /** An edit, a restart or a refresh whose categories have passed the guard. */
  ghost predicate StandardOp(op: Classifier.Op) {
    match op
    case SetOp(_, category, _) => Standard(category)
    case RemoveOp(_, _) => true
    case RestartOp(_, cached) => StandardMap(cached)
    case RefreshOp(fetches, _) => StandardFetches(fetches) && Classifier.OpOk(op)
  }

  ghost predicate StandardOps(ops: seq<Classifier.Op>) {
    forall op :: op in ops ==> StandardOp(op)
  }

  lemma {:induction false} ListingStandard(fetches: seq<Classifier.Fetch>, domain: string)
    requires StandardFetches(fetches)
    ensures var l := Classifier.LastListing(fetches, domain); l.Listed? ==> Standard(l.category)
  {
    if fetches != [] {
      assert fetches[|fetches| - 1] in fetches;
      ListingStandard(fetches[..|fetches| - 1], domain);
    }
  }

  lemma CombinedStandard(listed: map<string, Category>, fetches: seq<Classifier.Fetch>)
    requires StandardFetches(fetches) && Classifier.Combines(listed, fetches)
    ensures StandardMap(listed)
  {
    forall d | d in listed
      ensures Standard(listed[d])
    {
      ListingStandard(fetches, d);
      assert (if d in listed then Classifier.Listed(listed[d]) else Classifier.Unlisted)
           == Classifier.LastListing(fetches, d);
    }
  }

  ghost predicate StandardState(s: Classifier.State) {
    StandardMap(s.memory) && StandardMap(s.table) && StandardMap(s.listed)
  }

  /** Every run of edits, refreshes and restarts, with any failures, holds only known categories. */
  lemma {:induction false} RunKeepsStandard(table: map<string, Category>, ops: seq<Classifier.Op>)
    requires StandardMap(table) && StandardOps(ops)
    ensures StandardState(Classifier.Exec(Classifier.Unloaded(table), ops))
  {
    if ops != [] {
      var last := ops[|ops| - 1];
      assert StandardOp(last);
      RunKeepsStandard(table, ops[..|ops| - 1]);
      if last.RefreshOp? && !(last.fetches != [] && Classifier.AllFailed(last.fetches)) {
        CombinedStandard(last.combined, last.fetches);
      }
    }
  }

  /** So a lookup never gives any other. */
  lemma LookupStandard(table: map<string, Category>, ops: seq<Classifier.Op>, domain: string)
    requires StandardMap(table) && StandardOps(ops)
    ensures var s := Classifier.Exec(Classifier.Unloaded(table), ops);
            Standard(Classifier.Lookup(s.memory, s.listed, domain))
  {
    RunKeepsStandard(table, ops);
  }

  // ---- The writer ----

  /** The record is classified by a manager after some run of standard operations. */
  ghost predicate Classified(a: Writer.Arrival) {
    exists table, ops :: StandardMap(table) && StandardOps(ops) && ClassifiedBy(a, table, ops)
  }

  ghost predicate ClassifiedBy(a: Writer.Arrival, table: map<string, Category>, ops: seq<Classifier.Op>) {
    var s := Classifier.Exec(Classifier.Unloaded(table), ops);
    a.overrides == s.memory && a.listed == s.listed
  }

  ghost predicate StandardRows(log: seq<Query>) {
    forall q :: q in log ==> Standard(q.category)
  }

  lemma EnrichStandard(a: Writer.Arrival)
    requires Classified(a)
    ensures Standard(Writer.Enrich(a).category)
  {
    var table, ops :| StandardMap(table) && StandardOps(ops) && ClassifiedBy(a, table, ops);
    LookupStandard(table, ops, a.record.domain);
  }

  ghost predicate AllClassified(arrivals: seq<Writer.Arrival>) {
    forall a :: a in arrivals ==> Classified(a)
  }

  lemma {:induction false} EnrichAllStandard(arrivals: seq<Writer.Arrival>)
    requires AllClassified(arrivals)
    ensures StandardRows(Writer.EnrichAll(arrivals))
  {
    if arrivals != [] {
      assert arrivals[|arrivals| - 1] in arrivals;
      EnrichAllStandard(arrivals[..|arrivals| - 1]);
      EnrichStandard(arrivals[|arrivals| - 1]);
    }
  }

  lemma {:induction false} MembersOfFlatten(batches: seq<seq<Query>>, i: nat)
    requires i < |batches|
    ensures forall q :: q in batches[i] ==> q in Flatten(batches)
  {
    if i < |batches| - 1 {
      MembersOfFlatten(batches[..|batches| - 1], i);
    }
  }

  /** Every batch a writer run hands to the store holds only known categories. */
  lemma HandedStandard(batchSize: nat, events: seq<Writer.Event>, i: nat)
    requires AllClassified(Writer.Arrivals(Writer.Observed(events))) && i < |Writer.Exec(batchSize, events).handed|
    ensures StandardRows(Writer.Exec(batchSize, events).handed[i])
  {
    EnrichAllStandard(Writer.Arrivals(Writer.Observed(events)));
    Writer.WriterConserves(batchSize, events);
    MembersOfFlatten(Writer.Exec(batchSize, events).handed, i);
  }

  // ---- The store ----

  /** Every batch written is one some writer run handed over. */
  ghost predicate FromWriters(txns: seq<Txn>) {
    forall txn :: txn in txns && txn.Write? ==> FromWriter(txn.batch)
  }

  ghost predicate FromWriter(batch: seq<Query>) {
    exists batchSize: nat, events, i: nat :: Handed(batchSize, events, i, batch)
  }

  ghost predicate Handed(batchSize: nat, events: seq<Writer.Event>, i: nat, batch: seq<Query>) {
    && AllClassified(Writer.Arrivals(Writer.Observed(events)))
    && i < |Writer.Exec(batchSize, events).handed| && Writer.Exec(batchSize, events).handed[i] == batch
  }

  lemma WriteStandard(t: Tables, batch: seq<Query>)
    requires StandardRows(t.queries) && StandardRows(batch)
    ensures StandardRows(Written(t, batch).queries)
  {
    forall q | q in Stamp(batch, t.nextId)
      ensures Standard(q.category)
    {
      var i :| 0 <= i < |batch| && Stamp(batch, t.nextId)[i] == q;
      assert batch[i] in batch;
    }
  }

  /** Over every run of writes, purges and reopens, the log holds only known categories. */
  lemma {:induction false} LogStandard(t: Tables, txns: seq<Txn>)
    requires StandardRows(t.queries) && FromWriters(txns)
    ensures StandardRows(Run(t, txns).queries)
  {
    if txns != [] {
      var before, txn := Run(t, txns[..|txns| - 1]), txns[|txns| - 1];
      assert txn in txns;
      LogStandard(t, txns[..|txns| - 1]);
      match txn
      case Write(batch, _) =>
        var batchSize: nat, events, i: nat :| Handed(batchSize, events, i, batch);
        HandedStandard(batchSize, events, i);
        WriteStandard(before, batch);
      case Purge(ids, _) => FilterMembers(before.queries, NotIn(ids));
      case Open(_) =>
    }
  }

  /** So the panel always accounts for every current query: `Unmatched` plus the rows is the current total. */
  lemma PanelAlwaysConserves(disk: Tables, txns: seq<Txn>, counts: seq<WindowCount>, a: Actor, now: int)
    requires StandardRows(disk.queries) && FromWriters(txns)
    requires IsCategoryCounts(counts, Run(Opened(disk), txns).queries, a, now)
    ensures RowOf(counts, Blank).current + RowOf(counts, Uncategorized).current
         + SumCounts(RowsFor(counts, ListMatchOrder()))
         == LoadTrendsAt(Run(Opened(disk), txns).queries, a, now).current
  {
    LogStandard(Opened(disk), txns);
    PanelConservesIff(counts, Run(Opened(disk), txns).queries, a, now);
  }
}
