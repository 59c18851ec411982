/** Domain classification: overrides kept in memory and on disk, over a map built from blocklists. */
module Classifier {
  import opened QueryLog

  // ---- Names ----

  function LowerChar(c: char): char {
    if 'A' <= c <= 'Z' then (c as int + 32) as char else c
  }

  function Lower(s: string): string {
    seq(|s|, i requires 0 <= i < |s| => LowerChar(s[i]))
  }

  predicate EndsInDot(s: string) {
    |s| > 0 && s[|s| - 1] == '.'
  }

  /** The key a domain is stored and looked up under: lower case, one trailing dot removed. */
  function Normalise(domain: string): string {
    var s := Lower(domain);
    if EndsInDot(s) then s[..|s| - 1] else s
  }

  /** Equal, or the two cases of one ASCII letter. */
  predicate SameLetter(a: char, b: char) {
    a == b || ('a' <= a <= 'z' && a as int == b as int + 32) || ('a' <= b <= 'z' && b as int == a as int + 32)
  }

  predicate SameName(a: string, b: string) {
    |a| == |b| && forall i :: 0 <= i < |a| ==> SameLetter(a[i], b[i])
  }

  predicate NoCapitals(s: string) {
    forall i :: 0 <= i < |s| ==> !('A' <= s[i] <= 'Z')
  }

  lemma LowerChars(a: char, b: char)
    ensures LowerChar(a) == LowerChar(b) <==> SameLetter(a, b)
    ensures LowerChar(a) == '.' <==> a == '.'
    ensures LowerChar(a) == a <==> !('A' <= a <= 'Z')
  {
  }

  lemma LowerIff(a: string, b: string)
    ensures Lower(a) == Lower(b) <==> SameName(a, b)
  {
    forall i | 0 <= i < |a| == |b|
      ensures Lower(a)[i] == Lower(b)[i] <==> SameLetter(a[i], b[i])
    {
      LowerChars(a[i], b[i]);
    }
    assert |Lower(a)| == |a| && |Lower(b)| == |b|;
  }

  lemma LowerKeepsDots(a: string)
    ensures EndsInDot(Lower(a)) <==> EndsInDot(a)
    ensures Lower(a + ".") == Lower(a) + "."
  {
    if a != [] {
      LowerChars(a[|a| - 1], '.');
    }
  }

  lemma SameKeyAsLower(x: string, y: string)
    ensures (if EndsInDot(x) then x[..|x| - 1] else x) == (if EndsInDot(y) then y[..|y| - 1] else y)
       <==> x == y || (!EndsInDot(x) && x + "." == y) || (!EndsInDot(y) && y + "." == x)
  {
  }

  /** Two names share a key exactly when they are equal up to ASCII case and one trailing dot. */
  lemma SameKeyIff(a: string, b: string)
    ensures Normalise(a) == Normalise(b)
       <==> SameName(a, b) || (!EndsInDot(a) && SameName(a + ".", b)) || (!EndsInDot(b) && SameName(b + ".", a))
  {
    SameKeyAsLower(Lower(a), Lower(b));
    LowerKeepsDots(a);
    LowerKeepsDots(b);
    LowerIff(a, b);
    LowerIff(a + ".", b);
    LowerIff(b + ".", a);
  }

  // ---- Lookup ----

  /** Overrides first, then the active map; an unlisted domain has the empty category. */
  function Lookup(overrides: map<string, Category>, listed: map<string, Category>, domain: string): Category {
    var key := Normalise(domain);
    if key in overrides then overrides[key] else if key in listed then listed[key] else Blank
  }

  /** A name is its own key, so found as listed, exactly when it has no capital and no trailing dot. */
  lemma FoundUnderOwnNameIff(domain: string)
    ensures Normalise(domain) == domain <==> NoCapitals(domain) && !EndsInDot(domain)
  {
    LowerKeepsDots(domain);
    forall i | 0 <= i < |domain|
      ensures Lower(domain)[i] == domain[i] <==> !('A' <= domain[i] <= 'Z')
    {
      LowerChars(domain[i], domain[i]);
    }
    assert |Lower(domain)| == |domain|;
  }

  // ---- Refreshing the lists ----

  /** What fetching one source gave. */
  datatype Fetch = Failed | Fetched(domains: seq<string>, category: Category)

  function ListCategory(category: Category): Category {
    if category.Blank? then Uncategorized else category
  }

  datatype Listing = Unlisted | Listed(category: Category)

  /** The category given by the last source that was fetched and lists the domain. */
  function LastListing(fetches: seq<Fetch>, domain: string): Listing {
    if fetches == [] then Unlisted
    else
      var last := fetches[|fetches| - 1];
      if last.Fetched? && domain in last.domains then Listed(ListCategory(last.category))
      else LastListing(fetches[..|fetches| - 1], domain)
  }

  ghost predicate AllFailed(fetches: seq<Fetch>) {
    forall f :: f in fetches ==> f.Failed?
  }

  /** `listed` holds, for every domain, the last listing and nothing else. */
  ghost predicate Combines(listed: map<string, Category>, fetches: seq<Fetch>) {
    forall d :: (if d in listed then Listed(listed[d]) else Unlisted) == LastListing(fetches, d)
  }

  lemma LastListingNext(fetches: seq<Fetch>, i: nat, domain: string)
    requires i < |fetches|
    ensures LastListing(fetches[..i + 1], domain)
         == if fetches[i].Fetched? && domain in fetches[i].domains then Listed(ListCategory(fetches[i].category))
            else LastListing(fetches[..i], domain)
  {
    assert fetches[..i + 1][..i] == fetches[..i];
  }

  /** A domain is listed exactly when some fetched source lists it. */
  lemma {:induction false} ListedIff(fetches: seq<Fetch>, domain: string)
    ensures LastListing(fetches, domain).Listed?
       <==> exists f :: f in fetches && f.Fetched? && domain in f.domains
  {
    if fetches != [] {
      ListedIff(fetches[..|fetches| - 1], domain);
      assert fetches == fetches[..|fetches| - 1] + [fetches[|fetches| - 1]];
    }
  }

  /** Later sources decide: whatever came before, a source that lists the domain and is not followed by another wins. */
  lemma {:induction false} LastSourceWins(before: seq<Fetch>, winner: Fetch, after: seq<Fetch>, domain: string)
    requires winner.Fetched? && domain in winner.domains
    requires forall f :: f in after && f.Fetched? ==> domain !in f.domains
    ensures LastListing(before + [winner] + after, domain)
         == Listed(if winner.category == Blank then Uncategorized else winner.category)
  {
    var all := before + [winner] + after;
    if after == [] {
      assert all == before + [winner];
    } else {
      assert all[|all| - 1] == after[|after| - 1] && after[|after| - 1] in after;
      assert all[..|all| - 1] == before + [winner] + after[..|after| - 1];
      LastSourceWins(before, winner, after[..|after| - 1], domain);
    }
  }

  // ---- The state machine ----

  /** Overrides in memory, overrides in the store, and the active map. */
  datatype State = State(memory: map<string, Category>, table: map<string, Category>, listed: map<string, Category>)

  datatype Op =
    | SetOp(domain: string, category: Category, stored: bool)
    | RemoveOp(domain: string, stored: bool)
    | RestartOp(loaded: bool, cached: map<string, Category>)   // `cached` is what LoadFromCache found
    | RefreshOp(fetches: seq<Fetch>, combined: map<string, Category>)

  ghost predicate OpOk(op: Op) {
    op.RefreshOp? ==> (op.fetches != [] && AllFailed(op.fetches)) || Combines(op.combined, op.fetches)
  }

  ghost function Next(s: State, op: Op): State {
    match op
    case SetOp(domain, category, stored) =>
      if !stored then s
      else s.(table := s.table[Normalise(domain) := category], memory := s.memory[Normalise(domain) := category])
    case RemoveOp(domain, stored) =>
      if !stored then s
      else s.(table := s.table - {Normalise(domain)}, memory := s.memory - {Normalise(domain)})
    case RestartOp(loaded, cached) => State(if loaded then s.table else map[], s.table, cached)
    case RefreshOp(fetches, combined) =>
      if fetches != [] && AllFailed(fetches) then s else s.(listed := combined)
  }

  ghost function Exec(s: State, ops: seq<Op>): State {
    if ops == [] then s else Next(Exec(s, ops[..|ops| - 1]), ops[|ops| - 1])
  }

  /** Memory has seen `key`'s row: it was loaded at the last restart, or edited since. */
  predicate Known(ops: seq<Op>, key: string) {
    if ops == [] then false
    else match ops[|ops| - 1]
      case SetOp(domain, _, stored) => (stored && Normalise(domain) == key) || Known(ops[..|ops| - 1], key)
      case RemoveOp(domain, stored) => (stored && Normalise(domain) == key) || Known(ops[..|ops| - 1], key)
      case RestartOp(loaded, _) => loaded
      case RefreshOp(_, _) => Known(ops[..|ops| - 1], key)
  }

  /** A manager that has loaded nothing yet. */
  function Unloaded(table: map<string, Category>): State {
    State(map[], table, map[])
  }

  /** Whatever fails, memory holds exactly the stored overrides it knows of. */
  lemma {:induction false} MemoryIsKnownPart(table: map<string, Category>, ops: seq<Op>, key: string)
    ensures var s := Exec(Unloaded(table), ops);
            && (key in s.memory <==> Known(ops, key) && key in s.table)
            && (key in s.memory ==> s.memory[key] == s.table[key])
  {
    if ops != [] {
      MemoryIsKnownPart(table, ops[..|ops| - 1], key);
    }
  }

  /** Memory equals the store exactly when every stored override is known. */
  lemma MemoryEqualsTableIff(table: map<string, Category>, ops: seq<Op>)
    ensures var s := Exec(Unloaded(table), ops);
            s.memory == s.table <==> forall key :: key in s.table ==> Known(ops, key)
  {
    var s := Exec(Unloaded(table), ops);
    forall key
      ensures key in s.memory <==> Known(ops, key) && key in s.table
      ensures key in s.memory ==> s.memory[key] == s.table[key]
    {
      MemoryIsKnownPart(table, ops, key);
    }
  }

  /** A restart over one stored override whose listing fails forgets it, and the lookup changes. */
  lemma FailedRestartForgets(domain: string, category: Category)
    requires !category.Blank?
    ensures var table := map[Normalise(domain) := category];
            var s := Exec(Unloaded(table), [RestartOp(false, map[])]);
            && s.table == table && s.memory != s.table
            && Lookup(s.table, s.listed, domain) == category && Lookup(s.memory, s.listed, domain) == Blank
  {
    assert [RestartOp(false, map[])][..0] == [];
    assert Normalise(domain) in map[Normalise(domain) := category];
  }

  ghost predicate LoadsSucceed(ops: seq<Op>) {
    ops != [] && ops[0].RestartOp? && forall op :: op in ops && op.RestartOp? ==> op.loaded
  }

  lemma {:induction false} AllKnown(ops: seq<Op>, key: string)
    requires LoadsSucceed(ops)
    ensures Known(ops, key)
  {
    var init := ops[..|ops| - 1];
    assert ops[|ops| - 1] in ops;
    if !ops[|ops| - 1].RestartOp? {
      assert init[0] == ops[0];
      AllKnown(init, key);
    }
  }

  datatype Edit = Untouched | SetTo(category: Category) | Removed

  /** The last edit of a key that the store accepted. */
  function LastEdit(ops: seq<Op>, key: string): Edit {
    if ops == [] then Untouched
    else match ops[|ops| - 1]
      case SetOp(domain, category, stored) =>
        if stored && Normalise(domain) == key then SetTo(category) else LastEdit(ops[..|ops| - 1], key)
      case RemoveOp(domain, stored) =>
        if stored && Normalise(domain) == key then Removed else LastEdit(ops[..|ops| - 1], key)
      case RestartOp(_, _) => LastEdit(ops[..|ops| - 1], key)
      case RefreshOp(_, _) => LastEdit(ops[..|ops| - 1], key)
  }

  function After(table: map<string, Category>, edit: Edit, key: string): Listing {
    match edit
    case Untouched => if key in table then Listed(table[key]) else Unlisted
    case SetTo(category) => Listed(category)
    case Removed => Unlisted
  }

  /** The stored overrides are the initial ones as last edited. */
  lemma {:induction false} TableIsLastEdit(table: map<string, Category>, ops: seq<Op>, key: string)
    ensures var s := Exec(Unloaded(table), ops);
            (if key in s.table then Listed(s.table[key]) else Unlisted) == After(table, LastEdit(ops, key), key)
  {
    if ops != [] {
      TableIsLastEdit(table, ops[..|ops| - 1], key);
    }
  }

  /**
   The last refresh that fetched something, or had nothing to fetch, or the cache of the last restart, decides the
   map.
   */
  function Active(ops: seq<Op>): Op {
    if ops == [] then RestartOp(false, map[])
    else
      var last := ops[|ops| - 1];
      if last.RestartOp? then last
      else if last.RefreshOp? && (last.fetches == [] || exists f :: f in last.fetches && f.Fetched?) then last
      else Active(ops[..|ops| - 1])
  }

  function ActiveListing(op: Op, key: string): Listing {
    match op
    case RestartOp(_, cached) => if key in cached then Listed(cached[key]) else Unlisted
    case RefreshOp(fetches, _) => LastListing(fetches, key)
    case _ => Unlisted
  }

  lemma {:induction false} ListedIsActive(table: map<string, Category>, ops: seq<Op>, key: string)
    requires forall op :: op in ops ==> OpOk(op)
    ensures var s := Exec(Unloaded(table), ops);
            (if key in s.listed then Listed(s.listed[key]) else Unlisted) == ActiveListing(Active(ops), key)
  {
    if ops != [] {
      var last := ops[|ops| - 1];
      assert OpOk(last);
      ListedIsActive(table, ops[..|ops| - 1], key);
      if last.RefreshOp? && !(last.fetches != [] && AllFailed(last.fetches)) {
        assert Combines(last.combined, last.fetches);
      }
    }
  }

  function Given(l: Listing, otherwise: Category): Category {
    if l.Listed? then l.category else otherwise
  }

  /** With every restart's load succeeding, a lookup gives the last accepted override, else the last listing. */
  lemma ClassifyAfterRun(table: map<string, Category>, ops: seq<Op>, domain: string)
    requires LoadsSucceed(ops) && forall op :: op in ops ==> OpOk(op)
    ensures var s := Exec(Unloaded(table), ops);
            && s.memory == s.table
            && Lookup(s.memory, s.listed, domain)
            == Given(After(table, LastEdit(ops, Normalise(domain)), Normalise(domain)),
                     Given(ActiveListing(Active(ops), Normalise(domain)), Blank))
  {
    var s, key := Exec(Unloaded(table), ops), Normalise(domain);
    forall k | k in s.table
      ensures Known(ops, k)
    {
      AllKnown(ops, k);
    }
    MemoryEqualsTableIff(table, ops);
    TableIsLastEdit(table, ops, key);
    ListedIsActive(table, ops, key);
  }

  // ---- The objects ----

  /** The store's `domain_overrides` table. */
  class OverrideTable {
    var rows: map<string, Category>

    constructor (initial: map<string, Category>)
      ensures rows == initial
    {
      rows := initial;
    }
  }

  class Manager {
    const db: OverrideTable
    var overrides: map<string, Category>
    var domains: map<string, Category>

    function View(): State
      reads this, db
    {
      State(overrides, db.rows, domains)
    }

    constructor (table: OverrideTable)
      ensures db == table && View() == Unloaded(table.rows)
    {
      db, overrides, domains := table, map[], map[];
    }

    method Classify(domain: string) returns (category: Category)
      ensures category == Lookup(overrides, domains, domain)
    {
      var key := Normalise(domain);
      if key in overrides {
        return overrides[key];
      }
      return if key in domains then domains[key] else Blank;
    }

    /** `accepted` is whether the store's write succeeds; memory changes only after it. */
    method SetOverride(domain: string, category: Category, accepted: bool) returns (err: bool)
      modifies this`overrides, db
      ensures err == !accepted && View() == Next(old(View()), SetOp(domain, category, accepted))
    {
      var key := Normalise(domain);
      if !accepted {
        return true;
      }
      db.rows := db.rows[key := category];
      overrides := overrides[key := category];
      return false;
    }

    method RemoveOverride(domain: string, accepted: bool) returns (err: bool)
      modifies this`overrides, db
      ensures err == !accepted && View() == Next(old(View()), RemoveOp(domain, accepted))
    {
      var key := Normalise(domain);
      if !accepted {
        return true;
      }
      db.rows := db.rows - {key};
      overrides := overrides - {key};
      return false;
    }

    /** Stores every listed row in memory, in whatever order; a failed listing changes nothing. */
    method LoadOverrides(listed: bool) returns (err: bool)
      modifies this`overrides
      ensures err == !listed
      ensures overrides == if listed then old(overrides) + db.rows else old(overrides)
    {
      if !listed {
        return true;
      }
      var pending := db.rows.Keys;
      while pending != {}
        invariant pending <= db.rows.Keys
        invariant overrides == old(overrides) + (map d | d in db.rows && d !in pending :: db.rows[d])
        decreases pending
      {
        var d :| d in pending;
        overrides := overrides[d := db.rows[d]];
        pending := pending - {d};
      }
      assert (map d | d in db.rows && d !in pending :: db.rows[d]) == db.rows;
      return false;
    }

    /** Keeps the old map only when every one of at least one source failed. */
    method Refresh(fetches: seq<Fetch>) returns (err: bool)
      modifies this`domains
      ensures err <==> fetches != [] && AllFailed(fetches)
      ensures err ==> domains == old(domains)
      ensures View() == Next(old(View()), RefreshOp(fetches, domains)) && OpOk(RefreshOp(fetches, domains))
    {
      var combined: map<string, Category> := map[];
      var successCount := 0;
      for i := 0 to |fetches|
        modifies {}
        invariant Combines(combined, fetches[..i])
        invariant 0 <= successCount
        invariant successCount == 0 <==> AllFailed(fetches[..i])
      {
        assert fetches[..i + 1] == fetches[..i] + [fetches[i]];
        ghost var before := combined;
        if fetches[i].Fetched? {
          successCount := successCount + 1;
          combined := AddList(combined, fetches[i].domains, ListCategory(fetches[i].category));
        }
        CombinesNext(before, fetches, i, combined);
      }
      assert fetches[..|fetches|] == fetches;
      if |fetches| > 0 && successCount == 0 {
        return true;
      }
      domains := combined;
      return false;
    }
  }

  /** The inner loop: every domain of one list gets the list's category. */
  method AddList(combined: map<string, Category>, domains: seq<string>, category: Category)
    returns (larger: map<string, Category>)
    ensures larger == combined + (map d | d in domains :: category)
  {
    larger := combined;
    for j := 0 to |domains|
      invariant larger == combined + (map d | d in domains[..j] :: category)
    {
      larger := larger[domains[j] := category];
      assert domains[..j + 1] == domains[..j] + [domains[j]];
    }
    assert domains[..|domains|] == domains;
  }

  lemma CombinesNext(before: map<string, Category>, fetches: seq<Fetch>, i: nat, combined: map<string, Category>)
    requires i < |fetches| && Combines(before, fetches[..i])
    requires combined == if fetches[i].Failed? then before
                         else before + (map d | d in fetches[i].domains :: ListCategory(fetches[i].category))
    ensures Combines(combined, fetches[..i + 1])
  {
    forall d
      ensures (if d in combined then Listed(combined[d]) else Unlisted) == LastListing(fetches[..i + 1], d)
    {
      LastListingNext(fetches, i, d);
      assert (if d in before then Listed(before[d]) else Unlisted) == LastListing(fetches[..i], d);
    }
  }

  /** A new process over the same store: a fresh manager, its overrides loaded if the listing succeeds. */
  method Restart(table: OverrideTable, listed: bool, cached: map<string, Category>, ghost before: State)
    returns (m: Manager)
    requires before.table == table.rows
    ensures fresh(m) && m.db == table && m.View() == Next(before, RestartOp(listed, cached))
  {
    m := new Manager(table);
    var _ := m.LoadOverrides(listed);
    if cached != map[] {
      m.domains := cached;
    }
    assert map[] + table.rows == table.rows;
  }
}
