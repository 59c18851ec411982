/** In which order discoveries reach the store: exactly when a direct write overtakes queued ones. */
module WriteOrder {
  import opened Seqs
  import opened DeviceTracker
  import opened TrackerTheorems

  /** The rows stored, then those still buffered and queued: the order in which the store sees them. */
  function Line(s: State): seq<Device> {
    s.commits + s.buf + s.queue
  }

  /** The direct write and a row it was written ahead of are both selected. */
  ghost predicate Overtakes(w: Direct, p: Device -> bool) {
    p(w.d) && exists x :: x in w.ahead && p(x)
  }

  ghost predicate Overtaken(directs: seq<Direct>, p: Device -> bool) {
    exists w :: w in directs && Overtakes(w, p)
  }

  ghost predicate Precedes(s: seq<Device>, x: Device, y: Device) {
    exists i, j :: 0 <= i < j < |s| && s[i] == x && s[j] == y
  }

  /** Two rows stand one way in `a` and the other way in `b`. */
  ghost predicate Swapped(a: seq<Device>, b: seq<Device>) {
    exists x, y :: Precedes(a, x, y) && Precedes(b, y, x)
  }

  ghost predicate Distinct(s: seq<Device>) {
    forall i, j :: 0 <= i < j < |s| ==> s[i] != s[j]
  }

  lemma PrecedesInsert(a: seq<Device>, m: seq<Device>, b: seq<Device>, x: Device, y: Device)
    requires Precedes(a + b, x, y)
    ensures Precedes(a + m + b, x, y)
  {
    var i, j :| 0 <= i < j < |a + b| && (a + b)[i] == x && (a + b)[j] == y;
    var i', j' := if i < |a| then i else i + |m|, if j < |a| then j else j + |m|;
    assert (a + m + b)[i'] == x && (a + m + b)[j'] == y;
  }

  lemma PrecedesJoin(a: seq<Device>, b: seq<Device>, x: Device, y: Device)
    requires x in a && y in b
    ensures Precedes(a + b, x, y)
  {
    var i :| 0 <= i < |a| && a[i] == x;
    var j :| 0 <= j < |b| && b[j] == y;
    assert (a + b)[i] == x && (a + b)[|a| + j] == y;
  }

  /** Of distinct rows, an order and a swapped order are different orders. */
  lemma SwappedDiffers(a: seq<Device>, b: seq<Device>)
    requires Distinct(b) && Swapped(a, b)
    ensures a != b
  {
  }

  /** Rows inserted into one sequence and appended to the other leave a swap standing. */
  lemma SwappedStays(a: seq<Device>, m: seq<Device>, b: seq<Device>, c: seq<Device>)
    requires Swapped(a + b, c)
    ensures Swapped(a + m + b, c + m)
  {
    var x, y :| Precedes(a + b, x, y) && Precedes(c, y, x);
    PrecedesInsert(a, m, b, x, y);
    assert c + [] == c && c + m + [] == c + m;
    PrecedesInsert(c, m, [], y, x);
  }

  // ---- The invariant ----

  ghost predicate SameOrder(s: State, p: Device -> bool) {
    if Overtaken(s.directs, p) then Swapped(Filter(Line(s), p), Filter(s.accepted, p))
    else Filter(Line(s), p) == Filter(s.accepted, p)
  }

  ghost predicate AllAccepted(s: State) {
    forall x :: x in Line(s) <==> x in s.accepted
  }

  /** Everything but a send and a direct write leaves the order as it is. */
  lemma FlushKeepsLine(s: State)
    ensures Line(Flushed(s, true)) == Line(s)
    ensures Flushed(s, true).accepted == s.accepted && Flushed(s, true).directs == s.directs
  {
    if s.buf != [] {
      assert s.commits + s.buf + [] + s.queue == s.commits + s.buf + s.queue;
    }
  }

  lemma TakeKeepsLine(s: State)
    requires s.queue != []
    ensures Line(Taken(s)) == Line(s)
  {
    assert s.queue == [s.queue[0]] + s.queue[1..];
  }

  lemma OtherStepsKeepLine(s: State, step: Step)
    requires Succeeds(step) && !step.Offer? && !step.DirectWrite?
    ensures Line(Next(s, step)) == Line(s)
    ensures Next(s, step).accepted == s.accepted && Next(s, step).directs == s.directs
  {
    FlushKeepsLine(s);
    if step.Receive? && s.queue != [] {
      TakeKeepsLine(s);
      FlushKeepsLine(Taken(s));
    }
  }

  /** A send puts its row at the end of the line and of what was accepted. */
  lemma OfferLine(s: State, d: Device, p: Device -> bool)
    requires |s.queue| < QUEUE_CAPACITY
    ensures Filter(Line(Offered(s, d)), p) == Filter(Line(s), p) + Filter([d], p)
    ensures Filter(Offered(s, d).accepted, p) == Filter(s.accepted, p) + Filter([d], p)
  {
    assert Line(Offered(s, d)) == Line(s) + [d];
    FilterConcat(Line(s), [d], p);
    FilterConcat(s.accepted, [d], p);
  }

  lemma OfferKeepsOrder(s: State, d: Device, p: Device -> bool)
    requires SameOrder(s, p) && |s.queue| < QUEUE_CAPACITY
    ensures SameOrder(Offered(s, d), p)
  {
    OfferLine(s, d, p);
    SentFiltered(Filter(Line(s), p), Filter([d], p), Filter(s.accepted, p), Overtaken(s.directs, p));
  }

  lemma SentFiltered(line: seq<Device>, m: seq<Device>, accepted: seq<Device>, overtaken: bool)
    requires if overtaken then Swapped(line, accepted) else line == accepted
    ensures if overtaken then Swapped(line + m, accepted + m) else line + m == accepted + m
  {
    if overtaken {
      assert line + [] == line && line + m + [] == line + m;
      SwappedStays(line, m, [], accepted);
    }
  }

  lemma DirectOrder(s: State, d: Device, p: Device -> bool)
    requires SameOrder(s, p) && AllAccepted(s)
    ensures SameOrder(WrittenDirectly(s, d, true), p)
  {
    var rest := s.buf + s.queue;
    DirectLine(s, d, p);
    OvertakenNext(s.directs, Direct(d, rest), p);
    PendingAccepted(s, p);
    DirectFiltered(Filter(s.commits, p), Filter([d], p), Filter(rest, p), Filter(s.accepted, p),
                   Overtaken(s.directs, p));
  }

  lemma PendingAccepted(s: State, p: Device -> bool)
    requires AllAccepted(s)
    ensures forall x :: x in Filter(s.buf + s.queue, p) ==> x in Filter(s.accepted, p)
  {
    FilterMembers(s.buf + s.queue, p);
    FilterMembers(s.accepted, p);
    forall x | x in s.buf + s.queue
      ensures x in s.accepted
    {
      assert x in Line(s);
    }
  }

  lemma OvertakesIff(w: Direct, p: Device -> bool)
    ensures Overtakes(w, p) <==> Filter([w.d], p) != [] && Filter(w.ahead, p) != []
  {
    FilterOne(w.d, p);
    FilterMembers(w.ahead, p);
    if Filter(w.ahead, p) != [] {
      assert Filter(w.ahead, p)[0] in Filter(w.ahead, p);
    }
  }

  lemma OvertakenNext(directs: seq<Direct>, w: Direct, p: Device -> bool)
    ensures Overtaken(directs + [w], p)
       <==> Overtaken(directs, p) || (Filter([w.d], p) != [] && Filter(w.ahead, p) != [])
  {
    OvertakesIff(w, p);
    assert forall v :: v in directs + [w] <==> v in directs || v == w;
  }

  /** A direct write puts its row between what is stored and what is pending, and after everything accepted. */
  lemma DirectLine(s: State, d: Device, p: Device -> bool)
    ensures var t, rest := WrittenDirectly(s, d, true), s.buf + s.queue;
            && Filter(Line(s), p) == Filter(s.commits, p) + Filter(rest, p)
            && Filter(Line(t), p) == Filter(s.commits, p) + Filter([d], p) + Filter(rest, p)
            && Filter(t.accepted, p) == Filter(s.accepted, p) + Filter([d], p)
  {
    var t, rest := WrittenDirectly(s, d, true), s.buf + s.queue;
    Associate(s.commits, s.buf, s.queue);
    Associate(s.commits + [d], s.buf, s.queue);
    FilterConcat(s.commits, rest, p);
    FilterConcat(s.commits, [d], p);
    FilterConcat(s.commits + [d], rest, p);
    FilterConcat(s.accepted, [d], p);
  }

  /** The step on selected rows: the new ones go in before what is pending and after what was accepted. */
  lemma DirectFiltered(c: seq<Device>, m: seq<Device>, r: seq<Device>, accepted: seq<Device>, overtaken: bool)
    requires forall x :: x in r ==> x in accepted
    requires if overtaken then Swapped(c + r, accepted) else c + r == accepted
    ensures if overtaken || (m != [] && r != []) then Swapped(c + m + r, accepted + m) else c + m + r == accepted + m
  {
    if overtaken {
      SwappedStays(c, m, r, accepted);
    } else if m != [] && r != [] {
      PrecedesJoin(c + m, r, m[0], r[0]);
      PrecedesJoin(accepted, m, r[0], m[0]);
    }
  }

  lemma StepKeepsOrder(s: State, step: Step, p: Device -> bool)
    requires Succeeds(step) && SameOrder(s, p) && AllAccepted(s)
    ensures SameOrder(Next(s, step), p)
  {
    if Enabled(s, step) {
      match step
      case Offer(d) => if |s.queue| < QUEUE_CAPACITY { OfferKeepsOrder(s, d, p); }
      case DirectWrite(d, _) => DirectOrder(s, d, p);
      case _ => OtherStepsKeepLine(s, step);
    }
  }

  lemma StepKeepsAccepted(s: State, step: Step)
    requires Succeeds(step) && AllAccepted(s)
    ensures AllAccepted(Next(s, step))
  {
    if !step.Offer? && !step.DirectWrite? {
      OtherStepsKeepLine(s, step);
    }
  }

  lemma {:induction false} ReachableOrder(table: map<string, Device>, steps: seq<Step>, p: Device -> bool)
    requires AllSucceed(steps)
    ensures SameOrder(Exec(Initial(table), steps), p) && AllAccepted(Exec(Initial(table), steps))
  {
    if steps != [] {
      assert steps[|steps| - 1] in steps;
      ReachableOrder(table, steps[..|steps| - 1], p);
      StepKeepsOrder(Exec(Initial(table), steps[..|steps| - 1]), steps[|steps| - 1], p);
      StepKeepsAccepted(Exec(Initial(table), steps[..|steps| - 1]), steps[|steps| - 1]);
    }
  }

  // ---- The exact condition ----

  /**
   While writes succeed, the store sees any selection of the discoveries in the order they were accepted unless a
   selected direct write was made ahead of a selected row; for distinct discoveries, exactly then.
   */
  lemma InOrderIff(table: map<string, Device>, steps: seq<Step>, p: Device -> bool)
    requires AllSucceed(steps)
    ensures var s := Exec(Initial(table), steps);
            && (!Overtaken(s.directs, p) ==> Filter(Line(s), p) == Filter(s.accepted, p))
            && (Distinct(Filter(s.accepted, p)) ==>
                  (Filter(Line(s), p) == Filter(s.accepted, p) <==> !Overtaken(s.directs, p)))
  {
    var s := Exec(Initial(table), steps);
    ReachableOrder(table, steps, p);
    if Distinct(Filter(s.accepted, p)) && Overtaken(s.directs, p) {
      SwappedDiffers(Filter(Line(s), p), Filter(s.accepted, p));
    }
  }

  function Any(): Device -> bool {
    (d: Device) => true
  }

  lemma StepKeepsSent(s: State, step: Step)
    requires Succeeds(step) && (s.directs == [] ==> s.accepted == s.sent)
    ensures Next(s, step).directs == [] ==> Next(s, step).accepted == Next(s, step).sent
  {
  }

  lemma {:induction false} AcceptedIsSent(table: map<string, Device>, steps: seq<Step>)
    requires AllSucceed(steps)
    ensures var s := Exec(Initial(table), steps); s.directs == [] ==> s.accepted == s.sent
  {
    if steps != [] {
      assert steps[|steps| - 1] in steps;
      AcceptedIsSent(table, steps[..|steps| - 1]);
      StepKeepsSent(Exec(Initial(table), steps[..|steps| - 1]), steps[|steps| - 1]);
    }
  }

  /**
   Everything is stored in the order accepted iff no direct write was made ahead of anything; with none, in the
   order sent.
   */
  lemma QueuedInOrder(table: map<string, Device>, steps: seq<Step>)
    requires AllSucceed(steps)
    ensures var s := Exec(Initial(table), steps);
            && ((forall w :: w in s.directs ==> w.ahead == []) ==> Line(s) == s.accepted)
            && (Distinct(s.accepted) && Line(s) == s.accepted ==> forall w :: w in s.directs ==> w.ahead == [])
            && (s.directs == [] ==> Line(s) == s.sent)
  {
    var s := Exec(Initial(table), steps);
    InOrderIff(table, steps, Any());
    FilterAll(Line(s), Any());
    FilterAll(s.accepted, Any());
    AcceptedIsSent(table, steps);
    AnyOvertaken(s.directs);
  }

  lemma AnyOvertaken(directs: seq<Direct>)
    ensures Overtaken(directs, Any()) <==> exists w :: w in directs && w.ahead != []
  {
    if w :| w in directs && w.ahead != [] {
      assert w.ahead[0] in w.ahead && Any()(w.ahead[0]) && Any()(w.d);
      assert Overtakes(w, Any());
    }
  }

  /**
   So for each MAC: its writes are applied in the order accepted iff none of its direct writes overtook its own
   rows.
   */
  lemma MacInOrderIff(table: map<string, Device>, steps: seq<Step>, mac: string)
    requires AllSucceed(steps) && Distinct(Filter(Exec(Initial(table), steps).accepted, Of(mac)))
    ensures var s := Exec(Initial(table), steps);
            Filter(Line(s), Of(mac)) == Filter(s.accepted, Of(mac))
            <==> forall w :: w in s.directs && w.d.mac == mac ==> forall x :: x in w.ahead ==> x.mac != mac
  {
    var s := Exec(Initial(table), steps);
    InOrderIff(table, steps, Of(mac));
    if w :| w in s.directs && Overtakes(w, Of(mac)) {
      assert Of(mac)(w.d);
    }
    if w :| w in s.directs && w.d.mac == mac && exists x :: x in w.ahead && x.mac == mac {
      assert Of(mac)(w.d);
      var x :| x in w.ahead && x.mac == mac;
      assert Of(mac)(x) && Overtakes(w, Of(mac));
    }
  }

  /** A MAC with nothing pending and no overtaking has the row its discoveries give in the order they were accepted. */
  lemma RowFollowsAcceptance(table: map<string, Device>, steps: seq<Step>, mac: string)
    requires AllSucceed(steps)
    requires var s := Exec(Initial(table), steps);
             && !Overtaken(s.directs, Of(mac))
             && Filter(s.buf + s.queue, Of(mac)) == [] && Filter(s.accepted, Of(mac)) != []
    ensures var s := Exec(Initial(table), steps);
            mac in s.table && RowIs(s.table[mac], table, Filter(s.accepted, Of(mac)), mac)
  {
    var s := Exec(Initial(table), steps);
    InOrderIff(table, steps, Of(mac));
    NothingPending(s, Of(mac));
    ReachableInv(table, steps);
    HasRowIff(table, s.commits, mac);
    RowAfterWrites(table, s.commits, mac);
  }

  lemma NothingPending(s: State, p: Device -> bool)
    requires Filter(s.buf + s.queue, p) == []
    ensures Filter(Line(s), p) == Filter(s.commits, p)
  {
    Associate(s.commits, s.buf, s.queue);
    FilterConcat(s.commits, s.buf + s.queue, p);
  }

  // ---- The last write ----

  /** The last of the accepted rows was itself written directly ahead of a selected row. */
  ghost predicate LastOvertook(directs: seq<Direct>, own: seq<Device>, p: Device -> bool) {
    own != [] && exists w :: w in directs && w.d == own[|own| - 1] && Overtakes(w, p)
  }

  ghost predicate SameLast(a: seq<Device>, b: seq<Device>) {
    a == b == [] || (a != [] && b != [] && a[|a| - 1] == b[|b| - 1])
  }

  /** For distinct rows, the last of the line is the last accepted unless that one overtook. */
  ghost predicate LastMatches(line: seq<Device>, own: seq<Device>, directs: seq<Direct>, p: Device -> bool) {
    Distinct(own) ==> (SameLast(line, own) <==> !LastOvertook(directs, own, p))
  }

  ghost predicate LastOk(s: State, p: Device -> bool) {
    LastMatches(Filter(Line(s), p), Filter(s.accepted, p), s.directs, p)
  }

  ghost predicate DirectsAccepted(s: State) {
    forall w :: w in s.directs ==> w.d in s.accepted
  }

  ghost predicate OvertakersIn(directs: seq<Direct>, own: seq<Device>, p: Device -> bool) {
    forall w :: w in directs && Overtakes(w, p) ==> w.d in own
  }

  lemma DistinctInit(a: seq<Device>, d: Device)
    requires Distinct(a + [d])
    ensures Distinct(a) && d !in a
  {
    assert (a + [d])[|a|] == d && forall i :: 0 <= i < |a| ==> (a + [d])[i] == a[i];
  }

  lemma SentLast(line: seq<Device>, own: seq<Device>, d: Device, directs: seq<Direct>, p: Device -> bool)
    requires OvertakersIn(directs, own, p)
    ensures LastMatches(line + [d], own + [d], directs, p)
  {
    if Distinct(own + [d]) {
      DistinctInit(own, d);
    }
  }

  lemma DirectLast(c: seq<Device>, r: seq<Device>, own: seq<Device>, directs: seq<Direct>, w: Direct, p: Device -> bool)
    requires OvertakersIn(directs, own, p) && (Overtakes(w, p) <==> r != []) && forall x :: x in r ==> x in own
    ensures LastMatches(c + [w.d] + r, own + [w.d], directs + [w], p)
  {
    var line, longer := c + [w.d] + r, own + [w.d];
    if Distinct(longer) {
      DistinctInit(own, w.d);
      assert w in directs + [w];
      assert forall v :: v in directs + [w] ==> v in directs || v == w;
      if r != [] {
        assert line[|line| - 1] == r[|r| - 1] && r[|r| - 1] in r;
      } else {
        assert line == c + [w.d];
      }
    }
  }

  lemma DirectElsewhere(line: seq<Device>, own: seq<Device>, directs: seq<Direct>, w: Direct, p: Device -> bool)
    requires LastMatches(line, own, directs, p) && !Overtakes(w, p)
    ensures LastMatches(line, own, directs + [w], p)
  {
    assert forall v :: v in directs + [w] <==> v in directs || v == w;
  }

  lemma OvertakersSelected(s: State, p: Device -> bool)
    requires DirectsAccepted(s)
    ensures OvertakersIn(s.directs, Filter(s.accepted, p), p)
  {
    FilterMembers(s.accepted, p);
  }

  lemma OfferKeepsLast(s: State, d: Device, p: Device -> bool)
    requires LastOk(s, p) && DirectsAccepted(s) && |s.queue| < QUEUE_CAPACITY
    ensures LastOk(Offered(s, d), p)
  {
    OfferLine(s, d, p);
    FilterOne(d, p);
    var line, own := Filter(Line(s), p), Filter(s.accepted, p);
    if p(d) {
      OvertakersSelected(s, p);
      SentLast(line, own, d, s.directs, p);
    } else {
      assert line + [] == line && own + [] == own;
    }
  }

  lemma DirectKeepsLast(s: State, d: Device, p: Device -> bool)
    requires LastOk(s, p) && DirectsAccepted(s) && AllAccepted(s)
    ensures LastOk(WrittenDirectly(s, d, true), p)
  {
    var rest := s.buf + s.queue;
    var c, r, own, w := Filter(s.commits, p), Filter(rest, p), Filter(s.accepted, p), Direct(d, rest);
    DirectLine(s, d, p);
    FilterOne(d, p);
    OvertakesIff(w, p);
    if p(d) {
      OvertakersSelected(s, p);
      PendingAccepted(s, p);
      DirectLast(c, r, own, s.directs, w, p);
    } else {
      assert c + [] + r == c + r && own + [] == own;
      DirectElsewhere(c + r, own, s.directs, w, p);
    }
  }

  lemma StepKeepsLast(s: State, step: Step, p: Device -> bool)
    requires Succeeds(step) && LastOk(s, p) && DirectsAccepted(s) && AllAccepted(s)
    ensures LastOk(Next(s, step), p)
  {
    if Enabled(s, step) {
      match step
      case Offer(d) => if |s.queue| < QUEUE_CAPACITY { OfferKeepsLast(s, d, p); }
      case DirectWrite(d, _) => DirectKeepsLast(s, d, p);
      case _ => OtherStepsKeepLine(s, step);
    }
  }

  lemma StepKeepsDirects(s: State, step: Step)
    requires Succeeds(step) && DirectsAccepted(s)
    ensures DirectsAccepted(Next(s, step))
  {
    if !step.Offer? && !step.DirectWrite? {
      OtherStepsKeepLine(s, step);
    }
  }

  lemma {:induction false} ReachableLast(table: map<string, Device>, steps: seq<Step>, p: Device -> bool)
    requires AllSucceed(steps)
    ensures var s := Exec(Initial(table), steps); LastOk(s, p) && DirectsAccepted(s) && AllAccepted(s)
  {
    if steps != [] {
      var s, step := Exec(Initial(table), steps[..|steps| - 1]), steps[|steps| - 1];
      assert step in steps;
      ReachableLast(table, steps[..|steps| - 1], p);
      StepKeepsAccepted(s, step);
      StepKeepsDirects(s, step);
      StepKeepsLast(s, step, p);
    }
  }

  ghost predicate DistinctTimes(rows: seq<Device>) {
    forall i, j :: 0 <= i < j < |rows| ==> rows[i].lastSeen != rows[j].lastSeen
  }

  lemma SameLastIffSameTime(a: seq<Device>, b: seq<Device>)
    requires DistinctTimes(b) && a != [] && b != [] && a[|a| - 1] in b
    ensures Distinct(b) && (SameLast(a, b) <==> a[|a| - 1].lastSeen == b[|b| - 1].lastSeen)
  {
    var i :| 0 <= i < |b| && b[i] == a[|a| - 1];
  }

  /**
   Once nothing of a MAC is pending, its stored last_seen is that of its last accepted discovery iff that discovery
   was not written directly ahead of one of the same MAC.
   */
  lemma LastSeenIff(table: map<string, Device>, steps: seq<Step>, mac: string)
    requires AllSucceed(steps)
    requires var s := Exec(Initial(table), steps);
             && Filter(s.buf + s.queue, Of(mac)) == [] && Filter(s.accepted, Of(mac)) != []
             && DistinctTimes(Filter(s.accepted, Of(mac)))
    ensures var s := Exec(Initial(table), steps);
            var own := Filter(s.accepted, Of(mac));
            && mac in s.table
            && (s.table[mac].lastSeen == own[|own| - 1].lastSeen <==> !LastOvertook(s.directs, own, Of(mac)))
  {
    var s := Exec(Initial(table), steps);
    var own := Filter(s.accepted, Of(mac));
    ReachableLast(table, steps, Of(mac));
    ReachableInv(table, steps);
    var stored := StoredLast(table, s, mac);
    SameLastIffSameTime(stored, own);
  }

  lemma StoredLast(table: map<string, Device>, s: State, mac: string) returns (stored: seq<Device>)
    requires AllAccepted(s) && s.table == UpsertAll(table, s.commits)
    requires Filter(s.buf + s.queue, Of(mac)) == [] && Filter(s.accepted, Of(mac)) != []
    ensures stored == Filter(Line(s), Of(mac)) && stored != [] && stored[|stored| - 1] in Filter(s.accepted, Of(mac))
    ensures mac in s.table && s.table[mac].lastSeen == stored[|stored| - 1].lastSeen
  {
    stored := Filter(s.commits, Of(mac));
    NothingPending(s, Of(mac));
    FilterMembers(Line(s), Of(mac));
    FilterMembers(s.accepted, Of(mac));
    assert Filter(s.accepted, Of(mac))[0] in Filter(s.accepted, Of(mac));
    assert stored[|stored| - 1] in stored;
    HasRowIff(table, s.commits, mac);
    RowAfterWrites(table, s.commits, mac);
  }

  // ---- A run that overtakes ----

  /** The queue holds `older`, then rows of other MACs; nothing else has happened. */
  ghost predicate Filled(s: State, older: Device, n: nat) {
    && s.phase.Running? && s.active && s.buf == [] && s.commits == [] && s.directs == []
    && |s.queue| == n && s.accepted == s.queue && s.deciding == multiset{} && s.writing == multiset{}
    && (n > 0 ==> s.queue[0] == older)
    && forall i :: 0 < i < n ==> s.queue[i].mac != older.mac
  }

  lemma {:induction false} FillQueue(older: Device, other: Device, n: nat) returns (steps: seq<Step>, s: State)
    requires n <= QUEUE_CAPACITY && other.mac != older.mac
    ensures Exec(Initial(map[]), steps) == s && AllSucceed(steps) && Filled(s, older, n)
  {
    if n == 0 {
      steps, s := Extend(Initial(map[]), [], Initial(map[]), Activate);
    } else {
      var d := if n == 1 then older else other;
      steps, s := FillQueue(older, other, n - 1);
      steps, s := Extend(Initial(map[]), steps, s, Save(d));
      steps, s := Extend(Initial(map[]), steps, s, Offer(d));
    }
  }

  /** With the queue full, a save of `newer` is written directly. */
  lemma Overflow(older: Device, newer: Device, other: Device) returns (steps: seq<Step>, s: State)
    requires other.mac != older.mac
    ensures Exec(Initial(map[]), steps) == s && AllSucceed(steps) && s.phase.Running?
    ensures s.commits == [newer] && s.buf == [] && s.accepted == s.queue + [newer]
         && s.directs == [Direct(newer, s.queue)]
    ensures s.queue != [] && s.queue[0] == older && forall i :: 0 < i < |s.queue| ==> s.queue[i].mac != older.mac
  {
    steps, s := FillQueue(older, other, QUEUE_CAPACITY);
    steps, s := Extend(Initial(map[]), steps, s, Save(newer));
    assert newer in s.deciding;
    steps, s := Extend(Initial(map[]), steps, s, Offer(newer));
    assert newer in s.writing && [] + s.queue == s.queue;
    steps, s := Extend(Initial(map[]), steps, s, DirectWrite(newer, true));
  }

  /** The writer alone empties the queue and its buffer, and keeps the order. */
  lemma {:induction false} Empty(steps: seq<Step>, s: State) returns (longer: seq<Step>, t: State)
    requires Exec(Initial(map[]), steps) == s && AllSucceed(steps) && s.phase.Running?
    ensures Exec(Initial(map[]), longer) == t && AllSucceed(longer)
    ensures t.queue == [] && t.buf == [] && Line(t) == Line(s) && t.accepted == s.accepted && t.directs == s.directs
    decreases |s.queue|
  {
    if s.queue == [] {
      OtherStepsKeepLine(s, Tick(true));
      longer, t := Extend(Initial(map[]), steps, s, Tick(true));
    } else {
      OtherStepsKeepLine(s, Receive(true));
      var more, u := Extend(Initial(map[]), steps, s, Receive(true));
      longer, t := Empty(more, u);
    }
  }

  lemma OwnFirst(d: Device, rest: seq<Device>, p: Device -> bool)
    requires p(d) && forall x :: x in rest ==> !p(x)
    ensures Filter([d] + rest, p) == [d]
  {
    FilterConcat([d], rest, p);
    FilterOne(d, p);
    FilterNone(rest, p);
  }

  lemma OwnOrder(older: Device, newer: Device, rest: seq<Device>, p: Device -> bool)
    requires p(older) && p(newer) && forall x :: x in rest ==> !p(x)
    ensures Filter(([older] + rest) + [newer], p) == [older, newer]
    ensures Filter([newer] + ([older] + rest), p) == [newer, older]
  {
    OwnFirst(older, rest, p);
    FilterOne(newer, p);
    FilterConcat([older] + rest, [newer], p);
    FilterConcat([newer], [older] + rest, p);
  }

  /**
   Such a direct write exists: with the queue full behind `older`, a later save of the same MAC is written first, and
   once everything is stored the row carries the older last_seen.
   */
  lemma DirectWriteOvertakes(older: Device, newer: Device, other: Device) returns (steps: seq<Step>)
    requires older.mac == newer.mac != other.mac && older.lastSeen < newer.lastSeen
    ensures AllSucceed(steps)
    ensures var s := Exec(Initial(map[]), steps);
            && s.buf == s.queue == [] && LastOvertook(s.directs, Filter(s.accepted, Of(older.mac)), Of(older.mac))
            && Filter(s.accepted, Of(older.mac)) == [older, newer] && Filter(s.commits, Of(older.mac)) == [newer, older]
            && older.mac in s.table && s.table[older.mac].lastSeen == older.lastSeen < newer.lastSeen
  {
    var s: State;
    steps, s := Overflow(older, newer, other);
    var rest, before := s.queue[1..], s;
    assert s.queue == [older] + rest;
    OwnOrder(older, newer, rest, Of(older.mac));
    assert Line(s) == [newer] + ([older] + rest);
    steps, s := Empty(steps, s);
    assert Line(s) == s.commits;
    var w := Direct(newer, before.queue);
    assert w in s.directs && older in w.ahead && Overtakes(w, Of(older.mac)) by {
      assert Of(older.mac)(older) && Of(older.mac)(newer);
    }
    ReachableInv(map[], steps);
    HasRowIff(map[], s.commits, older.mac);
    RowAfterWrites(map[], s.commits, older.mac);
  }
}
