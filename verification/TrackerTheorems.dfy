/** What the device writer guarantees over every interleaving, and where its guarantees end. */
module TrackerTheorems {
  import opened Seqs
  import opened DeviceTracker

  predicate Succeeds(step: Step) {
    match step
    case DirectWrite(_, ok) => ok
    case Receive(ok) => ok
    case Tick(ok) => ok
    case DrainEnd(ok) => ok
    case _ => true
  }

  ghost predicate AllSucceed(steps: seq<Step>) {
    forall step :: step in steps ==> Succeeds(step)
  }

  lemma {:induction false} NoFailures(table: map<string, Device>, steps: seq<Step>)
    requires AllSucceed(steps)
    ensures Exec(Initial(table), steps).failed == multiset{}
  {
    if steps != [] {
      assert steps[|steps| - 1] in steps;
      NoFailures(table, steps[..|steps| - 1]);
    }
  }

  /**
   While saves succeed, every discovery is stored, buffered, queued or in flight, and the table holds what is
   stored.
   */
  lemma NothingLost(table: map<string, Device>, steps: seq<Step>)
    requires AllSucceed(steps)
    ensures var s := Exec(Initial(table), steps);
            && s.saved == multiset(s.commits) + multiset(s.buf) + multiset(s.queue) + s.deciding + s.writing
            && s.table == UpsertAll(table, s.commits)
  {
    NoFailures(table, steps);
    ReachableInv(table, steps);
  }

  ghost predicate Pending(s: State, d: Device) {
    d in s.buf || d in s.queue || d in s.deciding || d in s.writing
  }

  /** So a saved device that is no longer pending has a row. */
  lemma SavedHasRow(table: map<string, Device>, steps: seq<Step>, d: Device)
    requires AllSucceed(steps)
    requires var s := Exec(Initial(table), steps); d in s.saved && !Pending(s, d)
    ensures d.mac in Exec(Initial(table), steps).table
  {
    var s := Exec(Initial(table), steps);
    NothingLost(table, steps);
    assert d in s.commits;
    HasRowIff(table, s.commits, d.mac);
    FilterMembers(s.commits, Of(d.mac));
    assert d in Filter(s.commits, Of(d.mac));
  }

  // ---- What each step stores ----

  /** A tick of a running writer empties its buffer into the table in one transaction, or loses it if that fails. */
  lemma TickStores(s: State, ok: bool)
    requires s.phase.Running?
    ensures var t := Next(s, Tick(ok));
            && t.buf == [] && t.queue == s.queue && t.phase == s.phase && t.active == s.active
            && t.table == (if ok then UpsertAll(s.table, s.buf) else s.table)
            && t.commits == (if ok then s.commits + s.buf else s.commits)
            && t.failed == (if ok then s.failed else s.failed + multiset(s.buf))
  {
    assert s.commits + [] == s.commits;
  }

  /** Over every run: a received entry joins the buffer, and only with 64 there is the buffer stored, or lost. */
  lemma ReceiveStoresAt64(table: map<string, Device>, steps: seq<Step>, ok: bool)
    requires Enabled(Exec(Initial(table), steps), Receive(ok))
    ensures var s := Exec(Initial(table), steps);
            var t, batch := Next(s, Receive(ok)), s.buf + [s.queue[0]];
            && t.queue == s.queue[1..] && |batch| <= 64
            && t.buf == (if |batch| == 64 then [] else batch)
            && t.table == (if |batch| == 64 && ok then UpsertAll(s.table, batch) else s.table)
            && t.commits == (if |batch| == 64 && ok then s.commits + batch else s.commits)
            && t.failed == (if |batch| == 64 && !ok then s.failed + multiset(batch) else s.failed)
  {
    ReachableInv(table, steps);
    var s := Exec(Initial(table), steps);
    TakenStores(Taken(s), ok);
  }

  lemma TakenStores(s: State, ok: bool)
    requires s.buf != []
    ensures var t := FlushedIfFull(s, ok);
            && t.queue == s.queue
            && t.buf == (if |s.buf| >= 64 then [] else s.buf)
            && t.table == (if |s.buf| >= 64 && ok then UpsertAll(s.table, s.buf) else s.table)
            && t.commits == (if |s.buf| >= 64 && ok then s.commits + s.buf else s.commits)
            && t.failed == (if |s.buf| >= 64 && !ok then s.failed + multiset(s.buf) else s.failed)
  {
  }

  /** Over every run: a save that found the writer active falls through to a direct write only with 1024 queued. */
  lemma OfferQueuesBelow1024(table: map<string, Device>, steps: seq<Step>, d: Device)
    requires d in Exec(Initial(table), steps).deciding
    ensures var s := Exec(Initial(table), steps);
            var t := Next(s, Offer(d));
            && |s.queue| <= 1024 && t.deciding == s.deciding - multiset{d}
            && t.queue == (if |s.queue| < 1024 then s.queue + [d] else s.queue)
            && t.writing == (if |s.queue| < 1024 then s.writing else s.writing + multiset{d})
            && t.table == s.table && t.buf == s.buf
  {
    ReachableInv(table, steps);
  }

  /**
   After a successful tick, when every write succeeded, each discovery saved so far is in the table, still queued, or
   still with the goroutine that saves it: nothing the writer has taken is unstored.
   */
  lemma TickLeavesNothing(table: map<string, Device>, steps: seq<Step>)
    requires AllSucceed(steps) && Exec(Initial(table), steps).phase.Running?
    ensures var s := Exec(Initial(table), steps + [Tick(true)]);
            && s.buf == [] && s.sent == Flatten(s.handed) + s.queue
            && s.saved == multiset(s.commits) + multiset(s.queue) + s.deciding + s.writing
            && s.table == UpsertAll(table, s.commits)
  {
    var s := Exec(Initial(table), steps);
    var longer, t := Extend(Initial(table), steps, s, Tick(true));
    assert t.buf == [] by {
      TickStores(s, true);
    }
    NothingLost(table, longer);
    ReachableInv(table, longer);
    EmptyBuffer(t);
  }

  lemma EmptyBuffer(s: State)
    requires Fifo(s) && s.buf == []
    ensures s.sent == Flatten(s.handed) + s.queue
  {
    assert Flatten(s.handed) + [] == Flatten(s.handed);
  }

  // ---- Building runs ----

  lemma Extend(s0: State, steps: seq<Step>, s: State, step: Step) returns (longer: seq<Step>, t: State)
    requires Exec(s0, steps) == s && AllSucceed(steps) && Succeeds(step)
    ensures longer == steps + [step] && t == Next(s, step) && Exec(s0, longer) == t && AllSucceed(longer)
  {
    longer, t := steps + [step], Next(s, step);
    assert longer[..|steps|] == steps;
  }

  lemma {:induction false} ExecConcat(s: State, a: seq<Step>, b: seq<Step>)
    ensures Exec(s, a + b) == Exec(Exec(s, a), b)
  {
    if b == [] {
      assert a + b == a;
    } else {
      assert (a + b)[..|a + b| - 1] == a + b[..|b| - 1];
      ExecConcat(s, a, b[..|b| - 1]);
    }
  }

  // ---- Shutdown ----

  predicate Settled(s: State) {
    s.phase.Finished? && s.deciding == multiset{} && s.writing == multiset{}
  }

  /** After the writer has finished, every discovery is stored exactly when none was sent after the drain ended. */
  lemma AllStoredIff(table: map<string, Device>, steps: seq<Step>)
    requires AllSucceed(steps) && Settled(Exec(Initial(table), steps))
    ensures var s := Exec(Initial(table), steps);
            && s.saved == multiset(s.commits) + multiset(s.late)
            && (s.saved == multiset(s.commits) <==> s.late == [])
  {
    var s := Exec(Initial(table), steps);
    NothingLost(table, steps);
    ReachableInv(table, steps);
    assert s.saved == multiset(s.commits) + multiset(s.late);
    assert |s.saved| == |s.commits| + |s.late|;
  }

  /** A save has read the flag and is about to send. */
  lemma SaveDecides(table: map<string, Device>, d: Device) returns (steps: seq<Step>, s: State)
    ensures Exec(Initial(table), steps) == s && AllSucceed(steps) && s.phase.Running? && s.queue == [] && s.buf == []
    ensures s.deciding == multiset{d} && s.writing == multiset{} && s.table == table
  {
    steps, s := Extend(Initial(table), [], Initial(table), Activate);
    steps, s := Extend(Initial(table), steps, s, Save(d));
  }

  lemma DrainsAtOnce(s: State)
    requires s.phase.Running? && s.queue == [] && s.buf == []
    ensures Next(Next(s, Cancel), DrainEnd(true)) == s.(phase := Drained)
  {
  }

  /** The drain ends without it. */
  lemma DrainMisses(table: map<string, Device>, d: Device) returns (steps: seq<Step>, s: State)
    ensures Exec(Initial(table), steps) == s && AllSucceed(steps)
    ensures s.phase.Drained? && s.deciding == multiset{d} && s.writing == multiset{} && s.queue == []
         && s.table == table
  {
    steps, s := SaveDecides(table, d);
    DrainsAtOnce(s);
    steps, s := Extend(Initial(table), steps, s, Cancel);
    steps, s := Extend(Initial(table), steps, s, DrainEnd(true));
  }

  /** Such a send exists: a save that read the flag before the writer ended is left in the queue for good. */
  lemma StrandedSave(table: map<string, Device>, d: Device) returns (steps: seq<Step>)
    ensures AllSucceed(steps)
    ensures var s := Exec(Initial(table), steps); Settled(s) && s.queue == [d] && s.table == table
  {
    var s: State;
    steps, s := DrainMisses(table, d);
    steps, s := Extend(Initial(table), steps, s, Deactivate);
    steps, s := Extend(Initial(table), steps, s, Offer(d));
  }
}
