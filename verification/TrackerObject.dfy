/** The device store and tracker objects: their methods and loops take the step machine's steps. */
module TrackerObject {
  import opened DeviceTracker
  import opened TrackerTheorems

  /** The store's `devices` table. */
  class DeviceTable {
    var rows: map<string, Device>

    constructor (initial: map<string, Device>)
      ensures rows == initial
    {
      rows := initial;
    }

    /** One transaction: every row or none. */
    method UpsertDevices(devs: seq<Device>, commits: bool) returns (err: bool)
      modifies this
      ensures err == (devs != [] && !commits)
      ensures rows == if err then old(rows) else UpsertAll(old(rows), devs)
    {
      if |devs| == 0 {
        return false;
      }
      var table := rows;
      for i := 0 to |devs|
        modifies {}
        invariant table == UpsertAll(rows, devs[..i])
      {
        UpsertNext(rows, devs, i);
        table := Upsert(table, devs[i]);
      }
      assert devs[..|devs|] == devs;
      if !commits {
        return true;
      }
      rows := table;
      return false;
    }
  }

  /** What a round of the writer's select observes; between rounds, other goroutines save devices. */
  datatype Round = Saved(d: Device) | Ready | Ticked

  /** The steps one save takes when nothing comes between them. */
  ghost function SaveSteps(s: State, d: Device, ok: bool): seq<Step> {
    if !s.active then [Save(d), DirectWrite(d, ok)]
    else if |s.queue| < QUEUE_CAPACITY then [Save(d), Offer(d)]
    else [Save(d), Offer(d), DirectWrite(d, ok)]
  }

  predicate EndInTick(rounds: seq<Round>) {
    rounds != [] && rounds[|rounds| - 1].Ticked?
  }

  ghost function RoundSteps(s: State, round: Round, ok: bool): seq<Step> {
    match round
    case Saved(d) => SaveSteps(s, d, ok)
    case Ready => if s.queue == [] then [] else [Receive(ok)]
    case Ticked => [Tick(ok)]
  }

  ghost function AfterRounds(s: State, rounds: seq<Round>, ok: nat -> bool): State {
    if rounds == [] then s
    else
      var t := AfterRounds(s, rounds[..|rounds| - 1], ok);
      Exec(t, RoundSteps(t, rounds[|rounds| - 1], ok(|rounds| - 1)))
  }

  /** The drain takes entries, among other goroutines' saves, then flushes and resets writerActive. */
  ghost predicate DrainSteps(steps: seq<Step>) {
    && |steps| >= 2 && DrainRounds(steps[..|steps| - 2])
    && steps[|steps| - 2].DrainEnd? && steps[|steps| - 1].Deactivate?
  }

  ghost predicate DrainRounds(steps: seq<Step>) {
    forall step :: step in steps ==> step.Receive? || step.Save? || step.Offer? || step.DirectWrite?
  }

  /** A cancellation and its drain lead from `s` to `t`. */
  ghost predicate CancelledRun(s: State, steps: seq<Step>, t: State) {
    steps != [] && steps[0] == Cancel && DrainSteps(steps[1..]) && t == Exec(s, steps)
  }

  class Tracker {
    const db: DeviceTable
    var deviceWrites: seq<Device>
    var writerActive: bool
    ghost var state: State

    ghost predicate Valid()
      reads this, db
    {
      && state.queue == deviceWrites && state.active == writerActive && state.table == db.rows
      && |deviceWrites| <= QUEUE_CAPACITY
    }

    constructor (table: DeviceTable)
      ensures db == table && Valid() && state == Initial(table.rows)
    {
      db, deviceWrites, writerActive, state := table, [], false, Initial(table.rows);
    }

    method SaveDiscoveredDevice(d: Device, ok: bool)
      requires Valid()
      modifies this, db
      ensures Valid() && state == Exec(old(state), SaveSteps(old(state), d, ok))
      ensures state.phase == old(state.phase) && state.buf == old(state.buf)
      ensures var queued := old(writerActive) && old(|deviceWrites|) < 1024;
              && writerActive == old(writerActive)
              && deviceWrites == (if queued then old(deviceWrites) + [d] else old(deviceWrites))
              && db.rows == (if queued || !ok then old(db.rows) else UpsertAll(old(db.rows), [d]))
    {
      SaveTakesSteps(state, d, ok);
      SaveEffect(state, d, ok);
      state := SaveResult(state, d, ok);
      if writerActive {
        if |deviceWrites| < QUEUE_CAPACITY {
          deviceWrites := deviceWrites + [d];
          return;
        }
      }
      var _ := db.UpsertDevices([d], ok);
    }

    /** The closure `flush`. */
    method Flush(buf: seq<Device>, ok: bool)
      requires Valid() && state.buf == buf
      modifies this, db
      ensures Valid() && state == Flushed(old(state), ok) && deviceWrites == old(deviceWrites)
      ensures state.phase == old(state.phase) && state.buf == []
      ensures db.rows == if ok then UpsertAll(old(db.rows), buf) else old(db.rows)
    {
      state := Flushed(state, ok);
      if |buf| == 0 {
        return;
      }
      var _ := db.UpsertDevices(buf, ok);
    }

    /** Takes the head of the queue; a batch of 64 is flushed at once. */
    method Take(buf: seq<Device>, ok: bool) returns (rest: seq<Device>)
      requires Valid() && deviceWrites != [] && state.buf == buf && (state.phase.Running? || state.phase.Draining?)
      modifies this, db
      ensures Valid() && state == Next(old(state), Receive(ok)) && state.phase == old(state.phase)
      ensures rest == state.buf && deviceWrites == old(deviceWrites)[1..]
      ensures var batch := buf + [old(deviceWrites)[0]];
              && rest == (if |batch| < 64 then batch else [])
              && db.rows == (if |batch| < 64 || !ok then old(db.rows) else UpsertAll(old(db.rows), batch))
    {
      state := Taken(state);
      rest := buf + [deviceWrites[0]];
      deviceWrites := deviceWrites[1..];
      if |rest| >= BATCH_SIZE {
        Flush(rest, ok);
        rest := [];
      }
    }

    /** The saves other goroutines make before one of the drain's rounds. */
    method SaveAll(devs: seq<Device>, ok: bool) returns (ghost steps: seq<Step>)
      requires Valid()
      modifies this, db
      ensures Valid() && state == Exec(old(state), steps) && DrainRounds(steps)
      ensures state.phase == old(state.phase) && state.buf == old(state.buf)
    {
      steps := [];
      ghost var taken;
      for i := 0 to |devs|
        invariant Valid() && state == Exec(old(state), steps) && DrainRounds(steps)
        invariant state.phase == old(state.phase) && state.buf == old(state.buf)
      {
        taken := SaveSteps(state, devs[i], ok);
        SaveDiscoveredDevice(devs[i], ok);
        ExecConcat(old(state), steps, taken);
        steps := steps + taken;
      }
    }

    /** The drain's loop: takes until it finds the queue empty; `saves[n]` arrive before its n-th look at the queue. */
    method DrainQueue(pending: seq<Device>, saves: seq<seq<Device>>, ok: nat -> bool)
      returns (ghost steps: seq<Step>, buf: seq<Device>, n: nat)
      requires Valid() && state.phase.Draining? && state.buf == pending
      modifies this, db
      ensures Valid() && state == Exec(old(state), steps) && DrainRounds(steps)
      ensures state.phase.Draining? && deviceWrites == [] && state.buf == buf
    {
      steps, buf, n := [], pending, 0;
      ghost var taken;
      while true
        invariant Valid() && state.phase.Draining? && state.buf == buf
        invariant state == Exec(old(state), steps) && DrainRounds(steps)
        decreases if n < |saves| then |saves| - n else 0, |deviceWrites|
      {
        if n < |saves| {
          taken := SaveAll(saves[n], ok(n));
          ExecConcat(old(state), steps, taken);
          steps := steps + taken;
        }
        if |deviceWrites| == 0 {
          return;
        }
        steps := TakeStep(old(state), steps, state, Receive(ok(n)));
        buf := Take(buf, ok(n));
        n := n + 1;
      }
    }

    /** The final flush and the deferred reset of writerActive. */
    method Finish(buf: seq<Device>, ok: bool)
      requires Valid() && state.phase.Draining? && state.buf == buf && deviceWrites == []
      modifies this, db
      ensures Valid() && state == Next(Next(old(state), DrainEnd(ok)), Deactivate)
      ensures state.phase.Finished? && deviceWrites == [] && state.buf == [] && !writerActive
    {
      Flush(buf, ok);
      state := state.(phase := Finished, active := false);
      writerActive := false;
    }

    /** The inner loop after cancellation, to the end of the writer. */
    method Drain(pending: seq<Device>, saves: seq<seq<Device>>, ok: nat -> bool) returns (ghost steps: seq<Step>)
      requires Valid() && state.phase.Draining? && state.buf == pending
      modifies this, db
      ensures Valid() && state == Exec(old(state), steps) && DrainSteps(steps)
      ensures state.phase.Finished? && deviceWrites == [] && state.buf == [] && !writerActive
    {
      var buf, n;
      ghost var rounds;
      rounds, buf, n := DrainQueue(pending, saves, ok);
      var ends := TakeStep(old(state), rounds, state, DrainEnd(ok(n)));
      steps := TakeStep(old(state), ends, Next(state, DrainEnd(ok(n))), Deactivate);
      assert steps[..|steps| - 2] == rounds;
      Finish(buf, ok(n));
    }

    /** One round of the select. */
    method Handle(round: Round, pending: seq<Device>, ok: bool) returns (ghost steps: seq<Step>, buf: seq<Device>)
      requires Valid() && state.phase.Running? && state.buf == pending
      modifies this, db
      ensures Valid() && steps == RoundSteps(old(state), round, ok) && state == Exec(old(state), steps)
      ensures state.phase.Running? && state.buf == buf
      ensures round.Ticked? ==>
                && buf == [] && deviceWrites == old(deviceWrites)
                && db.rows == if ok then UpsertAll(old(db.rows), pending) else old(db.rows)
      ensures round.Ready? && old(deviceWrites) != [] ==>
                var batch := pending + [old(deviceWrites)[0]];
                && deviceWrites == old(deviceWrites)[1..] && buf == (if |batch| < 64 then batch else [])
                && db.rows == (if |batch| < 64 || !ok then old(db.rows) else UpsertAll(old(db.rows), batch))
    {
      steps, buf := RoundSteps(state, round, ok), pending;
      RoundTakesSteps(state, round, ok);
      match round
      case Saved(d) =>
        SaveTakesSteps(state, d, ok);
        SaveDiscoveredDevice(d, ok);
      case Ready =>
        if |deviceWrites| > 0 {
          buf := Take(buf, ok);
        }
      case Ticked =>
        Flush(buf, ok);
        buf := [];
    }

    method Serve(rounds: seq<Round>, ok: nat -> bool) returns (buf: seq<Device>, ghost steps: seq<Step>)
      requires Valid() && state.phase.Running? && state.buf == []
      modifies this, db
      ensures Valid() && state == AfterRounds(old(state), rounds, ok) == Exec(old(state), steps)
      ensures state.phase.Running? && state.buf == buf
      ensures EndInTick(rounds) ==> buf == []
    {
      buf, steps := [], [];
      ghost var taken;
      for k := 0 to |rounds|
        invariant Valid() && state.phase.Running? && state.buf == buf
        invariant state == AfterRounds(old(state), rounds[..k], ok) == Exec(old(state), steps)
        invariant k > 0 && rounds[k - 1].Ticked? ==> buf == []
      {
        assert rounds[..k + 1][..k] == rounds[..k];
        taken, buf := Handle(rounds[k], buf, ok(k));
        ExecConcat(old(state), steps, taken);
        steps := steps + taken;
      }
      assert rounds[..|rounds|] == rounds;
    }

    method Start()
      requires Valid() && state.phase.Idle? && state.buf == []
      modifies this
      ensures Valid() && state == Next(old(state), Activate) && state.phase.Running? && state.buf == []
    {
      state := Next(state, Activate);
      writerActive := true;
    }

    method DrainCancelled(pending: seq<Device>, saves: seq<seq<Device>>, ok: nat -> bool)
      returns (ghost steps: seq<Step>)
      requires Valid() && state.phase.Running? && state.buf == pending
      modifies this, db
      ensures Valid() && CancelledRun(old(state), steps, state)
      ensures state.phase.Finished? && deviceWrites == [] && state.buf == []
    {
      var first := TakeStep(state, [], state, Cancel);
      state := Next(state, Cancel);
      ghost var drained := Drain(pending, saves, ok);
      ExecConcat(old(state), first, drained);
      steps := first + drained;
      assert steps[1..] == drained;
    }

    /**
     The writer: the observed rounds, then, if its context is cancelled, the drain, with saves arriving throughout.
     */
    method RunDeviceWriter(rounds: seq<Round>, cancelled: bool, ok: nat -> bool, saves: seq<seq<Device>>,
                           drainOk: nat -> bool)
      returns (ghost rest: seq<Step>)
      requires Valid() && state.phase.Idle? && state.buf == []
      modifies this, db
      ensures Valid()
      ensures !cancelled ==> state == AfterRounds(Next(old(state), Activate), rounds, ok)
      ensures cancelled ==> CancelledRun(AfterRounds(Next(old(state), Activate), rounds, ok), rest, state)
      ensures cancelled ==> state.phase.Finished? && deviceWrites == [] && state.buf == []
      ensures !cancelled && EndInTick(rounds) ==> state.buf == []
      ensures !cancelled && EndInTick(rounds) && old(state) == Initial(old(db.rows)) && AllOk(rounds, ok) ==>
                && multiset(SavedIn(rounds)) == multiset(state.commits) + multiset(deviceWrites)
                && db.rows == UpsertAll(old(db.rows), state.commits)
    {
      if EndInTick(rounds) && state == Initial(db.rows) && AllOk(rounds, ok) {
        TickedRoundsStoreAll(db.rows, rounds, ok);
      }
      rest := [];
      Start();
      var buf, _ := Serve(rounds, ok);
      if cancelled {
        rest := DrainCancelled(buf, saves, drainOk);
      }
    }
  }

  /** One step more, recorded before it is taken. */
  lemma TakeStep(s0: State, steps: seq<Step>, s: State, step: Step) returns (longer: seq<Step>)
    requires Exec(s0, steps) == s
    ensures longer == steps + [step] && Exec(s0, longer) == Next(s, step)
  {
    longer := steps + [step];
    assert longer[..|steps|] == steps;
  }

  ghost function SaveResult(s: State, d: Device, ok: bool): State {
    var t := Next(s, Save(d));
    if !s.active then Next(t, DirectWrite(d, ok))
    else if |s.queue| < QUEUE_CAPACITY then Next(t, Offer(d))
    else Next(Next(t, Offer(d)), DirectWrite(d, ok))
  }

  lemma TwoSteps(s: State, a: Step, b: Step)
    ensures Exec(s, [a, b]) == Next(Next(s, a), b)
  {
    var one := TakeStep(s, [], s, a);
    var two := TakeStep(s, one, Next(s, a), b);
    assert two == [a, b];
  }

  lemma ThreeSteps(s: State, a: Step, b: Step, c: Step)
    ensures Exec(s, [a, b, c]) == Next(Next(Next(s, a), b), c)
  {
    TwoSteps(s, a, b);
    var three := TakeStep(s, [a, b], Exec(s, [a, b]), c);
    assert three == [a, b, c];
  }

  lemma SaveTakesSteps(s: State, d: Device, ok: bool)
    ensures Exec(s, SaveSteps(s, d, ok)) == SaveResult(s, d, ok)
  {
    if !s.active {
      TwoSteps(s, Save(d), DirectWrite(d, ok));
    } else if |s.queue| < QUEUE_CAPACITY {
      TwoSteps(s, Save(d), Offer(d));
    } else {
      ThreeSteps(s, Save(d), Offer(d), DirectWrite(d, ok));
    }
  }

  lemma RoundTakesSteps(s: State, round: Round, ok: bool)
    ensures Exec(s, RoundSteps(s, round, ok)) ==
            match round
            case Saved(d) => SaveResult(s, d, ok)
            case Ready => if s.queue == [] then s else Next(s, Receive(ok))
            case Ticked => Next(s, Tick(ok))
  {
    match round
    case Saved(d) => SaveTakesSteps(s, d, ok);
    case Ready =>
      if s.queue != [] {
        OneStep(s, Receive(ok));
      }
    case Ticked => OneStep(s, Tick(ok));
  }

  lemma OneStep(s: State, a: Step)
    ensures Exec(s, [a]) == Next(s, a)
  {
    var one := TakeStep(s, [], s, a);
    assert one == [a];
  }

  /**
   A save queues, or writes directly when the writer is inactive or the queue full, and leaves the writer's own
   state alone.
   */
  lemma SaveEffect(s: State, d: Device, ok: bool)
    ensures var t, queued := SaveResult(s, d, ok), s.active && |s.queue| < 1024;
            && t.active == s.active && t.phase == s.phase && t.buf == s.buf
            && t.queue == (if queued then s.queue + [d] else s.queue)
            && t.table == (if queued || !ok then s.table else UpsertAll(s.table, [d]))
  {
    var t := Next(s, Save(d));
    SaveStep(s, d);
    if s.active {
      OfferStep(t, d);
      if |s.queue| >= QUEUE_CAPACITY {
        DirectStep(Next(t, Offer(d)), d, ok);
      }
    } else {
      DirectStep(t, d, ok);
    }
  }

  ghost predicate SameWriter(s: State, t: State) {
    t.active == s.active && t.phase == s.phase && t.buf == s.buf
  }

  lemma SaveStep(s: State, d: Device)
    ensures var t := Next(s, Save(d));
            && SameWriter(s, t) && t.queue == s.queue && t.table == s.table
            && if s.active then d in t.deciding else d in t.writing
  {
  }

  lemma OfferStep(s: State, d: Device)
    requires d in s.deciding
    ensures var t := Next(s, Offer(d));
            && SameWriter(s, t) && t.table == s.table
            && (if |s.queue| < QUEUE_CAPACITY then t.queue == s.queue + [d] else t.queue == s.queue && d in t.writing)
  {
  }

  lemma DirectStep(s: State, d: Device, ok: bool)
    requires d in s.writing
    ensures var t := Next(s, DirectWrite(d, ok));
            SameWriter(s, t) && t.queue == s.queue && t.table == if ok then UpsertAll(s.table, [d]) else s.table
  {
  }

  // ---- Whole rounds ----

  /** The devices saved in the rounds. */
  function SavedIn(rounds: seq<Round>): seq<Device> {
    if rounds == [] then []
    else
      var before, last := SavedIn(rounds[..|rounds| - 1]), rounds[|rounds| - 1];
      if last.Saved? then before + [last.d] else before
  }

  ghost predicate AllOk(rounds: seq<Round>, ok: nat -> bool) {
    forall k :: 0 <= k < |rounds| ==> ok(k)
  }

  /** An active writer with no save under way and no write failed. */
  ghost predicate Quiet(s: State) {
    s.phase.Running? && s.deciding == multiset{} && s.writing == multiset{} && s.failed == multiset{}
  }

  lemma {:induction false} ExecKeeps(table: map<string, Device>, s: State, steps: seq<Step>)
    requires Inv(table, s)
    ensures Inv(table, Exec(s, steps))
  {
    if steps != [] {
      ExecKeeps(table, s, steps[..|steps| - 1]);
      StepKeeps(table, Exec(s, steps[..|steps| - 1]), steps[|steps| - 1]);
    }
  }

  lemma QueuedSave(s: State, d: Device)
    requires Quiet(s) && s.active && |s.queue| < QUEUE_CAPACITY
    ensures var t := Next(Next(s, Save(d)), Offer(d)); Quiet(t) && t.saved == s.saved + multiset{d}
  {
    assert multiset{d} - multiset{d} == multiset{};
  }

  lemma DirectSave(s: State, d: Device)
    requires Quiet(s) && s.active && |s.queue| >= QUEUE_CAPACITY
    ensures var t := Next(Next(Next(s, Save(d)), Offer(d)), DirectWrite(d, true));
            Quiet(t) && t.saved == s.saved + multiset{d}
  {
    var decided := Next(s, Save(d));
    assert decided == s.(saved := s.saved + multiset{d}, deciding := multiset{d});
    var falling := Next(decided, Offer(d));
    assert falling == s.(saved := s.saved + multiset{d}, writing := multiset{d});
    assert multiset{d} - multiset{d} == multiset{};
  }

  lemma ReceiveSettles(s: State)
    requires Quiet(s) && s.queue != []
    ensures Quiet(Next(s, Receive(true))) && Next(s, Receive(true)).saved == s.saved
  {
  }

  lemma RoundSettles(s: State, round: Round)
    requires Quiet(s) && s.active
    ensures var t := Exec(s, RoundSteps(s, round, true));
            && Quiet(t) && (round.Ticked? ==> t.buf == [])
            && t.saved == (if round.Saved? then s.saved + multiset{round.d} else s.saved)
  {
    RoundTakesSteps(s, round, true);
    match round
    case Saved(d) =>
      if |s.queue| < QUEUE_CAPACITY {
        QueuedSave(s, d);
      } else {
        DirectSave(s, d);
      }
    case Ready =>
      if s.queue != [] {
        ReceiveSettles(s);
      }
    case Ticked =>
  }

  /** Every device saved during the rounds of a run whose writes succeed. */
  lemma {:induction false} RoundsAreQuiet(table: map<string, Device>, s: State, rounds: seq<Round>, ok: nat -> bool)
    requires Inv(table, s) && Quiet(s) && s.saved == multiset{} && AllOk(rounds, ok)
    ensures var t := AfterRounds(s, rounds, ok);
            && Inv(table, t) && Quiet(t) && t.saved == multiset(SavedIn(rounds))
            && (EndInTick(rounds) ==> t.buf == [])
  {
    if rounds != [] {
      var init, last := rounds[..|rounds| - 1], rounds[|rounds| - 1];
      RoundsAreQuiet(table, s, init, ok);
      var t := AfterRounds(s, init, ok);
      ExecKeeps(table, t, RoundSteps(t, last, true));
      RoundSettles(t, last);
    }
  }

  lemma ActiveIsQuiet(table: map<string, Device>)
    ensures var s := Next(Initial(table), Activate); Inv(table, s) && Quiet(s) && s.saved == multiset{}
  {
    StepKeeps(table, Initial(table), Activate);
  }

  /**
   When the writes succeed, rounds that end in a tick leave every device saved in them stored or still queued: nothing
   the writer has taken is unstored.
   */
  lemma TickedRoundsStoreAll(table: map<string, Device>, rounds: seq<Round>, ok: nat -> bool)
    requires EndInTick(rounds) && AllOk(rounds, ok)
    ensures var t := AfterRounds(Next(Initial(table), Activate), rounds, ok);
            && t.buf == [] && multiset(SavedIn(rounds)) == multiset(t.commits) + multiset(t.queue)
            && t.table == UpsertAll(table, t.commits)
  {
    ActiveIsQuiet(table);
    RoundsAreQuiet(table, Next(Initial(table), Activate), rounds, ok);
  }
}
