/** What the fan-out protocol guarantees over every interleaving. */
module HubTheorems {
  import opened Seqs
  import opened QueryLog
  import opened HubProtocol
  import opened HubInvariants

  // ---- Safety ----

  /** No channel is closed twice or sent to after closing, and the subscriber map holds exactly the open ones. */
  lemma ChannelSafety(batchSize: nat, log: seq<Query>, steps: seq<Step>, i: nat)
    requires Ordered(log) && i < |Exec(Initial(batchSize, log), steps).s.channels|
    ensures var s := Exec(Initial(batchSize, log), steps).s;
            && s.channels[i].closes <= 1
            && s.channels[i].lateSends == 0
            && (i in s.subs <==> s.channels[i].closes == 0)
  {
    ReachableInv(batchSize, log, steps);
    var h := Exec(Initial(batchSize, log), steps);
    assert ChannelOk(h.log, h.s.lastId, h.s.channels[i], i in h.s.subs);
  }

  /** A registered subscriber has been sent exactly the rows between its start and the hub's cursor, in order, once. */
  lemma FanOutExact(batchSize: nat, log: seq<Query>, steps: seq<Step>, i: nat)
    requires Ordered(log) && i in Exec(Initial(batchSize, log), steps).s.subs
    ensures var h := Exec(Initial(batchSize, log), steps);
            && i < |h.s.channels|
            && Ordered(h.s.channels[i].sent)
            && forall q :: q in h.s.channels[i].sent <==> q in h.log && h.s.channels[i].start < q.id <= h.s.lastId
  {
    ReachableInv(batchSize, log, steps);
    var h := Exec(Initial(batchSize, log), steps);
    assert ChannelOk(h.log, h.s.lastId, h.s.channels[i], true);
    BetweenIsExact(h.log, h.s.channels[i].start, h.s.lastId);
  }

  /** A subscriber that left or was evicted got a gap-free prefix of the rows after its start. */
  lemma ClosedGotPrefix(batchSize: nat, log: seq<Query>, steps: seq<Step>, i: nat)
    requires Ordered(log) && i < |Exec(Initial(batchSize, log), steps).s.channels|
    ensures var h := Exec(Initial(batchSize, log), steps);
            h.s.channels[i].sent <= h.log[Pos(h.log, h.s.channels[i].start)..]
  {
    ReachableInv(batchSize, log, steps);
    var h := Exec(Initial(batchSize, log), steps);
    var c := h.s.channels[i];
    assert ChannelOk(h.log, h.s.lastId, c, i in h.s.subs);
    PosMonotone(h.log, c.start, c.upto);
  }

  // ---- Lost wakeups ----

  /** The loop is running and nothing is on its way to it. */
  predicate Quiescent(h: Hub) {
    !h.s.stop && h.phase.Parked? && !WakePending(h)
  }

  /** Every row after the subscribers' starts has been published. */
  predicate AllPublished(h: Hub) {
    h.s.subs == {} || h.s.lastId >= LatestId(h.log)
  }

  /**
   A hub with nothing pending has published everything exactly when its last poll stranded no row, or nobody
   listens.
   */
  lemma QuiescentHasPublished(batchSize: nat, log: seq<Query>, steps: seq<Step>)
    requires Ordered(log) && batchSize > 0
    ensures var h := Exec(Initial(batchSize, log), steps);
            Quiescent(h) ==> (AllPublished(h) <==> h.s.subs == {} || !h.stranded)
  {
    ReachableInv(batchSize, log, steps);
    ExecGrows(Initial(batchSize, log), steps);
  }

  /**
   A registered subscriber of such a hub holds every row of the log after its start exactly when none was stranded.
   */
  lemma QuiescentDelivered(batchSize: nat, log: seq<Query>, steps: seq<Step>, i: nat)
    requires Ordered(log) && batchSize > 0
    requires i in Exec(Initial(batchSize, log), steps).s.subs
    ensures var h := Exec(Initial(batchSize, log), steps); Quiescent(h) ==> (Delivered(h, i) <==> !h.stranded)
  {
    QuiescentHasPublished(batchSize, log, steps);
    ReachableInv(batchSize, log, steps);
    DeliveredIff(Exec(Initial(batchSize, log), steps), i);
  }

  /** Subscriber `i` has been sent every row of the log after its start, in order and once each. */
  predicate Delivered(h: Hub, i: nat) {
    i < |h.s.channels| && h.s.channels[i].sent == h.log[Pos(h.log, h.s.channels[i].start)..]
  }

  lemma DeliveredIff(h: Hub, i: nat)
    requires SharedOk(h.log, h.s) && i in h.s.subs
    ensures Delivered(h, i) <==> h.s.lastId >= LatestId(h.log)
  {
    var c := h.s.channels[i];
    assert ChannelOk(h.log, h.s.lastId, c, true);
    PosMonotone(h.log, c.start, h.s.lastId);
    LatestAtPos(h.log, h.s.lastId);
    assert c.sent == h.log[Pos(h.log, c.start)..Pos(h.log, h.s.lastId)];
    assert |h.log[Pos(h.log, c.start)..]| == |h.log| - Pos(h.log, c.start);
  }

  /** Such a state exists: one failed fetch leaves a committed, announced row unpublished with nothing pending. */
  lemma FetchErrorStrandsRows(batchSize: nat, q: Query) returns (steps: seq<Step>)
    requires q.id > 0
    ensures var h := Exec(Initial(batchSize, []), steps);
            Quiescent(h) && h.stranded && !AllPublished(h)
  {
    var h: Hub;
    steps, h := OneRowAnnounced(batchSize, q);
    steps, h := Extend(Initial(batchSize, []), steps, h, TakeWake);
    steps, h := Extend(Initial(batchSize, []), steps, h, Begin);
    assert h.phase.Fetching? && h.s.lastId == 0 && h.log == [q];
    steps, h := Extend(Initial(batchSize, []), steps, h, Fetch(false));
  }

  /** One subscriber, one row, both notifies done: the loop is about to poll. */
  lemma OneRowAnnounced(batchSize: nat, q: Query) returns (steps: seq<Step>, h: Hub)
    requires q.id > 0
    ensures Exec(Initial(batchSize, []), steps) == h
    ensures 0 in h.s.subs && h.log == [q] && h.s.lastId == 0 && h.s.wake && h.notifiers == 0
    ensures h.phase.Parked? && h.s.running && !h.s.stop
  {
    steps, h := OneRowCommitted(batchSize, q);
    steps, h := Extend(Initial(batchSize, []), steps, h, Notify);
    steps, h := Extend(Initial(batchSize, []), steps, h, Notify);
  }

  lemma OneRowCommitted(batchSize: nat, q: Query) returns (steps: seq<Step>, h: Hub)
    requires q.id > 0
    ensures Exec(Initial(batchSize, []), steps) == h
    ensures 0 in h.s.subs && h.log == [q] && h.s.lastId == 0 && h.notifiers == 2
    ensures h.phase.Parked? && h.s.running && !h.s.stop
  {
    steps, h := [], Initial(batchSize, []);
    steps, h := Extend(Initial(batchSize, []), steps, h, Subscribe(true));
    assert 0 in h.s.subs && h.s.lastId == 0 && h.notifiers == 1;
    steps, h := Extend(Initial(batchSize, []), steps, h, Append([q]));
  }

  lemma Extend(h0: Hub, steps: seq<Step>, h: Hub, step: Step) returns (steps': seq<Step>, h': Hub)
    requires Exec(h0, steps) == h
    ensures steps' == steps + [step] && h' == Next(h, step) && Exec(h0, steps') == h'
  {
    steps', h' := steps + [step], Next(h, step);
    ExecLast(h0, steps, step, h);
  }

  lemma ExecFirst(h: Hub, step: Step, rest: seq<Step>)
    ensures Exec(h, [step] + rest) == Exec(Next(h, step), rest)
  {
    ExecConcat(h, [step], rest);
    ExecLast(h, [], step, h);
    assert [] + [step] == [step];
  }

  lemma ExecLast(h: Hub, steps: seq<Step>, step: Step, mid: Hub)
    requires Exec(h, steps) == mid
    ensures Exec(h, steps + [step]) == Next(mid, step)
  {
  }

  lemma {:induction false} ExecConcat(h: Hub, a: seq<Step>, b: seq<Step>)
    ensures Exec(h, a + b) == Exec(Exec(h, a), b)
  {
    if b == [] {
      assert a + b == a;
    } else {
      assert (a + b)[..|a + b| - 1] == a + b[..|b| - 1];
      ExecConcat(h, a, b[..|b| - 1]);
    }
  }

  // ---- History only grows ----

  ghost predicate ChannelGrows(c: Channel, d: Channel) {
    c.start == d.start && c.sent <= d.sent && c.taken <= d.taken && c.closes <= d.closes
  }

  /** The log and every channel's history are only ever extended; a closed channel stays out of the map. */
  ghost predicate Grows(h: Hub, h': Hub) {
    && h.batchSize == h'.batchSize
    && h.log <= h'.log
    && |h.s.channels| <= |h'.s.channels|
    && (forall i :: 0 <= i < |h.s.channels| ==> ChannelGrows(h.s.channels[i], h'.s.channels[i]))
    && (h.s.stop ==> h'.s.stop) && (h.s.running ==> h'.s.running)
  }

  lemma PublishRowGrows(s: Shared, q: Query)
    ensures |PublishRow(s, q).channels| == |s.channels|
    ensures forall i :: 0 <= i < |s.channels| ==> ChannelGrows(s.channels[i], PublishRow(s, q).channels[i])
    ensures PublishRow(s, q).stop == s.stop && PublishRow(s, q).running == s.running
  {
  }

  lemma StepGrows(h: Hub, step: Step)
    ensures Grows(h, Next(h, step))
  {
    if step.Send? && Enabled(h, step) {
      PublishRowGrows(h.s, h.phase.rows[h.phase.done]);
    }
  }

  lemma {:induction false} ExecGrows(h: Hub, steps: seq<Step>)
    ensures Grows(h, Exec(h, steps))
  {
    if steps != [] {
      ExecGrows(h, steps[..|steps| - 1]);
      StepGrows(Exec(h, steps[..|steps| - 1]), steps[|steps| - 1]);
    }
  }

  ghost predicate NothingSent(h: Hub) {
    !h.phase.Publishing? && forall i :: 0 <= i < |h.s.channels| ==> h.s.channels[i].sent == []
  }

  lemma ZeroBatchStep(h: Hub, step: Step)
    requires h.batchSize == 0 && NothingSent(h)
    ensures NothingSent(Next(h, step))
  {
  }

  /** A hub configured with batch size zero would never send anything; the server passes 500. */
  lemma {:induction false} ZeroBatchNeverDelivers(log: seq<Query>, steps: seq<Step>)
    ensures NothingSent(Exec(Initial(0, log), steps))
  {
    if steps != [] {
      var init := steps[..|steps| - 1];
      ZeroBatchNeverDelivers(log, init);
      ExecGrows(Initial(0, log), init);
      ZeroBatchStep(Exec(Initial(0, log), init), steps[|steps| - 1]);
    }
  }

  // ---- Progress ----

  /** The loop's next step, pending notifies first; a fetch succeeds. */
  function LoopStep(h: Hub): Step {
    if h.notifiers > 0 then Notify
    else match h.phase
      case Parked => TakeWake
      case Starting => Begin
      case Fetching(_, _) => Fetch(true)
      case Publishing(_, _, rows, _, locked, done) =>
        if !locked then Publish else if done < |rows| then Send else Unlock
      case Renotifying => Renotify
      case Exited => Shutdown
  }

  function Unpublished(h: Hub): nat {
    |h.log| - Pos(h.log, h.s.lastId)
  }

  /** A poll that is still reading or publishing behind the cursor. */
  function Behind(h: Hub): nat {
    if (h.phase.Fetching? || h.phase.Publishing?) && h.phase.cursor < h.s.lastId then 1 else 0
  }

  function ToSend(phase: Phase): int
    requires phase.Publishing?
  {
    |phase.rows| - phase.done + if phase.locked then 0 else 1
  }

  function Ahead(h: Hub): int {
    (if h.s.wake then h.batchSize + 10 else 0)
    + (match h.phase
       case Parked => 0
       case Publishing(_, _, _, _, _, _) => 1 + ToSend(h.phase)
       case Fetching(_, _) => h.batchSize + 3
       case Starting => h.batchSize + 4
       case Renotifying => h.batchSize + 20
       case Exited => 0)
  }

  /** The lexicographic measure of the work still ahead of the loop went down. */
  ghost predicate Progressed(h: Hub, h': Hub) {
    && Unpublished(h') <= Unpublished(h)
    && (Unpublished(h') == Unpublished(h) ==>
          && Behind(h') <= Behind(h)
          && (Behind(h') == Behind(h) ==>
                h'.notifiers < h.notifiers || (h'.notifiers == h.notifiers && Ahead(h') < Ahead(h))))
  }

  /** Each loop step publishes a row, catches up with the cursor, or uses up pending work. */
  lemma LoopStepProgress(h: Hub)
    requires Inv(h) && !h.s.stop && h.s.running && !Quiescent(h)
    ensures Progressed(h, Next(h, LoopStep(h)))
  {
    if LoopStep(h) == Send {
      SendProgress(h);
    } else if LoopStep(h) == Unlock {
      UnlockProgress(h);
    }
  }

  lemma LoopStepStays(h: Hub)
    requires !h.s.stop && h.s.running && !h.phase.Exited?
    ensures var h' := Next(h, LoopStep(h)); !h'.s.stop && h'.s.running && h'.log == h.log
  {
    if LoopStep(h) == Send && Enabled(h, Send) {
      PublishRowGrows(h.s, h.phase.rows[h.phase.done]);
    }
  }

  lemma AheadIsNat(h: Hub)
    requires Inv(h)
    ensures Ahead(h) >= 0
  {
  }

  /** A row past the cursor leaves one row fewer to publish; one already published leaves one fewer to send. */
  lemma SendProgress(h: Hub)
    requires Inv(h) && Enabled(h, Send)
    ensures Progressed(h, Next(h, Send))
  {
    var p := Pos(h.log, h.phase.cursor) + h.phase.done;
    assert h.phase.rows[h.phase.done] == h.log[p];
    PosOfRow(h.log, p);
    PosSplits(h.log, h.s.lastId);
  }

  /** When every row of a batch has been offered, the cursor is past the one the poll started from. */
  lemma UnlockProgress(h: Hub)
    requires Inv(h) && Enabled(h, Unlock)
    ensures Progressed(h, Next(h, Unlock))
  {
    PosSplits(h.log, h.phase.cursor);
    PosSplits(h.log, h.s.lastId);
    assert h.phase.cursor < h.s.lastId;
  }

  /** What the loop does by itself, when its fetches succeed, and the notifies already under way. */
  function LoopStepsOf(): set<Step> {
    {Notify, TakeWake, Begin, Fetch(true), Publish, Send, Unlock, Renotify}
  }

  lemma LoopStepIsOwn(h: Hub)
    requires !h.phase.Exited?
    ensures LoopStep(h) in LoopStepsOf()
  {
  }

  /** A step that uses up pending work leaves rows stranded only with a wake-up under way. */
  lemma LoopStepUnstrands(h: Hub)
    requires Inv(h) && !h.s.stop && h.s.running && !Quiescent(h)
    ensures var h' := Next(h, LoopStep(h)); !(h'.stranded && Quiescent(h'))
  {
  }

  /** From any reachable state that has not been stopped, the loop's own steps lead to a quiescent state. */
  lemma {:induction false} Drains(h: Hub) returns (steps: seq<Step>)
    requires Inv(h) && !h.s.stop && h.s.running
    ensures var h' := Exec(h, steps);
            Inv(h') && Quiescent(h') && h'.log == h.log && (h'.stranded ==> h.stranded && Quiescent(h))
    ensures forall i :: 0 <= i < |steps| ==> steps[i] in LoopStepsOf()
    decreases Unpublished(h), Behind(h), h.notifiers, Ahead(h), 1
  {
    AheadIsNat(h);
    if Quiescent(h) {
      steps := [];
    } else {
      var step := LoopStep(h);
      LoopStepIsOwn(h);
      var rest := DrainsAfter(h, step);
      steps := [step] + rest;
      ExecFirst(h, step, rest);
    }
  }

  lemma DrainsAfter(h: Hub, step: Step) returns (rest: seq<Step>)
    requires Inv(h) && !h.s.stop && h.s.running && !Quiescent(h) && step == LoopStep(h)
    ensures var h' := Exec(Next(h, step), rest);
            Inv(h') && Quiescent(h') && h'.log == h.log && !h'.stranded
    ensures forall i :: 0 <= i < |rest| ==> rest[i] in LoopStepsOf()
    decreases Unpublished(h), Behind(h), h.notifiers, Ahead(h), 0
  {
    StepKeeps(h, step);
    LoopStepProgress(h);
    LoopStepStays(h);
    LoopStepUnstrands(h);
    AheadIsNat(h);
    AheadIsNat(Next(h, step));
    rest := Drains(Next(h, step));
  }

  /**
   From any reachable running state, unless rows are stranded and nothing is pending, the loop's own steps lead to one
   where every still registered subscriber has been sent the whole log after its start.
   */
  lemma LoopDelivers(batchSize: nat, log: seq<Query>, steps: seq<Step>) returns (more: seq<Step>)
    requires Ordered(log) && batchSize > 0
    requires var h := Exec(Initial(batchSize, log), steps); !h.s.stop && h.s.running && !(Quiescent(h) && h.stranded)
    ensures forall i :: 0 <= i < |more| ==> more[i] in LoopStepsOf()
    ensures var h, h' := Exec(Initial(batchSize, log), steps), Exec(Initial(batchSize, log), steps + more);
            h'.log == h.log && Quiescent(h') && forall i :: i in h'.s.subs ==> Delivered(h', i)
  {
    ReachableInv(batchSize, log, steps);
    more := Drains(Exec(Initial(batchSize, log), steps));
    ExecConcat(Initial(batchSize, log), steps, more);
    var h' := Exec(Initial(batchSize, log), steps + more);
    forall i | i in h'.s.subs
      ensures Delivered(h', i)
    {
      QuiescentDelivered(batchSize, log, steps + more, i);
    }
  }

  /** The next commit recovers stranded rows: its notifier alone is enough for the loop to deliver them. */
  lemma NextCommitRecovers(batchSize: nat, log: seq<Query>, steps: seq<Step>, rows: seq<Query>)
    returns (more: seq<Step>)
    requires Ordered(log) && batchSize > 0
    requires var h := Exec(Initial(batchSize, log), steps); !h.s.stop && h.s.running && AppendOk(h.log, rows)
    ensures var h := Exec(Initial(batchSize, log), steps);
            var h' := Exec(Initial(batchSize, log), steps + [Append(rows)] + more);
            h'.log == h.log + rows && Quiescent(h') && forall i :: i in h'.s.subs ==> Delivered(h', i)
  {
    ExecLast(Initial(batchSize, log), steps, Append(rows), Exec(Initial(batchSize, log), steps));
    more := LoopDelivers(batchSize, log, steps + [Append(rows)]);
  }
}
