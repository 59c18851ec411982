/** The devices table's merge rule, and the queued writer that applies discoveries to it. */
module DeviceTracker {
  import opened Seqs

  const QUEUE_CAPACITY := 1024
  const BATCH_SIZE := 64

  datatype Device = Device(mac: string, ip: string, hostname: string, vendor: string, userLabel: string,
                           firstSeen: int, lastSeen: int)

  // ---- The merge rule ----

  /** COALESCE(NULLIF(new, ''), old). */
  function Coalesce(given: string, kept: string): string {
    if given == "" then kept else given
  }

  /** INSERT ... ON CONFLICT(mac) DO UPDATE: the label is never written, first_seen only by the insert. */
  function Upsert(table: map<string, Device>, d: Device): map<string, Device> {
    if d.mac !in table then table[d.mac := d.(userLabel := "")]
    else
      var row := table[d.mac];
      table[d.mac := row.(ip := Coalesce(d.ip, row.ip), hostname := Coalesce(d.hostname, row.hostname),
                          vendor := Coalesce(d.vendor, row.vendor), lastSeen := d.lastSeen)]
  }

  function UpsertAll(table: map<string, Device>, devs: seq<Device>): map<string, Device> {
    if devs == [] then table else Upsert(UpsertAll(table, devs[..|devs| - 1]), devs[|devs| - 1])
  }

  lemma UpsertNext(table: map<string, Device>, devs: seq<Device>, i: nat)
    requires i < |devs|
    ensures UpsertAll(table, devs[..i + 1]) == Upsert(UpsertAll(table, devs[..i]), devs[i])
  {
    assert devs[..i + 1][..i] == devs[..i];
  }

  /** Two batches leave the table one batch of all their writes would. */
  lemma {:induction false} UpsertConcat(table: map<string, Device>, a: seq<Device>, b: seq<Device>)
    ensures UpsertAll(UpsertAll(table, a), b) == UpsertAll(table, a + b)
  {
    if b == [] {
      assert a + b == a;
    } else {
      assert (a + b)[..|a + b| - 1] == a + b[..|b| - 1];
      UpsertConcat(table, a, b[..|b| - 1]);
    }
  }

  function UpsertBatches(table: map<string, Device>, batches: seq<seq<Device>>): map<string, Device> {
    if batches == [] then table else UpsertAll(UpsertBatches(table, batches[..|batches| - 1]), batches[|batches| - 1])
  }

  /** However a sequence of writes is split into batches, the table is the same. */
  lemma {:induction false} BatchingIsIrrelevant(table: map<string, Device>, batches: seq<seq<Device>>,
                                                regrouped: seq<seq<Device>>)
    requires Flatten(batches) == Flatten(regrouped)
    ensures UpsertBatches(table, batches) == UpsertBatches(table, regrouped) == UpsertAll(table, Flatten(batches))
  {
    BatchesAreOne(table, batches);
    BatchesAreOne(table, regrouped);
  }

  lemma {:induction false} BatchesAreOne(table: map<string, Device>, batches: seq<seq<Device>>)
    ensures UpsertBatches(table, batches) == UpsertAll(table, Flatten(batches))
  {
    if batches != [] {
      BatchesAreOne(table, batches[..|batches| - 1]);
      UpsertConcat(table, Flatten(batches[..|batches| - 1]), batches[|batches| - 1]);
    }
  }

  function Of(mac: string): Device -> bool {
    (d: Device) => d.mac == mac
  }

  /** The last non-empty value a list of writes gives a field. */
  function LastText(writes: seq<Device>, field: Device -> string, otherwise: string): string {
    if writes == [] then otherwise
    else if field(writes[|writes| - 1]) != "" then field(writes[|writes| - 1])
    else LastText(writes[..|writes| - 1], field, otherwise)
  }

  function Ip(): Device -> string {
    (d: Device) => d.ip
  }

  function Hostname(): Device -> string {
    (d: Device) => d.hostname
  }

  function Vendor(): Device -> string {
    (d: Device) => d.vendor
  }

  /** A MAC has a row exactly when it had one or was written. */
  lemma {:induction false} HasRowIff(table: map<string, Device>, devs: seq<Device>, mac: string)
    ensures mac in UpsertAll(table, devs) <==> mac in table || Filter(devs, Of(mac)) != []
  {
    if devs != [] {
      HasRowIff(table, devs[..|devs| - 1], mac);
    }
  }

  /** The row a MAC had, if any, with the fields its own writes gave it. */
  ghost predicate RowIs(row: Device, table: map<string, Device>, own: seq<Device>, mac: string) {
    && row.mac == (if mac in table then table[mac].mac else mac)
    && row.userLabel == (if mac in table then table[mac].userLabel else "")
    && row.ip == LastText(own, Ip(), if mac in table then table[mac].ip else "")
    && row.hostname == LastText(own, Hostname(), if mac in table then table[mac].hostname else "")
    && row.vendor == LastText(own, Vendor(), if mac in table then table[mac].vendor else "")
    && (own != [] ==> row.firstSeen == (if mac in table then table[mac].firstSeen else own[0].firstSeen))
    && (own != [] ==> row.lastSeen == own[|own| - 1].lastSeen)
    && (own == [] && mac in table ==> row == table[mac])
  }

  /** Label untouched, first_seen the first write's, texts the last non-empty ones, last_seen the last write's. */
  lemma {:induction false} RowAfterWrites(table: map<string, Device>, devs: seq<Device>, mac: string)
    requires mac in UpsertAll(table, devs)
    ensures RowIs(UpsertAll(table, devs)[mac], table, Filter(devs, Of(mac)), mac)
  {
    if devs != [] {
      var init, last := devs[..|devs| - 1], devs[|devs| - 1];
      HasRowIff(table, init, mac);
      if mac in UpsertAll(table, init) {
        RowAfterWrites(table, init, mac);
        RowNext(UpsertAll(table, init), table, Filter(init, Of(mac)), last, mac);
      } else {
        FirstRow(UpsertAll(table, init), table, last, mac);
        assert Filter(devs, Of(mac)) == [last];
      }
    }
  }

  lemma RowNext(before: map<string, Device>, table: map<string, Device>, own: seq<Device>, d: Device, mac: string)
    requires mac in before && RowIs(before[mac], table, own, mac) && (mac !in table ==> own != [])
    ensures mac in Upsert(before, d)
    ensures RowIs(Upsert(before, d)[mac], table, own + (if d.mac == mac then [d] else []), mac)
  {
    if d.mac == mac {
      assert (own + [d])[..|own|] == own;
    } else {
      assert own + [] == own;
    }
  }

  lemma FirstRow(before: map<string, Device>, table: map<string, Device>, d: Device, mac: string)
    requires mac !in before && mac !in table && d.mac == mac
    ensures RowIs(Upsert(before, d)[mac], table, [d], mac)
  {
  }

  // ---- The writer as a step machine ----

  datatype Phase = Idle | Running | Draining | Drained | Finished

  /**
   `deciding` holds saves that read writerActive as true and have yet to try the queue, `writing` those about to
   write directly. The other fields from `saved` on are history: every save, every send, the writer's batches, the
   writes that committed and those that failed, the sends after the drain had ended, the sends and committed direct
   writes in the order they were made, and the committed direct writes with what was then buffered and queued.
   */
  datatype State = State(
    active: bool, phase: Phase, queue: seq<Device>, buf: seq<Device>, table: map<string, Device>,
    deciding: multiset<Device>, writing: multiset<Device>,
    saved: multiset<Device>, sent: seq<Device>, handed: seq<seq<Device>>,
    commits: seq<Device>, failed: multiset<Device>, late: seq<Device>, accepted: seq<Device>, directs: seq<Direct>)

  /** A committed direct write and the rows it was written ahead of. */
  datatype Direct = Direct(d: Device, ahead: seq<Device>)

  datatype Step =
    | Save(d: Device)                  // saveDiscoveredDevice reads writerActive
    | Offer(d: Device)                 // its select: send, or fall through when the queue is full
    | DirectWrite(d: Device, ok: bool)
    | Activate
    | Receive(ok: bool)                // the writer takes one entry, and flushes a full batch
    | Tick(ok: bool)
    | Cancel
    | DrainEnd(ok: bool)               // the drain finds the queue empty and flushes
    | Deactivate

  predicate Enabled(s: State, step: Step) {
    match step
    case Save(_) => true
    case Offer(d) => d in s.deciding
    case DirectWrite(d, _) => d in s.writing
    case Activate => s.phase.Idle?
    case Receive(_) => (s.phase.Running? || s.phase.Draining?) && s.queue != []
    case Tick(_) => s.phase.Running?
    case Cancel => s.phase.Running?
    case DrainEnd(_) => s.phase.Draining? && s.queue == []
    case Deactivate => s.phase.Drained?
  }

  function Written(s: State, devs: seq<Device>, ok: bool): State {
    if ok then s.(table := UpsertAll(s.table, devs), commits := s.commits + devs)
    else s.(failed := s.failed + multiset(devs))
  }

  function Flushed(s: State, ok: bool): State {
    if s.buf == [] then s
    else Written(s.(buf := [], handed := s.handed + [s.buf]), s.buf, ok)
  }

  predicate Ended(p: Phase) {
    p.Drained? || p.Finished?
  }

  function Offered(s: State, d: Device): State {
    if |s.queue| < QUEUE_CAPACITY
    then s.(deciding := s.deciding - multiset{d}, queue := s.queue + [d], sent := s.sent + [d],
            accepted := s.accepted + [d], late := if Ended(s.phase) then s.late + [d] else s.late)
    else s.(deciding := s.deciding - multiset{d}, writing := s.writing + multiset{d})
  }

  function WrittenDirectly(s: State, d: Device, ok: bool): State {
    var t := Written(s.(writing := s.writing - multiset{d}), [d], ok);
    if ok then t.(accepted := s.accepted + [d], directs := s.directs + [Direct(d, s.buf + s.queue)]) else t
  }

  function Taken(s: State): State
    requires s.queue != []
  {
    s.(queue := s.queue[1..], buf := s.buf + [s.queue[0]])
  }

  function FlushedIfFull(s: State, ok: bool): State {
    if |s.buf| >= BATCH_SIZE then Flushed(s, ok) else s
  }

  function Received(s: State, ok: bool): State
    requires s.queue != []
  {
    FlushedIfFull(Taken(s), ok)
  }

  function Next(s: State, step: Step): State {
    if !Enabled(s, step) then s
    else match step
      case Save(d) =>
        if s.active then s.(saved := s.saved + multiset{d}, deciding := s.deciding + multiset{d})
        else s.(saved := s.saved + multiset{d}, writing := s.writing + multiset{d})
      case Offer(d) => Offered(s, d)
      case DirectWrite(d, ok) => WrittenDirectly(s, d, ok)
      case Activate => s.(phase := Running, active := true)
      case Receive(ok) => Received(s, ok)
      case Tick(ok) => Flushed(s, ok)
      case Cancel => s.(phase := Draining)
      case DrainEnd(ok) => Flushed(s, ok).(phase := Drained)
      case Deactivate => s.(phase := Finished, active := false)
  }

  function Exec(s: State, steps: seq<Step>): State {
    if steps == [] then s else Next(Exec(s, steps[..|steps| - 1]), steps[|steps| - 1])
  }

  function Initial(table: map<string, Device>): State {
    State(false, Idle, [], [], table, multiset{}, multiset{}, multiset{}, [], [], [], multiset{}, [], [], [])
  }

  // ---- Its invariants ----

  /** What was sent is what the writer has handed over, then its buffer, then the queue: first in, first out. */
  ghost predicate Fifo(s: State) {
    s.sent == Flatten(s.handed) + s.buf + s.queue
  }

  /** Every save is committed, failed, buffered, queued or in flight, once. */
  ghost predicate Accounted(s: State) {
    s.saved == multiset(s.commits) + s.failed + multiset(s.buf) + multiset(s.queue) + s.deciding + s.writing
  }

  ghost predicate Limits(s: State) {
    && |s.queue| <= QUEUE_CAPACITY && |s.buf| < BATCH_SIZE
    && forall b :: b in s.handed ==> 1 <= |b| <= BATCH_SIZE
  }

  ghost predicate PhaseOk(s: State) {
    && (s.active <==> s.phase.Running? || s.phase.Draining? || s.phase.Drained?)
    && (s.phase.Idle? ==> s.deciding == multiset{} && s.queue == [] && s.buf == [])
    && (if Ended(s.phase) then s.queue == s.late && s.buf == [] else s.late == [])
  }

  ghost predicate Inv(table: map<string, Device>, s: State) {
    Fifo(s) && Accounted(s) && Limits(s) && PhaseOk(s) && s.table == UpsertAll(table, s.commits)
  }

  lemma FlushKeepsOrder(s: State, ok: bool)
    requires Fifo(s)
    ensures Fifo(Flushed(s, ok))
  {
  }

  lemma FlushKeepsCount(s: State, ok: bool)
    requires Accounted(s)
    ensures Accounted(Flushed(s, ok))
  {
  }

  lemma FlushKeepsTable(table: map<string, Device>, s: State, ok: bool)
    requires s.table == UpsertAll(table, s.commits)
    ensures Flushed(s, ok).table == UpsertAll(table, Flushed(s, ok).commits)
  {
    UpsertConcat(table, s.commits, s.buf);
  }

  lemma TakeKeepsOrder(s: State)
    requires s.queue != [] && Fifo(s)
    ensures Fifo(Taken(s))
  {
  }

  lemma TakeKeepsCount(s: State)
    requires s.queue != [] && Accounted(s)
    ensures Accounted(Taken(s))
  {
    assert s.queue == [s.queue[0]] + s.queue[1..];
  }

  /** `Inv` but for a buffer that may be full. */
  ghost predicate AlmostInv(table: map<string, Device>, s: State) {
    && Fifo(s) && Accounted(s) && PhaseOk(s) && s.table == UpsertAll(table, s.commits)
    && Limits(s.(buf := [])) && |s.buf| <= BATCH_SIZE
  }

  lemma TakeKeeps(table: map<string, Device>, s: State)
    requires Inv(table, s) && Enabled(s, Receive(true))
    ensures AlmostInv(table, Taken(s))
  {
    TakeKeepsOrder(s);
    TakeKeepsCount(s);
  }

  lemma FlushKeeps(table: map<string, Device>, s: State, ok: bool)
    requires AlmostInv(table, s)
    ensures Inv(table, Flushed(s, ok)) && Flushed(s, ok).buf == []
  {
    FlushKeepsOrder(s, ok);
    FlushKeepsCount(s, ok);
    FlushKeepsTable(table, s, ok);
  }

  lemma AddedKeeps(table: map<string, Device>, s: State, ok: bool)
    requires AlmostInv(table, s)
    ensures Inv(table, FlushedIfFull(s, ok))
  {
    if |s.buf| >= BATCH_SIZE {
      FlushKeeps(table, s, ok);
    }
  }

  lemma ReceiveKeeps(table: map<string, Device>, s: State, ok: bool)
    requires Inv(table, s) && Enabled(s, Receive(ok))
    ensures Inv(table, Received(s, ok))
  {
    TakeKeeps(table, s);
    AddedKeeps(table, Taken(s), ok);
  }

  lemma DrainEndKeeps(table: map<string, Device>, s: State, ok: bool)
    requires Inv(table, s) && Enabled(s, DrainEnd(ok))
    ensures Inv(table, Flushed(s, ok).(phase := Drained))
  {
    FlushKeeps(table, s, ok);
  }

  lemma SentCount(x: multiset<Device>, queue: seq<Device>, deciding: multiset<Device>, y: multiset<Device>, d: Device)
    requires d in deciding
    ensures x + multiset(queue) + deciding + y == x + multiset(queue + [d]) + (deciding - multiset{d}) + y
  {
  }

  lemma FallThroughCount(x: multiset<Device>, deciding: multiset<Device>, writing: multiset<Device>, d: Device)
    requires d in deciding
    ensures x + deciding + writing == x + (deciding - multiset{d}) + (writing + multiset{d})
  {
  }

  lemma OfferKeepsCount(s: State, d: Device)
    requires Accounted(s) && d in s.deciding
    ensures Accounted(Offered(s, d))
  {
    SentCount(multiset(s.commits) + s.failed + multiset(s.buf), s.queue, s.deciding, s.writing, d);
    FallThroughCount(multiset(s.commits) + s.failed + multiset(s.buf) + multiset(s.queue), s.deciding, s.writing, d);
  }

  lemma OfferKeepsOrder(s: State, d: Device)
    requires Fifo(s)
    ensures Fifo(Offered(s, d))
  {
    var x := Flatten(s.handed) + s.buf;
    assert x + (s.queue + [d]) == x + s.queue + [d];
  }

  lemma OfferKeepsPhase(s: State, d: Device)
    requires PhaseOk(s) && d in s.deciding
    ensures PhaseOk(Offered(s, d))
  {
  }

  lemma OfferKeeps(table: map<string, Device>, s: State, d: Device)
    requires Inv(table, s) && d in s.deciding
    ensures Inv(table, Offered(s, d))
  {
    OfferKeepsCount(s, d);
    OfferKeepsOrder(s, d);
    OfferKeepsPhase(s, d);
  }

  lemma DirectWriteKeepsCount(s: State, d: Device, ok: bool)
    requires Accounted(s) && d in s.writing
    ensures Accounted(WrittenDirectly(s, d, ok))
  {
  }

  lemma DirectWriteKeeps(table: map<string, Device>, s: State, d: Device, ok: bool)
    requires Inv(table, s) && d in s.writing
    ensures Inv(table, WrittenDirectly(s, d, ok))
  {
    DirectWriteKeepsCount(s, d, ok);
    UpsertConcat(table, s.commits, [d]);
  }

  lemma SaveKeepsCount(s: State, d: Device)
    requires Accounted(s)
    ensures Accounted(Next(s, Save(d)))
  {
  }

  lemma SaveKeeps(table: map<string, Device>, s: State, d: Device)
    requires Inv(table, s)
    ensures Inv(table, Next(s, Save(d)))
  {
    SaveKeepsCount(s, d);
  }

  lemma SaverStepKeeps(table: map<string, Device>, s: State, step: Step)
    requires Inv(table, s) && Enabled(s, step) && (step.Save? || step.Offer? || step.DirectWrite?)
    ensures Inv(table, Next(s, step))
  {
    match step
    case Save(d) => SaveKeeps(table, s, d);
    case Offer(d) => OfferKeeps(table, s, d);
    case DirectWrite(d, ok) => DirectWriteKeeps(table, s, d, ok);
  }

  lemma WriterStepKeeps(table: map<string, Device>, s: State, step: Step)
    requires Inv(table, s) && Enabled(s, step) && (step.Receive? || step.Tick? || step.DrainEnd?)
    ensures Inv(table, Next(s, step))
  {
    match step
    case Receive(ok) => ReceiveKeeps(table, s, ok);
    case Tick(ok) => FlushKeeps(table, s, ok);
    case DrainEnd(ok) => DrainEndKeeps(table, s, ok);
  }

  lemma PhaseStepKeeps(table: map<string, Device>, s: State, step: Step)
    requires Inv(table, s) && Enabled(s, step) && (step.Activate? || step.Cancel? || step.Deactivate?)
    ensures Inv(table, Next(s, step))
  {
  }

  lemma StepKeeps(table: map<string, Device>, s: State, step: Step)
    requires Inv(table, s)
    ensures Inv(table, Next(s, step))
  {
    if Enabled(s, step) {
      if step.Save? || step.Offer? || step.DirectWrite? {
        SaverStepKeeps(table, s, step);
      } else if step.Receive? || step.Tick? || step.DrainEnd? {
        WriterStepKeeps(table, s, step);
      } else {
        PhaseStepKeeps(table, s, step);
      }
    }
  }

  /**
   Every interleaving of saves, sends, direct writes, receives, ticks, drain and exit keeps every save accounted
   for.
   */
  lemma {:induction false} ReachableInv(table: map<string, Device>, steps: seq<Step>)
    ensures Inv(table, Exec(Initial(table), steps))
  {
    if steps != [] {
      ReachableInv(table, steps[..|steps| - 1]);
      StepKeeps(table, Exec(Initial(table), steps[..|steps| - 1]), steps[|steps| - 1]);
    }
  }
}
