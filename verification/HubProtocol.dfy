/** The live query fan-out as a step machine: each step is one critical section, channel operation or database read. */
module HubProtocol {
  import opened Seqs
  import opened QueryLog

  const CHANNEL_CAPACITY := 256
  const MAX_BATCHES_PER_WAKE := 3

  /** A subscriber channel and its history: rows sent, rows taken, closes, and sends after a close. */
  datatype Channel = Channel(start: int, upto: int, sent: seq<Query>, taken: nat, closes: nat, lateSends: nat)

  /** What the hub's mutex and channels protect. Subscriber ids index `channels`; `subs` holds the map's keys. */
  datatype Shared = Shared(channels: seq<Channel>, subs: set<nat>, lastId: int, running: bool, stop: bool, wake: bool)

  /**
   Where the hub's goroutine is; `seen` is the log length its last fetch read. While publishing it may hold the mutex,
   and has then offered the first `done` rows.
   */
  datatype Phase =
    | Parked
    | Starting
    | Fetching(cursor: int, batch: nat)
    | Publishing(cursor: int, batch: nat, rows: seq<Query>, seen: nat, locked: bool, done: nat)
    | Renotifying
    | Exited

  /**
   `notifiers` counts flushes and subscribers that have yet to call NotifyNewQueries. `stranded` says that the last
   poll ended in a failed fetch while the log held rows past the cursor.
   */
  datatype Hub = Hub(batchSize: nat, log: seq<Query>, s: Shared, phase: Phase, notifiers: nat, stranded: bool)

  // ---- Operations on the shared state ----

  predicate HasRoom(c: Channel) {
    |c.sent| - c.taken < CHANNEL_CAPACITY
  }

  function CloseChannel(c: Channel): Channel {
    c.(closes := c.closes + 1)
  }

  /** The select of `pollOnce`: send, or evict a reader whose channel is full. */
  function Offer(c: Channel, q: Query): Channel {
    if c.closes > 0 then c.(lateSends := c.lateSends + 1)
    else if HasRoom(c) then c.(sent := c.sent + [q], upto := q.id)
    else CloseChannel(c)
  }

  function PublishRow(s: Shared, q: Query): Shared {
    if q.id <= s.lastId then s
    else s.(lastId := q.id,
            channels := seq(|s.channels|, i requires 0 <= i < |s.channels| =>
              if i in s.subs then Offer(s.channels[i], q) else s.channels[i]),
            subs := set i | i in s.subs && i < |s.channels| && HasRoom(s.channels[i]))
  }

  function PublishRows(s: Shared, rows: seq<Query>): Shared {
    if rows == [] then s else PublishRow(PublishRows(s, rows[..|rows| - 1]), rows[|rows| - 1])
  }

  /** The locked part of Subscribe; the first subscriber skips the backlog. */
  function Subscribed(s: Shared, latest: int): Shared {
    var lastId := if s.subs == {} then latest else s.lastId;
    s.(lastId := lastId, running := true,
       channels := s.channels + [Channel(lastId, lastId, [], 0, 0, 0)], subs := s.subs + {|s.channels|})
  }

  function Unsubscribed(s: Shared, id: nat): Shared {
    if id !in s.subs || id >= |s.channels| then s
    else s.(subs := s.subs - {id}, channels := s.channels[id := CloseChannel(s.channels[id])])
  }

  function Notified(s: Shared): Shared {
    if s.stop then s else s.(wake := true)
  }

  function ClosedAll(s: Shared): Shared {
    s.(subs := {},
       channels := seq(|s.channels|, i requires 0 <= i < |s.channels| =>
         if i in s.subs then CloseChannel(s.channels[i]) else s.channels[i]))
  }

  // ---- Steps ----

  datatype Step =
    | Append(rows: seq<Query>)      // a batch commits; its OnFlush is still to come
    | Notify                        // one pending NotifyNewQueries runs
    | Subscribe(latestOk: bool)     // the locked part; the subscriber's own notify is still to come
    | Unsubscribe(id: nat)
    | Consume(id: nat)              // the reader takes one row from its channel
    | TakeWake                      // the loop receives the wake token
    | Begin                         // pollOnce reads the cursor under the lock
    | Fetch(ok: bool)               // the unlocked database read
    | Publish                       // takes the mutex to fan one batch out
    | Send                          // offers one row to every subscriber's channel; readers may take meanwhile
    | Unlock                        // releases the mutex and decides whether to go on
    | Renotify                      // the batch cap was reached
    | Stop                          // Close closes the stop channel
    | Shutdown                      // the loop sees stop and closes every subscriber

  const NO_FILTER := FeedFilter("", "", "", Blank)

  predicate AppendOk(log: seq<Query>, rows: seq<Query>) {
    && rows != []
    && (forall i :: 0 <= i < |rows| ==> rows[i].id > LatestId(log) && rows[i].id > 0)
    && (forall i, j :: 0 <= i < j < |rows| ==> rows[i].id < rows[j].id)
  }

  /** The loop holds the mutex across several steps. */
  predicate Locked(phase: Phase) {
    phase.Publishing? && phase.locked
  }

  predicate Enabled(h: Hub, step: Step) {
    match step
    case Append(rows) => AppendOk(h.log, rows)
    case Notify => h.notifiers > 0
    case Subscribe(_) => !Locked(h.phase)
    case Unsubscribe(_) => !Locked(h.phase)
    case Consume(id) => id < |h.s.channels| && h.s.channels[id].taken < |h.s.channels[id].sent|
    case TakeWake => h.s.running && h.phase.Parked? && h.s.wake
    case Begin => h.phase.Starting?
    case Fetch(_) => h.phase.Fetching?
    case Publish => h.phase.Publishing? && !h.phase.locked
    case Send => Locked(h.phase) && h.phase.done < |h.phase.rows|
    case Unlock => Locked(h.phase) && h.phase.done == |h.phase.rows|
    case Renotify => h.phase.Renotifying?
    case Stop => true
    case Shutdown => h.s.running && h.phase.Parked? && h.s.stop
  }

  /** Where the loop goes after publishing a batch. */
  function AfterPublish(h: Hub): Phase
    requires h.phase.Publishing?
  {
    if h.s.subs == {} || |h.phase.rows| < h.batchSize then Parked
    else if h.phase.batch + 1 < MAX_BATCHES_PER_WAKE then Fetching(h.s.lastId, h.phase.batch + 1)
    else Renotifying
  }

  function Next(h: Hub, step: Step): Hub {
    if !Enabled(h, step) then h
    else match step
      case Append(rows) => h.(log := h.log + rows, notifiers := h.notifiers + 1)
      case Notify => h.(notifiers := h.notifiers - 1, s := Notified(h.s))
      case Subscribe(latestOk) =>
        if h.s.subs == {} && !latestOk then h
        else h.(s := Subscribed(h.s, LatestId(h.log)), notifiers := h.notifiers + 1)
      case Unsubscribe(id) => h.(s := Unsubscribed(h.s, id))
      case Consume(id) =>
        h.(s := h.s.(channels := h.s.channels[id := h.s.channels[id].(taken := h.s.channels[id].taken + 1)]))
      case TakeWake => h.(s := h.s.(wake := false), phase := Starting, stranded := false)
      case Begin => h.(phase := if h.s.subs == {} then Parked else Fetching(h.s.lastId, 0))
      case Fetch(ok) =>
        if !ok then h.(phase := Parked, stranded := h.s.lastId < LatestId(h.log))
        else
          var rows := QueryFeed(h.log, h.phase.cursor, NO_FILTER, h.batchSize);
          h.(phase := if rows == [] then Parked else Publishing(h.phase.cursor, h.phase.batch, rows, |h.log|, false, 0))
      case Publish => h.(phase := h.phase.(locked := true))
      case Send =>
        h.(s := PublishRow(h.s, h.phase.rows[h.phase.done]), phase := h.phase.(done := h.phase.done + 1))
      case Unlock => h.(phase := AfterPublish(h))
      case Renotify => h.(s := Notified(h.s), phase := Parked)
      case Stop => h.(s := h.s.(stop := true))
      case Shutdown => h.(s := ClosedAll(h.s), phase := Exited)
  }

  /** Any interleaving; a step that is not enabled does nothing. */
  function Exec(h: Hub, steps: seq<Step>): Hub {
    if steps == [] then h else Next(Exec(h, steps[..|steps| - 1]), steps[|steps| - 1])
  }

  /** A new hub over whatever the log already holds. */
  function Initial(batchSize: nat, log: seq<Query>): Hub {
    Hub(batchSize, log, Shared([], {}, 0, false, false, false), Parked, 0, false)
  }
}
