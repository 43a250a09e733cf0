/**
  What the in-memory hub store means, without its indexes (`packages/hub-server/src/memoryStore.ts`).

  The store keeps per-topic arrays, per-recipient queues and a reverse subscription index for speed.
  All of them can be read off the live entries, so the operations are specified on those alone;
  the class in `MemoryStore.dfy` is proved to do the same with its indexes.
 */
module MemoryModel {
  import opened Wrappers
  import opened LogReader
  import opened PublishHistory

  type Bytes = seq<bv8>

  /** A live entry. `pendingFor` are the recipients that have not acknowledged it. */
  datatype Entry = Entry(
    sender: string, topic: string, payload: Bytes, storedAt: int, retain: Class, pendingFor: set<string>)

  datatype Core = Core(
    counter: nat,
    entries: map<nat, Entry>,
    heads: map<string, nat>,
    removedThrough: map<string, nat>,
    records: map<string, nat>,
    subscriptions: map<string, map<string, int>>)

  datatype Options = Options(
    maxDepth: Option<nat>, defaultRetention: int, maxRetention: Option<int>, maxSubscriptions: nat)

  datatype PublishParams = PublishParams(
    sender: string, topic: string, payload: Bytes, expected: Expected, publishID: Option<string>, retain: Class)

  datatype PublishResult =
    | Published(seqID: nat, deduped: bool)
    | HeadMismatch

  datatype SubscribeResult = Subscribed | RetentionExceeded | QuotaExceeded

  const EMPTY := Core(0, map[], map[], map[], map[], map[])

  predicate IsLog(e: Entry, topic: string) {
    e.topic == topic && e.retain == Log
  }

  function Lookup(m: map<string, nat>, key: string): Option<nat> {
    if key in m then Some(m[key]) else None
  }

  function Subscribers(c: Core, topic: string): map<string, int> {
    if topic in c.subscriptions then c.subscriptions[topic] else map[]
  }

  /** The live log entries of a topic, ascending. */
  function LogIDs(entries: map<nat, Entry>, topic: string, bound: nat): seq<nat> {
    if bound == 0 then []
    else
      LogIDs(entries, topic, bound - 1) +
      (if bound in entries && IsLog(entries[bound], topic) then [bound] else [])
  }

  /** The members of a set of IDs up to `bound`, ascending. */
  function Ascending(ids: set<nat>, bound: nat): seq<nat> {
    if bound == 0 then []
    else Ascending(ids, bound - 1) + (if bound in ids then [bound] else [])
  }

  // ------------------------------------------------------------------------------------------
  // Removal.

  /** Remove one entry. Removing a log entry raises its topic's watermark; heads are never touched. */
  function RemoveEntry(c: Core, id: nat): Core {
    if id !in c.entries then c
    else
      var e := c.entries[id];
      c.(entries := c.entries - {id},
         removedThrough :=
           if e.retain == Log && !(e.topic in c.removedThrough && id <= c.removedThrough[e.topic])
           then c.removedThrough[e.topic := id] else c.removedThrough)
  }

  function RemoveEntries(c: Core, ids: seq<nat>): Core
    decreases |ids|
  {
    if ids == [] then c else RemoveEntries(RemoveEntry(c, ids[0]), ids[1..])
  }

  /** Drop one recipient's delivery; a mailbox frame goes with its last one. */
  function DropDelivery(c: Core, recipient: string, id: nat): Core {
    if id !in c.entries then c
    else
      var e := c.entries[id].(pendingFor := c.entries[id].pendingFor - {recipient});
      var dropped := c.(entries := c.entries[id := e]);
      if e.retain == Mailbox && e.pendingFor == {} then RemoveEntry(dropped, id) else dropped
  }

  function DropDeliveries(c: Core, recipient: string, ids: seq<nat>): Core
    decreases |ids|
  {
    if ids == [] then c else DropDeliveries(DropDelivery(c, recipient, ids[0]), recipient, ids[1..])
  }

  // ------------------------------------------------------------------------------------------
  // Operations.

  /** The log past its depth: the oldest entries over the bound. */
  function Overflow(c: Core, topic: string, maxDepth: Option<nat>): seq<nat> {
    var log := LogIDs(c.entries, topic, c.counter);
    if maxDepth.Some? && |log| > maxDepth.value then log[..|log| - maxDepth.value] else []
  }

  function Publish(c: Core, p: PublishParams, now: int, maxDepth: Option<nat>): (Core, PublishResult) {
    if p.publishID.Some? && p.publishID.value in c.records
    then (c, Published(c.records[p.publishID.value], true))
    else if p.expected.Exactly? && p.expected.head != Lookup(c.heads, p.topic)
    then (c, HeadMismatch)
    else
      var id := c.counter + 1;
      var recipients := Subscribers(c, p.topic).Keys - {p.sender};
      var minted := c.(
        counter := id,
        records := if p.publishID.Some? then c.records[p.publishID.value := id] else c.records,
        heads := if p.retain == Log then c.heads[p.topic := id] else c.heads);
      if p.retain == Mailbox && recipients == {} then (minted, Published(id, false))
      else
        var e := Entry(p.sender, p.topic, p.payload, now, p.retain, recipients);
        var appended := minted.(entries := c.entries[id := e]);
        (if p.retain == Log then RemoveEntries(appended, Overflow(appended, p.topic, maxDepth)) else appended,
         Published(id, false))
  }

  /** The log entries of a topic below a bound, ascending. */
  function Trimmed(c: Core, topic: string, before: nat): seq<nat> {
    var gone := set id | id in c.entries && IsLog(c.entries[id], topic) && id < before;
    Ascending(gone, c.counter)
  }

  function Trim(c: Core, topic: string, before: nat): Core {
    RemoveEntries(c, Trimmed(c, topic, before))
  }

  /** Stored for as long as the hub's default, the caller's bound and every subscriber asked for. */
  predicate Due(c: Core, e: Entry, now: int, olderThan: int, defaultRetention: int) {
    && e.storedAt <= now - olderThan * 1000
    && e.storedAt <= now - defaultRetention * 1000
    && forall did :: did in Subscribers(c, e.topic) ==> e.storedAt <= now - Subscribers(c, e.topic)[did] * 1000
  }

  /** A log entry goes only with the whole log below it: removal is prefix-only, whatever the clock did. */
  predicate Purgeable(c: Core, id: nat, now: int, olderThan: int, defaultRetention: int)
    requires id in c.entries
  {
    var e := c.entries[id];
    if e.retain == Mailbox then Due(c, e, now, olderThan, defaultRetention)
    else forall x :: x in c.entries && IsLog(c.entries[x], e.topic) && x <= id ==>
           Due(c, c.entries[x], now, olderThan, defaultRetention)
  }

  function Purged(c: Core, now: int, olderThan: int, defaultRetention: int): seq<nat> {
    var gone := set id | id in c.entries && Purgeable(c, id, now, olderThan, defaultRetention);
    Ascending(gone, c.counter)
  }

  function Purge(c: Core, now: int, olderThan: int, defaultRetention: int): Core {
    RemoveEntries(c, Purged(c, now, olderThan, defaultRetention))
  }

  function HeldTopics(c: Core, did: string): set<string> {
    set topic | topic in c.subscriptions && did in c.subscriptions[topic]
  }

  function Subscribe(c: Core, did: string, topic: string, retention: Option<int>, o: Options): (Core, SubscribeResult) {
    var requested := if retention.Some? then retention.value else o.defaultRetention;
    if o.maxRetention.Some? && requested > o.maxRetention.value then (c, RetentionExceeded)
    else if topic !in HeldTopics(c, did) && |HeldTopics(c, did)| >= o.maxSubscriptions then (c, QuotaExceeded)
    else (c.(subscriptions := c.subscriptions[topic := Subscribers(c, topic)[did := requested]]), Subscribed)
  }

  /** Drop a subscription, and the topic's list with the last one. */
  function Leave(c: Core, did: string, topic: string): Core {
    var left := Subscribers(c, topic) - {did};
    c.(subscriptions := if left == map[] then c.subscriptions - {topic} else c.subscriptions[topic := left])
  }

  /** The deliveries of one topic still pending for a reader, ascending. */
  function PendingOn(c: Core, did: string, topic: string): seq<nat> {
    var pending := set id | id in c.entries && did in c.entries[id].pendingFor && c.entries[id].topic == topic;
    Ascending(pending, c.counter)
  }

  /** Leave a topic: the subscription, and every delivery of the topic still pending for the reader. */
  function Unsubscribe(c: Core, did: string, topic: string): Core {
    DropDeliveries(Leave(c, did, topic), did, PendingOn(c, did, topic))
  }

  // ------------------------------------------------------------------------------------------
  // Reads.

  /** The pending deliveries of a recipient, ascending. */
  function Pending(c: Core, recipient: string): seq<nat> {
    var pending := set id | id in c.entries && recipient in c.entries[id].pendingFor;
    Ascending(pending, c.counter)
  }

  /** A page of a topic's log: the live log entries after the cursor, and whether any were removed there. */
  function ServePage(c: Core, topic: string, after: Option<nat>, limit: Option<nat>): PageResult {
    var removed := Lookup(c.removedThrough, topic);
    PageResult(Take(Above(LogIDs(c.entries, topic, c.counter), after), limit),
               removed.Some? && (after.None? || removed.value > after.value))
  }

  /** `fetchTopic`: `None` when the caller is not a subscriber of the topic. */
  function FetchTopic(c: Core, did: string, topic: string, after: Option<nat>, limit: Option<nat>): Option<PageResult> {
    if did in Subscribers(c, topic) then Some(ServePage(c, topic, after, limit)) else None
  }

  // ------------------------------------------------------------------------------------------
  // Runs.

  datatype Op =
    | DoPublish(params: PublishParams, now: int)
    | DoTrim(topic: string, before: nat)
    | DoAck(recipient: string, ids: seq<nat>)
    | DoPurge(now: int, olderThan: int)
    | DoSubscribe(did: string, topic: string, retention: Option<int>)
    | DoUnsubscribe(did: string, topic: string)

  /** The store and every publish it ever accepted. */
  datatype State = State(core: Core, history: seq<Accept<string>>)

  function Record(p: PublishParams, id: nat): Accept<string> {
    Accept(id, p.topic, p.retain, p.expected, p.publishID)
  }

  function Step(s: State, op: Op, o: Options): State {
    match op
    case DoPublish(p, now) =>
      var (c, result) := Publish(s.core, p, now, o.maxDepth);
      State(c, if result.Published? && !result.deduped then s.history + [Record(p, result.seqID)] else s.history)
    case DoTrim(topic, before) => State(Trim(s.core, topic, before), s.history)
    case DoAck(recipient, ids) => State(DropDeliveries(s.core, recipient, ids), s.history)
    case DoPurge(now, olderThan) => State(Purge(s.core, now, olderThan, o.defaultRetention), s.history)
    case DoSubscribe(did, topic, retention) => State(Subscribe(s.core, did, topic, retention, o).0, s.history)
    case DoUnsubscribe(did, topic) => State(Unsubscribe(s.core, did, topic), s.history)
  }

  function Run(s: State, ops: seq<Op>, o: Options): State
    decreases |ops|
  {
    if ops == [] then s else Run(Step(s, ops[0], o), ops[1..], o)
  }

  function View(s: State, topic: string): LogView {
    LogView(Accepted(s.history, topic), Lookup(s.core.removedThrough, topic))
  }
}
