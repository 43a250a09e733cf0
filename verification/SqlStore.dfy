/**
  The SQL hub store as a machine of interleaved transactions (`packages/hub-store/src/store.ts`).

  A transaction runs one statement at a time. Its writes stay private until it commits; it sees the
  committed tables of the moment (READ COMMITTED) under its own writes. A statement that writes or
  locks a row another transaction has written waits: it is not enabled until the row is free, and
  then reads the committed row again. Any transaction may abort between two statements.

  A row-level delete that would wait for another delete of the same frame is allowed to go on at
  once. That only adds interleavings.
 */
module SqlStore {
  import opened Wrappers
  import opened LogReader
  import opened PublishHistory

  datatype Frame = Frame(topic: string, retain: Class, storedAt: int)
  datatype TopicRow = TopicRow(head: nat, removed: Option<nat>)
  datatype PublishKey = PublishKey(topic: string, publishID: string)

  datatype Tables = Tables(
    counter: nat,
    messages: map<nat, Frame>,
    topics: map<string, TopicRow>,
    publishIDs: map<PublishKey, Option<nat>>)

  datatype PublishParams = PublishParams(topic: string, retain: Class, expected: Expected, publishID: Option<string>)

  datatype Job =
    | Publish(params: PublishParams)
    | Trim(trimTopic: string, before: nat)
    | Purge(purgeTopic: string, threshold: int)
  {
    function Topic(): string {
      match this
      case Publish(params) => params.topic
      case Trim(topic, _) => topic
      case Purge(topic, _) => topic
    }
    predicate LogPublish() { Publish? && params.retain == Log }
  }

  /** The next statement of a transaction. */
  datatype Statement =
    | Claim | ReadRecord | ReadHead | Mint | Append | AdvanceHead | Evict | Complete
    | LockTopic | ReadKept | SelectFrames | AdvanceRemoved
    | Commit

  /** A transaction in flight: its job, where it stands, what it read and its private writes. */
  datatype Txn = Txn(
    job: Job,
    next: Statement,
    minted: Option<nat>,          // the counter row, held from here to commit
    frame: Option<Frame>,         // the appended message
    deleted: set<nat>,            // the deleted messages
    upTo: Option<nat>,            // the last log frame among them
    topicLock: bool,              // the topic row, held
    row: Option<TopicRow>,        // the topic row, written
    claim: Option<Option<nat>>,   // the idempotency record, inserted and perhaps completed
    head: Option<nat>,            // purge: the head it locked
    firstKept: Option<nat>)       // purge: the first frame not due

  /** What a publish that carried an idempotency key returned. */
  datatype Answer = Answer(key: PublishKey, seqID: nat, deduped: bool)

  datatype State = State(
    db: Tables,
    txns: map<nat, Txn>,
    depth: Option<nat>,           // maxDepth; None is no bound
    history: seq<Accept<PublishKey>>,
    answers: seq<Answer>)

  /** What the environment supplies to a statement: the clock and whether the topic has readers. */
  datatype Input = Input(now: int, recipients: bool)

  datatype Event =
    | Begin(id: nat, job: Job)
    | Exec(id: nat, input: Input)
    | Abort(id: nat)

  function Initial(depth: Option<nat>): State {
    State(Tables(0, map[], map[], map[]), map[], depth, [], [])
  }

  function Start(job: Job): Txn {
    Txn(job, if job.Publish? then Claim else LockTopic,
        None, None, {}, None, false, None, None, None, None)
  }

  function Key(p: PublishParams): PublishKey
    requires p.publishID.Some?
  {
    PublishKey(p.topic, p.publishID.value)
  }

  predicate IsLog(f: Frame, topic: string) {
    f.topic == topic && f.retain == Log
  }

  // ------------------------------------------------------------------------------------------
  // Row locks.

  predicate CounterBusy(s: State, id: nat) {
    exists i :: i in s.txns && i != id && s.txns[i].minted.Some?
  }

  predicate TopicBusy(s: State, id: nat, topic: string) {
    exists i :: i in s.txns && i != id && s.txns[i].topicLock && s.txns[i].job.Topic() == topic
  }

  predicate HoldsKey(t: Txn, key: PublishKey) {
    t.claim.Some? && t.job.Publish? && t.job.params.publishID.Some? && Key(t.job.params) == key
  }

  predicate KeyBusy(s: State, id: nat, key: PublishKey) {
    exists i :: i in s.txns && i != id && HoldsKey(s.txns[i], key)
  }

  // ------------------------------------------------------------------------------------------
  // Reads.

  /** What a transaction sees of the message table: the committed rows under its own writes. */
  function Visible(db: Tables, t: Txn): map<nat, Frame> {
    var rows := map id | id in db.messages && id !in t.deleted :: db.messages[id];
    if t.minted.Some? && t.frame.Some? && t.minted.value !in t.deleted
    then rows[t.minted.value := t.frame.value] else rows
  }

  /** The log rows of a topic with an ID up to `bound`, ascending. */
  function LogRows(rows: map<nat, Frame>, topic: string, bound: nat): seq<nat> {
    if bound == 0 then []
    else
      LogRows(rows, topic, bound - 1) +
      (if bound in rows && IsLog(rows[bound], topic) then [bound] else [])
  }

  function StoredHead(db: Tables, topic: string): Option<nat> {
    if topic in db.topics then Some(db.topics[topic].head) else None
  }

  function StoredRemoved(db: Tables, topic: string): Option<nat> {
    if topic in db.topics then db.topics[topic].removed else None
  }

  /** The first log row not yet due at the threshold: `min(sequence_id)` over `stored_at > threshold`. */
  function FirstKept(rows: map<nat, Frame>, topic: string, threshold: int, bound: nat): Option<nat> {
    if bound == 0 then None
    else
      var below := FirstKept(rows, topic, threshold, bound - 1);
      if below.Some? then below
      else if bound in rows && IsLog(rows[bound], topic) && rows[bound].storedAt > threshold then Some(bound)
      else None
  }

  predicate Below(x: nat, bound: Option<nat>) {
    bound.None? || x < bound.value
  }

  /** The frames a purge selects: due mailbox frames, and the log up to the first frame kept. */
  predicate Purgeable(f: Frame, id: nat, topic: string, threshold: int, head: Option<nat>, firstKept: Option<nat>) {
    f.topic == topic &&
    if f.retain == Mailbox then f.storedAt <= threshold
    else head.Some? && id <= head.value && Below(id, firstKept)
  }

  // ------------------------------------------------------------------------------------------
  // Statements.

  function Set(s: State, id: nat, t: Txn): State {
    s.(txns := s.txns[id := t])
  }

  function Drop(s: State, id: nat): State {
    s.(txns := s.txns - {id})
  }

  /** One event. `None` is a statement that has to wait, or an event that cannot happen. */
  function Next(s: State, e: Event): Option<State> {
    match e
    case Begin(id, job) => if id in s.txns then None else Some(Set(s, id, Start(job)))
    case Abort(id) => if id in s.txns then Some(Drop(s, id)) else None
    case Exec(id, input) =>
      if id !in s.txns then None
      else if s.txns[id].next == Commit then Some(CommitTxn(s, id))
      else if s.txns[id].job.Publish? then ExecPublish(s, id, s.txns[id].job.params, input)
      else ExecSweep(s, id)
  }

  function ExecPublish(s: State, id: nat, p: PublishParams, input: Input): Option<State>
    requires id in s.txns
  {
    var t := s.txns[id];
    match t.next
    case Claim =>
      if p.publishID.None? then Some(Set(s, id, t.(next := ReadHead)))
      else if KeyBusy(s, id, Key(p)) then None
      else if Key(p) in s.db.publishIDs then Some(Set(s, id, t.(next := ReadRecord)))
      else Some(Set(s, id, t.(claim := Some(None), next := ReadHead)))
    case ReadRecord =>
      if p.publishID.None? || Key(p) !in s.db.publishIDs || s.db.publishIDs[Key(p)].None?
      then Some(Drop(s, id))
      else
        var answer := Answer(Key(p), s.db.publishIDs[Key(p)].value, true);
        Some(Drop(s, id).(answers := s.answers + [answer]))
    case ReadHead =>
      if p.expected.Exactly? && p.expected.head != StoredHead(s.db, p.topic) then Some(Drop(s, id))
      else Some(Set(s, id, t.(next := Mint)))
    case Mint =>
      if CounterBusy(s, id) then None
      else Some(Set(s, id, t.(minted := Some(s.db.counter + 1), next := Append)))
    case Append =>
      var stored := p.retain == Log || input.recipients;
      var frame := if stored then Some(Frame(p.topic, p.retain, input.now)) else None;
      Some(Set(s, id, t.(frame := frame, next := if p.retain == Log then AdvanceHead else Complete)))
    case AdvanceHead => ExecAdvanceHead(s, id, p)
    case Evict => Some(Set(s, id, EvictDepth(s.db, t, s.depth)))
    case Complete =>
      Some(Set(s, id, t.(claim := if t.claim.Some? then Some(t.minted) else None, next := Commit)))
    case _ => None
  }

  /** The conditional head write: the arbiter between publishes racing at one head. */
  function ExecAdvanceHead(s: State, id: nat, p: PublishParams): Option<State>
    requires id in s.txns
  {
    var t := s.txns[id];
    if t.minted.None? then None
    else
      var advanced := Set(s, id, t.(
        topicLock := true,
        row := Some(TopicRow(t.minted.value, StoredRemoved(s.db, p.topic))),
        next := Evict));
      match p.expected
      case Unconditional => if TopicBusy(s, id, p.topic) then None else Some(advanced)
      case Exactly(None) =>
        if p.topic in s.db.topics then Some(Drop(s, id))
        else if TopicBusy(s, id, p.topic) then None
        else Some(advanced)
      case Exactly(Some(head)) =>
        if StoredHead(s.db, p.topic) != Some(head) then Some(Drop(s, id))
        else if TopicBusy(s, id, p.topic) then None
        else Some(advanced)
  }

  /** Depth eviction inside the publish: the oldest log rows past `maxDepth`. */
  function EvictDepth(db: Tables, t: Txn, depth: Option<nat>): Txn {
    var rows := LogRows(Visible(db, t), t.job.Topic(), db.counter + 1);
    if depth.None? || |rows| <= depth.value || t.row.None? then t.(next := Complete)
    else
      var evict := rows[..|rows| - depth.value];
      Evicted(t, (set x | x in evict), Last(evict))
  }

  function Evicted(t: Txn, evict: set<nat>, last: Option<nat>): Txn
    requires t.row.Some?
  {
    t.(deleted := t.deleted + evict,
       upTo := last,
       row := Some(t.row.value.(removed := Raise(t.row.value.removed, last))),
       next := Complete)
  }

  /** Trim, and one topic of a purge: lock the topic row, select, delete, raise the watermark. */
  function ExecSweep(s: State, id: nat): Option<State>
    requires id in s.txns
  {
    var t := s.txns[id];
    var topic := t.job.Topic();
    match t.next
    case LockTopic =>
      var after := if t.job.Purge? then ReadKept else SelectFrames;
      if topic !in s.db.topics then Some(Set(s, id, t.(next := after)))
      else if TopicBusy(s, id, topic) then None
      else Some(Set(s, id, t.(topicLock := true, head := StoredHead(s.db, topic), next := after)))
    case ReadKept =>
      var kept := if t.job.Purge? then FirstKept(s.db.messages, topic, t.job.threshold, s.db.counter) else None;
      Some(Set(s, id, t.(firstKept := kept, next := SelectFrames)))
    case SelectFrames => Some(Set(s, id, Select(s.db, t)))
    case AdvanceRemoved =>
      if topic !in s.db.topics then Some(Set(s, id, t.(next := Commit)))
      else if TopicBusy(s, id, topic) then None
      else
        var row := s.db.topics[topic];
        var raised := row.(removed := Raise(row.removed, t.upTo));
        Some(Set(s, id, t.(topicLock := true, row := Some(raised), next := Commit)))
    case _ => None
  }

  function Select(db: Tables, t: Txn): Txn {
    var topic := t.job.Topic();
    var chosen := match t.job
      case Trim(_, before) =>
        set id | id in db.messages && IsLog(db.messages[id], topic) && id < before
      case Purge(_, threshold) =>
        set id | id in db.messages && Purgeable(db.messages[id], id, topic, threshold, t.head, t.firstKept)
      case Publish(_) => {};
    var upTo := Last(LogRows(map id | id in db.messages && id in chosen :: db.messages[id], topic, db.counter));
    t.(deleted := chosen, upTo := upTo, next := if upTo.Some? then AdvanceRemoved else Commit)
  }

  function Applied(db: Tables, t: Txn): Tables {
    Tables(
      if t.minted.Some? then t.minted.value else db.counter,
      Visible(db, t),
      if t.row.Some? then db.topics[t.job.Topic() := t.row.value] else db.topics,
      if t.claim.Some? && t.job.Publish? && t.job.params.publishID.Some?
      then db.publishIDs[Key(t.job.params) := t.claim.value] else db.publishIDs)
  }

  function RequestKey(p: PublishParams): Option<PublishKey> {
    if p.publishID.Some? then Some(Key(p)) else None
  }

  /** Commit: the private writes become visible together and every row is released. */
  function CommitTxn(s: State, id: nat): State
    requires id in s.txns
  {
    var t := s.txns[id];
    var done := Drop(s, id).(db := Applied(s.db, t));
    if t.job.Publish? && t.minted.Some? then
      var p := t.job.params;
      var accept := Accept(t.minted.value, p.topic, p.retain, p.expected, RequestKey(p));
      done.(history := s.history + [accept],
            answers := if p.publishID.Some? then s.answers + [Answer(Key(p), t.minted.value, false)] else s.answers)
    else done
  }

  /** A run: events in order, each of which could happen when it did. */
  function Run(s: State, events: seq<Event>): Option<State>
    decreases |events|
  {
    if events == [] then Some(s)
    else
      var s' := Next(s, events[0]);
      if s'.None? then None else Run(s'.value, events[1..])
  }

  // ------------------------------------------------------------------------------------------
  // Views.

  function View(s: State, topic: string): LogView {
    LogView(Accepted(s.history, topic), StoredRemoved(s.db, topic))
  }

  /** `fetchTopic` in one repeatable-read snapshot. */
  function FetchTopic(db: Tables, topic: string, after: Option<nat>, limit: Option<nat>): PageResult {
    var rows := LogRows(db.messages, topic, db.counter);
    var removed := StoredRemoved(db, topic);
    PageResult(Take(Above(rows, after), limit),
               removed.Some? && (after.None? || removed.value > after.value))
  }
}
