/**
  The in-memory hub store with its indexes (`packages/hub-server/src/memoryStore.ts`).

  Every method is proved to do to the entries what `MemoryModel` says, to record what it accepted,
  and to leave every index in agreement with the entries.
 */
module MemoryStore {
  import opened Wrappers
  import opened LogReader
  import opened PublishHistory
  import opened MemoryModel
  import opened MemoryInvariant
  import opened MemoryIndexes

  /** A stored frame as a reader sees it; only a log frame has a position in the log. */
  datatype StoredMessage = StoredMessage(
    seqID: nat, sender: string, topic: string, payload: Bytes, logPosition: Option<nat>)

  datatype TopicPage = TopicPage(messages: seq<StoredMessage>, head: Option<nat>, oldest: Option<nat>, gap: bool)

  function AsStoredMessage(id: nat, e: Entry): StoredMessage {
    StoredMessage(id, e.sender, e.topic, e.payload, if e.retain == Log then Some(id) else None)
  }

  /** The frames of a list of live IDs, in order. */
  function Messages(entries: map<nat, Entry>, ids: seq<nat>): seq<StoredMessage>
    requires forall x :: x in ids ==> x in entries
  {
    seq(|ids|, i requires 0 <= i < |ids| => AsStoredMessage(ids[i], entries[ids[i]]))
  }

  class Store {
    const options: Options
    var counter: nat
    var entries: map<nat, Entry>
    var order: seq<nat>                              // the entry map's insertion order
    var topicLogs: map<string, seq<nat>>
    var heads: map<string, nat>
    var removedThrough: map<string, nat>
    var deliveries: map<string, seq<nat>>
    var publishRecords: map<string, nat>
    var subscriptions: map<string, map<string, int>>
    var subsByDID: map<string, set<string>>
    ghost var history: seq<Accept<string>>           // every publish ever accepted

    ghost function Entries(): Core
      reads this
    {
      Core(counter, entries, heads, removedThrough, publishRecords, subscriptions)
    }

    ghost function Snapshot(): State
      reads this
    {
      State(Entries(), history)
    }

    /** Every index agrees with the entries. */
    ghost predicate Valid()
      reads this
    {
      && OrderOk(entries, order, counter)
      && LogsOk(entries, topicLogs)
      && QueuesOk(entries, deliveries)
      && SubscriptionsOk(subscriptions, subsByDID)
    }

    constructor (options: Options)
      ensures Valid() && Snapshot() == INITIAL && this.options == options
    {
      this.options := options;
      counter, entries, order, topicLogs, heads := 0, map[], [], map[], map[];
      removedThrough, deliveries, publishRecords := map[], map[], map[];
      subscriptions, subsByDID, history := map[], map[], [];
    }

    // ----------------------------------------------------------------------------------------
    // Removal.

    /** Take an entry out of its pending recipients' queues. */
    method Unqueue(id: nat, pendingFor: set<string>)
      requires id in entries && pendingFor <= entries[id].pendingFor
      requires QueuesBut(entries, deliveries, Some(id), pendingFor)
      modifies this`deliveries
      ensures QueuesBut(entries, deliveries, Some(id), {})
    {
      hide QueuesBut;
      var todo := pendingFor;
      while todo != {}
        invariant todo <= pendingFor
        invariant QueuesBut(entries, deliveries, Some(id), todo)
        decreases todo
      {
        var did :| did in todo;
        SpliceQueue(entries, deliveries, id, todo, did);
        deliveries := deliveries[did := Without(deliveries[did], id)];
        todo := todo - {did};
      }
    }

    /** Take an entry out of its topic's array, and the array away with its last one. */
    method Unlog(topic: string, id: nat)
      requires topic in topicLogs
      modifies this`topicLogs
      ensures topicLogs == SpliceLog(old(topicLogs), topic, id)
    {
      var log := Without(topicLogs[topic], id);
      if log == [] {
        topicLogs := topicLogs - {topic};
      } else {
        topicLogs := topicLogs[topic := log];
      }
    }

    /** The only removal path for an entry: its watermark, its deliveries, its topic array, itself. */
    method Remove(id: nat)
      requires Valid()
      modifies this
      ensures Valid()
      ensures Entries() == RemoveEntry(old(Entries()), id)
      ensures history == old(history)
    {
      hide OrderOk, LogsOk, QueuesOk, QueuesBut, SubscriptionsOk, Without, SpliceLog;
      if id !in entries { return; }
      var e := entries[id];
      if e.retain == Log {
        if e.topic !in removedThrough || id > removedThrough[e.topic] {
          removedThrough := removedThrough[e.topic := id];
        }
      }
      StartUnqueue(entries, deliveries, id);
      Unqueue(id, e.pendingFor);
      RemoveFromQueues(entries, deliveries, id);
      RemoveFromLog(entries, topicLogs, id);
      RemoveFromOrder(entries, order, counter, id);
      Unlog(e.topic, id);
      entries := entries - {id};
      order := Without(order, id);
    }

    /** Drop one recipient's delivery; a mailbox entry goes with its last one, a log entry does not. */
    method Drop(recipient: string, id: nat)
      requires Valid()
      modifies this
      ensures Valid()
      ensures Entries() == DropDelivery(old(Entries()), recipient, id)
      ensures history == old(history)
    {
      hide OrderOk, LogsOk, QueuesOk, QueuesBut, SubscriptionsOk;
      if id in entries {
        DropFromQueue(entries, deliveries, id, recipient);
      } else {
        GoneIsUnqueued(entries, deliveries, id, recipient);
      }
      if recipient in deliveries {
        deliveries := deliveries[recipient := Without(deliveries[recipient], id)];
      }
      if id !in entries { return; }
      var e := entries[id].(pendingFor := entries[id].pendingFor - {recipient});
      SameTopicsSameLogs(entries, entries[id := e], topicLogs);
      OrderSameKeys(entries, entries[id := e], order, counter);
      entries := entries[id := e];
      if e.retain == Mailbox && e.pendingFor == {} {
        Remove(id);
      }
    }

    method DropAll(recipient: string, ids: seq<nat>)
      requires Valid()
      modifies this
      ensures Valid()
      ensures Entries() == DropDeliveries(old(Entries()), recipient, ids)
      ensures history == old(history)
    {
      hide OrderOk, LogsOk, QueuesOk, QueuesBut, SubscriptionsOk;
      var i := 0;
      while i < |ids|
        invariant 0 <= i <= |ids|
        invariant Valid() && history == old(history)
        invariant DropDeliveries(Entries(), recipient, ids[i..]) == DropDeliveries(old(Entries()), recipient, ids)
      {
        assert ids[i..][1..] == ids[i + 1..];
        Drop(recipient, ids[i]);
        i := i + 1;
      }
    }

    method RemoveAll(ids: seq<nat>)
      requires Valid()
      modifies this
      ensures Valid()
      ensures Entries() == RemoveEntries(old(Entries()), ids)
      ensures history == old(history)
    {
      hide OrderOk, LogsOk, QueuesOk, QueuesBut, SubscriptionsOk;
      var i := 0;
      while i < |ids|
        invariant 0 <= i <= |ids|
        invariant Valid() && history == old(history)
        invariant RemoveEntries(Entries(), ids[i..]) == RemoveEntries(old(Entries()), ids)
      {
        assert ids[i..][1..] == ids[i + 1..];
        Remove(ids[i]);
        i := i + 1;
      }
    }

    // ----------------------------------------------------------------------------------------
    // Acknowledgement, trim and purge.

    method Ack(recipient: string, ids: seq<nat>)
      requires Valid()
      modifies this
      ensures Valid()
      ensures Entries() == DropDeliveries(old(Entries()), recipient, ids)
      ensures history == old(history)
    {
      hide OrderOk, LogsOk, QueuesOk, QueuesBut, SubscriptionsOk;
      DropAll(recipient, ids);
    }

    method Trim(topic: string, before: nat)
      requires Valid()
      modifies this
      ensures Valid()
      ensures Entries() == MemoryModel.Trim(old(Entries()), topic, before)
      ensures history == old(history)
    {
      hide OrderOk, LogsOk, QueuesOk, QueuesBut, SubscriptionsOk;
      var log: seq<nat> := TopicArray(topicLogs, topic);
      var i := 0;
      var gone: seq<nat> := [];
      while i < |log|
        modifies {}
        invariant 0 <= i <= |log|
        invariant gone == LogClass(entries, BelowBound(log[..i], before))
      {
        BelowBoundGrows(entries, log, before, i);
        if log[i] < before && log[i] in entries && entries[log[i]].retain == Log {
          gone := gone + [log[i]];
        }
        i := i + 1;
      }
      assert log[..|log|] == log;
      OrderBounds(entries, order, counter);
      TrimmedIsSelected(Entries(), topicLogs, topic, before);
      RemoveAll(gone);
    }

    /** The longest of the hub's default, the caller's bound and what any subscriber asked for. */
    method RetentionOf(topic: string, floor: int) returns (retention: int)
      ensures retention >= floor && retention >= options.defaultRetention
      ensures forall did :: did in Subscribers(Entries(), topic) ==> Subscribers(Entries(), topic)[did] <= retention
      ensures retention == floor || retention == options.defaultRetention
           || exists did :: did in Subscribers(Entries(), topic) && Subscribers(Entries(), topic)[did] == retention
    {
      retention := if floor > options.defaultRetention then floor else options.defaultRetention;
      if topic in subscriptions {
        var subscribers := subscriptions[topic];
        assert subscribers == Subscribers(Entries(), topic);
        var todo := subscribers.Keys;
        while todo != {}
          invariant todo <= subscribers.Keys
          invariant retention >= floor && retention >= options.defaultRetention
          invariant forall did :: did in subscribers && did !in todo ==> subscribers[did] <= retention
          invariant retention == floor || retention == options.defaultRetention
                 || exists did :: did in subscribers && subscribers[did] == retention
          decreases todo
        {
          var did :| did in todo;
          if subscribers[did] > retention {
            retention := subscribers[did];
          }
          todo := todo - {did};
        }
      }
    }

    method Purge(now: int, olderThan: int) returns (purged: seq<nat>)
      requires Valid()
      modifies this
      ensures Valid()
      ensures Entries() == MemoryModel.Purge(old(Entries()), now, olderThan, options.defaultRetention)
      ensures history == old(history)
      ensures purged == Purged(old(Entries()), now, olderThan, options.defaultRetention)
    {
      hide OrderOk, LogsOk, QueuesOk, QueuesBut, SubscriptionsOk, Scanned, Due, Purged;
      ghost var c := Entries();
      var i := 0;
      var retained: set<string> := {};
      purged := [];
      assert Scanned(c, order[..0], retained, purged, now, olderThan, options.defaultRetention) by {
        NothingScanned(c, order, now, olderThan, options.defaultRetention);
      }
      while i < |order|
        modifies {}
        invariant 0 <= i <= |order|
        invariant Scanned(c, order[..i], retained, purged, now, olderThan, options.defaultRetention)
      {
        ScanStep(c, order, i, retained, purged, now, olderThan, options.defaultRetention);
        var id := order[i];
        var e := entries[id];
        if !(e.retain == Log && e.topic in retained) {
          var retention := RetentionOf(e.topic, olderThan);
          assert Subscribers(c, e.topic) == Subscribers(Entries(), e.topic);
          DueIsPastRetention(c, e, now, olderThan, options.defaultRetention, retention);
          if e.storedAt <= now - retention * 1000 {
            purged := purged + [id];
          } else if e.retain == Log {
            retained := retained + {e.topic};
          }
        }
        i := i + 1;
      }
      assert order[..|order|] == order;
      ScanIsPurged(c, order, retained, purged, now, olderThan, options.defaultRetention);
      RemoveAll(purged);
    }

    // ----------------------------------------------------------------------------------------
    // Publish.

    method RecipientsOf(topic: string, sender: string) returns (recipients: set<string>)
      ensures recipients == Subscribers(Entries(), topic).Keys - {sender}
    {
      recipients := {};
      if topic in subscriptions {
        var todo := subscriptions[topic].Keys;
        while todo != {}
          invariant todo <= subscriptions[topic].Keys
          invariant recipients == subscriptions[topic].Keys - todo - {sender}
          decreases todo
        {
          var did :| did in todo;
          if did != sender {
            recipients := recipients + {did};
          }
          todo := todo - {did};
        }
      }
    }

    /** Append an entry to the map, its topic's array and its recipients' queues. */
    method Append(id: nat, e: Entry)
      requires id >= 1 && counter == id && OrderOk(entries, order, id - 1)
      requires LogsOk(entries, topicLogs) && QueuesOk(entries, deliveries)
      requires SubscriptionsOk(subscriptions, subsByDID)
      modifies this`entries, this`order, this`topicLogs, this`deliveries
      ensures Valid()
      ensures entries == old(entries)[id := e]
    {
      hide OrderOk, LogsOk, QueuesOk, QueuesBut, SubscriptionsOk;
      OrderBounds(entries, order, id - 1);
      AppendToOrder(entries, order, id, e);
      AppendToLog(entries, topicLogs, id, e);
      NewEntryQueues(entries, deliveries, id, e);
      entries := entries[id := e];
      order := order + [id];
      topicLogs := PushLog(topicLogs, e.topic, id);
      var todo := e.pendingFor;
      assert e.pendingFor - todo == {};
      while todo != {}
        invariant todo <= e.pendingFor
        invariant QueuesBut(entries, deliveries, Some(id), e.pendingFor - todo)
        invariant OrderOk(entries, order, id)
        modifies this`deliveries
        decreases todo
      {
        var did :| did in todo;
        OrderBounds(entries, order, id);
        AppendToQueue(entries, deliveries, id, e.pendingFor - todo, did);
        assert e.pendingFor - (todo - {did}) == e.pendingFor - todo + {did};
        deliveries := PushQueue(deliveries, did, id);
        todo := todo - {did};
      }
      assert e.pendingFor - todo == e.pendingFor;
      AllQueued(entries, deliveries, id);
    }

    /** The depth of a topic's log, counting log entries only. */
    method LogDepth(topic: string) returns (depth: nat)
      requires Valid()
      ensures depth == |LogIDs(entries, topic, counter)|
    {
      var log: seq<nat> := TopicArray(topicLogs, topic);
      var i := 0;
      depth := 0;
      while i < |log|
        invariant 0 <= i <= |log|
        invariant depth + |LogClass(entries, log[i..])| == |LogClass(entries, log)|
      {
        assert log[i..][1..] == log[i + 1..];
        if log[i] in entries && entries[log[i]].retain == Log {
          depth := depth + 1;
        }
        i := i + 1;
      }
      ArrayIsLog(entries, topicLogs, topic, counter);
    }

    /** The first log entry of a topic's array. */
    method OldestLog(topic: string) returns (oldest: Option<nat>)
      requires Valid()
      ensures oldest == (var log := LogIDs(entries, topic, counter); if log == [] then None else Some(log[0]))
    {
      var log: seq<nat> := TopicArray(topicLogs, topic);
      ArrayIsLog(entries, topicLogs, topic, counter);
      var i := 0;
      while i < |log|
        invariant 0 <= i <= |log|
        invariant LogClass(entries, log[i..]) == LogClass(entries, log)
      {
        if log[i] in entries && entries[log[i]].retain == Log {
          return Some(log[i]);
        }
        assert log[i..][1..] == log[i + 1..];
        i := i + 1;
      }
      return None;
    }

    /** Evict the oldest log entries while the log is deeper than the bound. */
    method Evict(topic: string)
      requires Valid()
      modifies this
      ensures Valid()
      ensures Entries() == RemoveEntries(old(Entries()), Overflow(old(Entries()), topic, options.maxDepth))
      ensures history == old(history)
    {
      hide OrderOk, LogsOk, QueuesOk, QueuesBut, SubscriptionsOk;
      var depth := LogDepth(topic);
      if options.maxDepth.None? { return; }
      while depth > options.maxDepth.value
        invariant Valid() && history == old(history)
        invariant depth == |LogIDs(entries, topic, counter)|
        invariant RemoveEntries(Entries(), Overflow(Entries(), topic, options.maxDepth))
               == RemoveEntries(old(Entries()), Overflow(old(Entries()), topic, options.maxDepth))
        decreases depth
      {
        var oldest := OldestLog(topic);
        OverflowPeels(Entries(), topic, options.maxDepth);
        Remove(oldest.value);
        depth := depth - 1;
      }
    }

    /** Mint the next ID, record it, move the head, and append the entry if anyone is to read it. */
    method Mint(p: PublishParams, now: int) returns (id: nat)
      requires Valid()
      modifies this
      ensures Valid() && Entries() == Appended(old(Entries()), p, now)
      ensures id == old(counter) + 1 && history == old(history)
    {
      hide OrderOk, LogsOk, QueuesOk, QueuesBut, SubscriptionsOk;
      counter := counter + 1;
      id := counter;
      if p.publishID.Some? {
        publishRecords := publishRecords[p.publishID.value := id];
      }
      if p.retain == Log {
        heads := heads[p.topic := id];
      }
      var recipients := RecipientsOf(p.topic, p.sender);
      if !(p.retain == Mailbox && recipients == {}) {
        Append(id, Entry(p.sender, p.topic, p.payload, now, p.retain, recipients));
      }
      if p.retain == Mailbox && recipients == {} {
        OrderGrows(entries, order, id);
      }
    }

    method Publish(p: PublishParams, now: int) returns (result: PublishResult)
      requires Valid()
      modifies this
      ensures Valid()
      ensures (Entries(), result) == MemoryModel.Publish(old(Entries()), p, now, options.maxDepth)
      ensures history ==
        if result.Published? && !result.deduped then old(history) + [Record(p, result.seqID)] else old(history)
    {
      hide OrderOk, LogsOk, QueuesOk, QueuesBut, SubscriptionsOk, RemoveEntries, Overflow, Record, Appended;
      // The dedup check comes before the compare-and-set: a replay's expected head is stale.
      if p.publishID.Some? && p.publishID.value in publishRecords {
        return Published(publishRecords[p.publishID.value], true);
      }
      if p.expected.Exactly? && p.expected.head != Lookup(heads, p.topic) {
        return HeadMismatch;
      }
      ghost var c := Entries();
      PublishIsAppendAndEvict(c, p, now, options.maxDepth);
      var id := Mint(p, now);
      if p.retain == Log {
        Evict(p.topic);
      }
      history := history + [Record(p, id)];
      return Published(id, false);
    }

    // ----------------------------------------------------------------------------------------
    // Subscriptions.

    /** Add or renew a subscription in both indexes. */
    method Join(did: string, topic: string, requested: int)
      requires Valid()
      modifies this`subscriptions, this`subsByDID
      ensures Valid()
      ensures subscriptions == old(subscriptions)[topic := Subscribers(old(Entries()), topic)[did := requested]]
    {
      hide OrderOk, LogsOk, QueuesOk, QueuesBut, SubscriptionsOk;
      JoinKeepsIndexes(subscriptions, subsByDID, did, topic, requested);
      var subscribers := if topic in subscriptions then subscriptions[topic] else map[];
      var held := if did in subsByDID then subsByDID[did] else {};
      subscriptions := subscriptions[topic := subscribers[did := requested]];
      subsByDID := subsByDID[did := held + {topic}];
    }

    method Subscribe(did: string, topic: string, retention: Option<int>) returns (result: SubscribeResult)
      requires Valid()
      modifies this
      ensures Valid()
      ensures (Entries(), result) == MemoryModel.Subscribe(old(Entries()), did, topic, retention, options)
      ensures history == old(history)
    {
      hide OrderOk, LogsOk, QueuesOk, QueuesBut, SubscriptionsOk, HeldTopics;
      HeldIsReverseIndex(Entries(), subsByDID, did);
      var requested := if retention.Some? then retention.value else options.defaultRetention;
      if options.maxRetention.Some? && requested > options.maxRetention.value {
        return RetentionExceeded;
      }
      var held := if did in subsByDID then subsByDID[did] else {};
      if topic !in held && |held| >= options.maxSubscriptions {
        return QuotaExceeded;
      }
      Join(did, topic, requested);
      return Subscribed;
    }

    /** Drop a subscription from both indexes, and the lists it leaves empty. */
    method Resign(did: string, topic: string)
      requires Valid()
      modifies this`subscriptions, this`subsByDID
      ensures Valid()
      ensures Entries() == Leave(old(Entries()), did, topic)
    {
      hide OrderOk, LogsOk, QueuesOk, QueuesBut, SubscriptionsOk;
      ghost var c := Entries();
      if topic in subscriptions {
        var left := subscriptions[topic] - {did};
        if left == map[] {
          subscriptions := subscriptions - {topic};
        } else {
          subscriptions := subscriptions[topic := left];
        }
      }
      if did in subsByDID {
        var own := subsByDID[did] - {topic};
        if own == {} {
          subsByDID := subsByDID - {did};
        } else {
          subsByDID := subsByDID[did := own];
        }
      }
      LeaveKeepsIndexes(c.subscriptions, old(subsByDID), did, topic);
      LeaveIsWithout(c, did, topic);
      assert Entries() == Leave(c, did, topic);
    }

    method Unsubscribe(did: string, topic: string)
      requires Valid()
      modifies this
      ensures Valid()
      ensures Entries() == MemoryModel.Unsubscribe(old(Entries()), did, topic)
      ensures history == old(history)
    {
      hide OrderOk, LogsOk, QueuesOk, QueuesBut, SubscriptionsOk;
      Resign(did, topic);
      ghost var c := Entries();
      var pending: seq<nat> := Queue(deliveries, did);
      var i := 0;
      var ids: seq<nat> := [];
      while i < |pending|
        modifies {}
        invariant 0 <= i <= |pending|
        invariant ids == OnTopic(entries, pending[..i], topic)
      {
        OnTopicGrows(entries, pending, topic, i);
        if pending[i] in entries && entries[pending[i]].topic == topic {
          ids := ids + [pending[i]];
        }
        i := i + 1;
      }
      assert pending[..|pending|] == pending;
      OrderBounds(entries, order, counter);
      PendingOnIsSelected(c, deliveries, did, topic);
      LeavePendingOn(old(Entries()), did, topic);
      DropAll(did, ids);
    }

    /** Each operation does what one step of a run does. */
    method Apply(op: Op)
      requires Valid()
      modifies this
      ensures Valid()
      ensures Snapshot() == Step(old(Snapshot()), op, options)
    {
      hide OrderOk, LogsOk, QueuesOk, QueuesBut, SubscriptionsOk;
      hide MemoryModel.Publish, MemoryModel.Trim, MemoryModel.Purge, MemoryModel.Subscribe, MemoryModel.Unsubscribe;
      match op {
        case DoPublish(p, now) => var _ := Publish(p, now);
        case DoTrim(topic, before) => Trim(topic, before);
        case DoAck(recipient, ids) => Ack(recipient, ids);
        case DoPurge(now, olderThan) => var _ := Purge(now, olderThan);
        case DoSubscribe(did, topic, retention) => var _ := Subscribe(did, topic, retention);
        case DoUnsubscribe(did, topic) => Unsubscribe(did, topic);
      }
    }

    // ----------------------------------------------------------------------------------------
    // Reads.

    /** Serve a recipient's pending deliveries after a cursor, having dropped those it acknowledges. */
    method Fetch(recipient: string, after: Option<nat>, limit: Option<nat>, ack: seq<nat>)
      returns (messages: seq<StoredMessage>, cursor: Option<nat>, hasMore: bool)
      requires Valid()
      modifies this
      ensures Valid()
      ensures Entries() == DropDeliveries(old(Entries()), recipient, ack)
      ensures history == old(history)
      ensures var available := Above(Pending(Entries(), recipient), after);
              && (forall x :: x in available ==> x in entries)
              && messages == Messages(entries, Take(available, limit))
              && cursor == Last(Take(available, limit))
              && hasMore == (|Take(available, limit)| < |available|)
    {
      hide OrderOk, LogsOk, QueuesOk, QueuesBut, SubscriptionsOk;
      Ack(recipient, ack);
      var pending: seq<nat> := Queue(deliveries, recipient);
      QueueIsLive(Entries(), order, deliveries, recipient);
      var start := 0;
      while start < |pending| && !After(pending[start], after)
        invariant 0 <= start <= |pending|
        invariant forall k :: 0 <= k < start ==> !After(pending[k], after)
      {
        start := start + 1;
      }
      ScanStopsAtRank(pending, after, start);
      var available := pending[start..];
      var selected := Take(available, limit);
      hasMore := |selected| < |available|;
      cursor := Last(selected);
      assert forall x :: x in available ==> x in pending && x in entries;
      assert forall x :: x in selected ==> x in available;
      messages := Messages(entries, selected);
    }

    /** Read a topic's log: refused to a caller that is not a subscriber. */
    method FetchTopic(did: string, topic: string, after: Option<nat>, limit: Option<nat>)
      returns (page: Option<TopicPage>)
      requires Valid()
      ensures page.None? <==> did !in Subscribers(Entries(), topic)
      ensures page.Some? ==>
                var served := ServePage(Entries(), topic, after, limit);
                && (forall x :: x in served.messages ==> x in entries)
                && page.value.messages == Messages(entries, served.messages)
                && page.value.gap == served.gap
                && page.value.head == Lookup(heads, topic)
                && page.value.oldest ==
                   (var log := LogIDs(entries, topic, counter); if log == [] then None else Some(log[0]))
    {
      hide QueuesOk, QueuesBut, SubscriptionsOk, LogIDs, LogClass, Above, Messages;
      if !(topic in subscriptions && did in subscriptions[topic]) {
        return None;
      }
      var log := LogClass(entries, TopicArray(topicLogs, topic));
      ArrayIsLog(entries, topicLogs, topic, counter);
      LogIDsMembers(entries, topic, counter);
      AboveMembers(log, after);
      var selected := Above(log, after);
      var limited := Take(selected, limit);
      assert forall x :: x in limited ==> x in selected;
      return Some(TopicPage(
        Messages(entries, limited),
        Lookup(heads, topic),
        if log == [] then None else Some(log[0]),
        topic in removedThrough && (after.None? || removedThrough[topic] > after.value)));
    }
  }

  /** Whatever operations a store serves from the start, its indexes agree and its invariant holds. */
  method Serve(options: Options, ops: seq<Op>) returns (store: Store)
    ensures fresh(store) && store.Valid()
    ensures store.Snapshot() == Run(INITIAL, ops, options) && Inv(store.Snapshot(), options)
  {
    hide Step, Inv, OrderOk, LogsOk, QueuesOk, QueuesBut, SubscriptionsOk;
    store := new Store(options);
    var i := 0;
    while i < |ops|
      invariant 0 <= i <= |ops| && fresh(store) && store.Valid() && store.options == options
      invariant Run(store.Snapshot(), ops[i..], options) == Run(INITIAL, ops, options)
    {
      assert ops[i..][1..] == ops[i + 1..];
      store.Apply(ops[i]);
      i := i + 1;
    }
    InitialOk(options);
    RunKeeps(INITIAL, ops, options);
  }

  // ------------------------------------------------------------------------------------------
  // What the scans of the methods collect.

  function BelowBound(ids: seq<nat>, before: nat): seq<nat> {
    if ids == [] then []
    else if ids[|ids| - 1] < before then BelowBound(ids[..|ids| - 1], before) + [ids[|ids| - 1]]
    else BelowBound(ids[..|ids| - 1], before)
  }

  lemma {:induction false} LogClassAppend(entries: map<nat, Entry>, ids: seq<nat>, x: nat)
    ensures LogClass(entries, ids + [x]) ==
            LogClass(entries, ids) + (if x in entries && entries[x].retain == Log then [x] else [])
  {
    if ids != [] {
      LogClassAppend(entries, ids[1..], x);
      assert (ids + [x])[1..] == ids[1..] + [x];
    }
  }

  lemma BelowBoundGrows(entries: map<nat, Entry>, log: seq<nat>, before: nat, i: nat)
    requires i < |log|
    ensures LogClass(entries, BelowBound(log[..i + 1], before)) ==
            LogClass(entries, BelowBound(log[..i], before)) +
            (if log[i] < before && log[i] in entries && entries[log[i]].retain == Log then [log[i]] else [])
  {
    assert log[..i + 1][..i] == log[..i];
    LogClassAppend(entries, BelowBound(log[..i], before), log[i]);
  }

  lemma {:induction false} BelowBoundMembers(ids: seq<nat>, before: nat)
    requires Increasing(ids)
    ensures Increasing(BelowBound(ids, before))
    ensures forall x :: x in BelowBound(ids, before) <==> x in ids && x < before
  {
    if ids != [] {
      var front, last := ids[..|ids| - 1], ids[|ids| - 1];
      BelowBoundMembers(front, before);
      assert ids == front + [last];
      assert forall y :: y in front ==> y < last;
      AppendMembers(BelowBound(front, before), last);
    }
  }

  lemma TrimmedIsSelected(c: Core, logs: map<string, seq<nat>>, topic: string, before: nat)
    requires LogsOk(c.entries, logs) && forall x :: x in c.entries ==> 1 <= x <= c.counter
    ensures LogClass(c.entries, BelowBound(TopicArray(logs, topic), before)) == Trimmed(c, topic, before)
  {
    var log := TopicArray(logs, topic);
    BelowBoundMembers(log, before);
    LogClassMembers(c.entries, BelowBound(log, before));
    var gone := set id | id in c.entries && IsLog(c.entries[id], topic) && id < before;
    AscendingMembers(gone, c.counter);
    IncreasingUnique(LogClass(c.entries, BelowBound(log, before)), Trimmed(c, topic, before));
  }

  function OnTopic(entries: map<nat, Entry>, ids: seq<nat>, topic: string): seq<nat> {
    if ids == [] then []
    else
      var last := ids[|ids| - 1];
      OnTopic(entries, ids[..|ids| - 1], topic) +
      (if last in entries && entries[last].topic == topic then [last] else [])
  }

  lemma OnTopicGrows(entries: map<nat, Entry>, ids: seq<nat>, topic: string, i: nat)
    requires i < |ids|
    ensures OnTopic(entries, ids[..i + 1], topic) ==
            OnTopic(entries, ids[..i], topic) +
            (if ids[i] in entries && entries[ids[i]].topic == topic then [ids[i]] else [])
  {
    assert ids[..i + 1][..i] == ids[..i];
  }

  lemma {:induction false} OnTopicMembers(entries: map<nat, Entry>, ids: seq<nat>, topic: string)
    requires Increasing(ids)
    ensures Increasing(OnTopic(entries, ids, topic))
    ensures forall x :: x in OnTopic(entries, ids, topic) <==> x in ids && x in entries && entries[x].topic == topic
  {
    if ids != [] {
      var front, last := ids[..|ids| - 1], ids[|ids| - 1];
      OnTopicMembers(entries, front, topic);
      assert ids == front + [last];
      assert forall y :: y in front ==> y < last;
      AppendMembers(OnTopic(entries, front, topic), last);
    }
  }

  lemma LeavePendingOn(c: Core, did: string, topic: string)
    ensures PendingOn(Leave(c, did, topic), did, topic) == PendingOn(c, did, topic)
  {
    var left := Leave(c, did, topic);
    assert left.entries == c.entries && left.counter == c.counter;
  }

  lemma NothingScanned(c: Core, order: seq<nat>, now: int, olderThan: int, dflt: int)
    ensures Scanned(c, order[..0], {}, [], now, olderThan, dflt)
  {
  }

  /** Comparing against the longest retention asked for is comparing against each of them. */
  lemma DueIsPastRetention(c: Core, e: Entry, now: int, olderThan: int, dflt: int, retention: int)
    requires retention >= olderThan && retention >= dflt
    requires forall did :: did in Subscribers(c, e.topic) ==> Subscribers(c, e.topic)[did] <= retention
    requires retention == olderThan || retention == dflt
          || exists did :: did in Subscribers(c, e.topic) && Subscribers(c, e.topic)[did] == retention
    ensures e.storedAt <= now - retention * 1000 <==> Due(c, e, now, olderThan, dflt)
  {
  }

  lemma PendingOnIsSelected(c: Core, queues: map<string, seq<nat>>, did: string, topic: string)
    requires QueuesOk(c.entries, queues) && forall x :: x in c.entries ==> 1 <= x <= c.counter
    ensures OnTopic(c.entries, Queue(queues, did), topic) == PendingOn(c, did, topic)
  {
    OnTopicMembers(c.entries, Queue(queues, did), topic);
    var pending := set id | id in c.entries && did in c.entries[id].pendingFor && c.entries[id].topic == topic;
    AscendingMembers(pending, c.counter);
    IncreasingUnique(OnTopic(c.entries, Queue(queues, did), topic), PendingOn(c, did, topic));
  }

  /** Evicting the oldest entry of an overfull log leaves one fewer to evict, and those the same. */
  lemma OverflowPeels(c: Core, topic: string, maxDepth: Option<nat>)
    requires maxDepth.Some? && |LogIDs(c.entries, topic, c.counter)| > maxDepth.value
    ensures var log := LogIDs(c.entries, topic, c.counter);
            var r := RemoveEntry(c, log[0]);
            && LogIDs(r.entries, topic, r.counter) == log[1..]
            && RemoveEntries(c, Overflow(c, topic, maxDepth)) == RemoveEntries(r, Overflow(r, topic, maxDepth))
  {
    hide LogIDs, RemoveEntry, RemoveEntries;
    var log := LogIDs(c.entries, topic, c.counter);
    var n, r := |log| - maxDepth.value, RemoveEntry(c, log[0]);
    RemovesFirst(c, log[..1]);
    RemovesNone(r);
    assert log[..1][1..] == [];
    RemovingTheOldest(c, topic, 1);
    RemoveEntriesExactly(c, log[..1]);
    assert log[..n][1..] == log[1..][..n - 1];
    RemovesFirst(c, log[..n]);
  }

  lemma RemovesNone(c: Core)
    ensures RemoveEntries(c, []) == c
  {
  }

  lemma RemovesFirst(c: Core, ids: seq<nat>)
    requires ids != []
    ensures RemoveEntries(c, ids) == RemoveEntries(RemoveEntry(c, ids[0]), ids[1..])
  {
  }
}
