/**
  The indexes the in-memory store keeps beside its entries, and what it takes to maintain them:
  the insertion order of the entry map, each topic's array, each recipient's queue, and the
  reverse subscription index.
 */
module MemoryIndexes {
  import opened Wrappers
  import opened LogReader
  import opened PublishHistory
  import opened MemoryModel
  import opened MemoryInvariant

  // ------------------------------------------------------------------------------------------
  // What each index holds.

  /** Insertion order is position order. */
  ghost predicate OrderOk(entries: map<nat, Entry>, order: seq<nat>, counter: nat) {
    && Increasing(order)
    && (forall x :: x in order <==> x in entries)
    && (forall x :: x in entries ==> 1 <= x <= counter)
  }

  /** A topic's array is exactly its live IDs in increasing order; a topic without any has none. */
  ghost predicate LogsOk(entries: map<nat, Entry>, logs: map<string, seq<nat>>) {
    && (forall topic :: topic in logs ==>
          && logs[topic] != [] && Increasing(logs[topic])
          && forall x :: x in logs[topic] ==> x in entries && entries[x].topic == topic)
    && (forall x :: x in entries ==> entries[x].topic in logs && x in logs[entries[x].topic])
  }

  /** An ID is in a recipient's queue exactly when the live entry lists that recipient as pending. */
  ghost predicate QueuesOk(entries: map<nat, Entry>, queues: map<string, seq<nat>>) {
    QueuesBut(entries, queues, None, {})
  }

  /** The same, except that one entry is still queued only for some of its recipients. */
  ghost predicate QueuesBut(entries: map<nat, Entry>, queues: map<string, seq<nat>>, but: Option<nat>,
      todo: set<string>) {
    && (forall did :: did in queues ==> Increasing(queues[did]))
    && QueuedIsPending(entries, queues, but, todo)
    && PendingIsQueued(entries, queues, but, todo)
  }

  ghost predicate QueuedIsPending(entries: map<nat, Entry>, queues: map<string, seq<nat>>, but: Option<nat>,
      todo: set<string>) {
    forall did, x :: did in queues && x in queues[did] ==>
      x in entries && did in entries[x].pendingFor && (Some(x) == but ==> did in todo)
  }

  ghost predicate PendingIsQueued(entries: map<nat, Entry>, queues: map<string, seq<nat>>, but: Option<nat>,
      todo: set<string>) {
    forall did, x :: x in entries && did in entries[x].pendingFor && (Some(x) == but ==> did in todo) ==>
      did in queues && x in queues[did]
  }

  /** The two subscription indexes mirror each other, without empty lists. */
  ghost predicate SubscriptionsOk(subscriptions: map<string, map<string, int>>, byDID: map<string, set<string>>) {
    && (forall topic, did :: topic in subscriptions && did in subscriptions[topic] ==>
          did in byDID && topic in byDID[did])
    && (forall topic, did :: did in byDID && topic in byDID[did] ==>
          topic in subscriptions && did in subscriptions[topic])
    && (forall did :: did in byDID ==> byDID[did] != {})
    && (forall topic :: topic in subscriptions ==> subscriptions[topic] != map[])
  }

  // ------------------------------------------------------------------------------------------
  // Splicing.

  /** `list.splice(list.indexOf(x), 1)` when `x` is in the list. */
  function Without(s: seq<nat>, x: nat): seq<nat> {
    if s == [] then []
    else if s[0] == x then s[1..]
    else [s[0]] + Without(s[1..], x)
  }

  lemma {:induction false} WithoutMembers(s: seq<nat>, x: nat)
    requires Increasing(s)
    ensures Increasing(Without(s, x))
    ensures forall y :: y in Without(s, x) <==> y in s && y != x
  {
    if s != [] {
      WithoutMembers(s[1..], x);
      assert s == [s[0]] + s[1..];
      assert forall y :: y in s[1..] ==> s[0] < y;
      if s[0] != x {
        var rest := Without(s[1..], x);
        forall k | 0 <= k < |rest| ensures s[0] < rest[k] {
          assert rest[k] in rest;
        }
      }
    }
  }

  lemma AppendMembers(s: seq<nat>, x: nat)
    requires Increasing(s) && forall y :: y in s ==> y < x
    ensures Increasing(s + [x])
    ensures forall y :: y in s + [x] <==> y in s || y == x
  {
    forall k | 0 <= k < |s| ensures s[k] < x {
      assert s[k] in s;
    }
  }

  lemma OrderBounds(entries: map<nat, Entry>, order: seq<nat>, counter: nat)
    requires OrderOk(entries, order, counter)
    ensures forall x :: x in entries ==> 1 <= x <= counter
  {
  }

  lemma RemoveFromOrder(entries: map<nat, Entry>, order: seq<nat>, counter: nat, id: nat)
    requires OrderOk(entries, order, counter)
    ensures OrderOk(entries - {id}, Without(order, id), counter)
  {
    WithoutMembers(order, id);
  }

  function SpliceLog(logs: map<string, seq<nat>>, topic: string, id: nat): map<string, seq<nat>> {
    if topic !in logs then logs
    else if Without(logs[topic], id) == [] then logs - {topic}
    else logs[topic := Without(logs[topic], id)]
  }

  lemma RemoveFromLog(entries: map<nat, Entry>, logs: map<string, seq<nat>>, id: nat)
    requires LogsOk(entries, logs) && id in entries
    ensures entries[id].topic in logs
    ensures LogsOk(entries - {id}, SpliceLog(logs, entries[id].topic, id))
  {
    WithoutMembers(logs[entries[id].topic], id);
  }

  /** A queued entry is still queued for all of its recipients. */
  lemma StartUnqueue(entries: map<nat, Entry>, queues: map<string, seq<nat>>, id: nat)
    requires QueuesOk(entries, queues) && id in entries
    ensures QueuesBut(entries, queues, Some(id), entries[id].pendingFor)
  {
  }

  lemma SpliceQueue(entries: map<nat, Entry>, queues: map<string, seq<nat>>, id: nat, todo: set<string>, did: string)
    requires id in entries && QueuesBut(entries, queues, Some(id), todo)
    requires did in todo && todo <= entries[id].pendingFor
    ensures did in queues
    ensures QueuesBut(entries, queues[did := Without(queues[did], id)], Some(id), todo - {did})
  {
    hide Increasing, Without;
    WithoutMembers(queues[did], id);
    var spliced := queues[did := Without(queues[did], id)];
    assert QueuedIsPending(entries, spliced, Some(id), todo - {did}) by {
      hide PendingIsQueued;
    }
    assert PendingIsQueued(entries, spliced, Some(id), todo - {did}) by {
      hide QueuedIsPending;
    }
  }

  lemma RemoveFromQueues(entries: map<nat, Entry>, queues: map<string, seq<nat>>, id: nat)
    requires QueuesBut(entries, queues, Some(id), {})
    ensures QueuesOk(entries - {id}, queues)
  {
  }

  /** A queue with one ID taken out, if the recipient has one. */
  function Unqueued(queues: map<string, seq<nat>>, did: string, id: nat): map<string, seq<nat>> {
    if did in queues then queues[did := Without(queues[did], id)] else queues
  }

  lemma UnqueuedMembers(queues: map<string, seq<nat>>, did: string, id: nat)
    requires did in queues ==> Increasing(queues[did])
    ensures Unqueued(queues, did, id).Keys == queues.Keys
    ensures forall d :: d in queues && d != did ==> Unqueued(queues, did, id)[d] == queues[d]
    ensures did in queues ==>
              && Increasing(Unqueued(queues, did, id)[did])
              && forall x :: x in Unqueued(queues, did, id)[did] <==> x in queues[did] && x != id
  {
    if did in queues { WithoutMembers(queues[did], id); }
  }

  /** Dropping one recipient's delivery of a live entry, in the queue and in the entry. */
  lemma DropFromQueue(entries: map<nat, Entry>, queues: map<string, seq<nat>>, id: nat, did: string)
    requires QueuesOk(entries, queues) && id in entries
    ensures QueuesOk(entries[id := entries[id].(pendingFor := entries[id].pendingFor - {did})],
                     Unqueued(queues, did, id))
  {
    hide Increasing, Without, Unqueued;
    UnqueuedMembers(queues, did, id);
  }

  /** An entry that is gone is in no queue. */
  lemma GoneIsUnqueued(entries: map<nat, Entry>, queues: map<string, seq<nat>>, id: nat, did: string)
    requires QueuesOk(entries, queues) && id !in entries
    ensures Unqueued(queues, did, id) == queues
  {
    if did in queues {
      WithoutAbsent(queues[did], id);
      assert queues[did := queues[did]] == queues;
    }
  }

  lemma {:induction false} WithoutAbsent(s: seq<nat>, x: nat)
    requires x !in s
    ensures Without(s, x) == s
  {
    if s != [] {
      assert s == [s[0]] + s[1..];
      WithoutAbsent(s[1..], x);
    }
  }

  lemma SameTopicsSameLogs(entries: map<nat, Entry>, other: map<nat, Entry>, logs: map<string, seq<nat>>)
    requires LogsOk(entries, logs) && entries.Keys == other.Keys
    requires forall x :: x in entries ==> entries[x].topic == other[x].topic
    ensures LogsOk(other, logs)
  {
  }

  // ------------------------------------------------------------------------------------------
  // Appending.

  function PushLog(logs: map<string, seq<nat>>, topic: string, id: nat): map<string, seq<nat>> {
    logs[topic := (if topic in logs then logs[topic] else []) + [id]]
  }

  lemma AppendToLog(entries: map<nat, Entry>, logs: map<string, seq<nat>>, id: nat, e: Entry)
    requires LogsOk(entries, logs) && forall x :: x in entries ==> x < id
    ensures LogsOk(entries[id := e], PushLog(logs, e.topic, id))
  {
    var log := if e.topic in logs then logs[e.topic] else [];
    AppendMembers(log, id);
  }

  lemma AppendToOrder(entries: map<nat, Entry>, order: seq<nat>, id: nat, e: Entry)
    requires id >= 1 && OrderOk(entries, order, id - 1)
    ensures OrderOk(entries[id := e], order + [id], id)
  {
    AppendMembers(order, id);
  }

  lemma OrderSameKeys(entries: map<nat, Entry>, other: map<nat, Entry>, order: seq<nat>, counter: nat)
    requires OrderOk(entries, order, counter) && entries.Keys == other.Keys
    ensures OrderOk(other, order, counter)
  {
  }

  lemma OrderGrows(entries: map<nat, Entry>, order: seq<nat>, id: nat)
    requires id >= 1 && OrderOk(entries, order, id - 1)
    ensures OrderOk(entries, order, id)
  {
  }

  function PushQueue(queues: map<string, seq<nat>>, did: string, id: nat): map<string, seq<nat>> {
    queues[did := (if did in queues then queues[did] else []) + [id]]
  }

  /** An appended entry, queued so far for those of its recipients in `done`. */
  lemma AppendToQueue(entries: map<nat, Entry>, queues: map<string, seq<nat>>, id: nat, done: set<string>, did: string)
    requires id in entries && (forall x :: x in entries ==> x <= id)
    requires QueuesBut(entries, queues, Some(id), done)
    requires did in entries[id].pendingFor && did !in done
    ensures QueuesBut(entries, PushQueue(queues, did, id), Some(id), done + {did})
  {
    var queue := if did in queues then queues[did] else [];
    forall x | x in queue ensures x < id {
      assert did in queues && x in queues[did];
      assert x in entries && (Some(x) == Some(id) ==> did in done);
    }
    AppendMembers(queue, id);
  }

  lemma NewEntryQueues(entries: map<nat, Entry>, queues: map<string, seq<nat>>, id: nat, e: Entry)
    requires QueuesOk(entries, queues) && id !in entries
    ensures QueuesBut(entries[id := e], queues, Some(id), {})
  {
  }

  lemma AllQueued(entries: map<nat, Entry>, queues: map<string, seq<nat>>, id: nat)
    requires id in entries && QueuesBut(entries, queues, Some(id), entries[id].pendingFor)
    ensures QueuesOk(entries, queues)
  {
  }

  // ------------------------------------------------------------------------------------------
  // Reading the indexes is reading the entries.

  /** The log-class IDs of a topic array. */
  function LogClass(entries: map<nat, Entry>, ids: seq<nat>): seq<nat> {
    if ids == [] then []
    else if ids[0] in entries && entries[ids[0]].retain == Log then [ids[0]] + LogClass(entries, ids[1..])
    else LogClass(entries, ids[1..])
  }

  lemma {:induction false} LogClassMembers(entries: map<nat, Entry>, ids: seq<nat>)
    requires Increasing(ids)
    ensures Increasing(LogClass(entries, ids))
    ensures forall x :: x in LogClass(entries, ids) <==> x in ids && x in entries && entries[x].retain == Log
  {
    if ids != [] {
      LogClassMembers(entries, ids[1..]);
      assert ids == [ids[0]] + ids[1..];
      var rest := LogClass(entries, ids[1..]);
      forall k | 0 <= k < |rest| ensures ids[0] < rest[k] {
        assert rest[k] in rest;
      }
    }
  }

  function TopicArray(logs: map<string, seq<nat>>, topic: string): seq<nat> {
    if topic in logs then logs[topic] else []
  }

  lemma ArrayIsLog(entries: map<nat, Entry>, logs: map<string, seq<nat>>, topic: string, counter: nat)
    requires LogsOk(entries, logs) && forall x :: x in entries ==> 1 <= x <= counter
    ensures LogClass(entries, TopicArray(logs, topic)) == LogIDs(entries, topic, counter)
  {
    LogClassMembers(entries, TopicArray(logs, topic));
    LogIDsMembers(entries, topic, counter);
    IncreasingUnique(LogClass(entries, TopicArray(logs, topic)), LogIDs(entries, topic, counter));
  }

  function Queue(queues: map<string, seq<nat>>, did: string): seq<nat> {
    if did in queues then queues[did] else []
  }

  lemma NoQueueIncreases()
    ensures Increasing([])
  {
  }

  lemma QueueIsPending(c: Core, queues: map<string, seq<nat>>, did: string)
    requires QueuesOk(c.entries, queues) && forall x :: x in c.entries ==> 1 <= x <= c.counter
    ensures Queue(queues, did) == Pending(c, did)
  {
    hide Increasing, Ascending;
    var pending := set id | id in c.entries && did in c.entries[id].pendingFor;
    AscendingMembers(pending, c.counter);
    assert Increasing(Queue(queues, did)) by { NoQueueIncreases(); }
    forall x ensures x in Queue(queues, did) <==> x in Pending(c, did) {
      assert x in Queue(queues, did) <==> x in pending;
    }
    IncreasingUnique(Queue(queues, did), Pending(c, did));
  }

  lemma HeldIsReverseIndex(c: Core, byDID: map<string, set<string>>, did: string)
    requires SubscriptionsOk(c.subscriptions, byDID)
    ensures HeldTopics(c, did) == if did in byDID then byDID[did] else {}
  {
  }

  /** A recipient's queue, read as the entries say; all of it is live. */
  lemma QueueIsLive(c: Core, order: seq<nat>, queues: map<string, seq<nat>>, did: string)
    requires OrderOk(c.entries, order, c.counter) && QueuesOk(c.entries, queues)
    ensures Queue(queues, did) == Pending(c, did)
    ensures Increasing(Queue(queues, did)) && forall x :: x in Queue(queues, did) ==> x in c.entries
  {
    QueueIsPending(c, queues, did);
  }

  /** Joining a topic keeps the two subscription indexes each other's mirror. */
  lemma JoinKeepsIndexes(
      subscriptions: map<string, map<string, int>>, byDID: map<string, set<string>>, did: string, topic: string,
      requested: int)
    requires SubscriptionsOk(subscriptions, byDID)
    ensures var joined := (if topic in subscriptions then subscriptions[topic] else map[])[did := requested];
            var held := (if did in byDID then byDID[did] else {}) + {topic};
            SubscriptionsOk(subscriptions[topic := joined], byDID[did := held])
  {
    var joined := (if topic in subscriptions then subscriptions[topic] else map[])[did := requested];
    assert did in joined;
  }

  /** Leaving a topic keeps the two subscription indexes each other's mirror. */
  lemma LeaveKeepsIndexes(subscriptions: map<string, map<string, int>>, byDID: map<string, set<string>>,
      did: string, topic: string)
    requires SubscriptionsOk(subscriptions, byDID)
    ensures SubscriptionsOk(WithoutSubscriber(subscriptions, topic, did), WithoutTopic(byDID, did, topic))
  {
    var joined, held := WithoutSubscriber(subscriptions, topic, did), WithoutTopic(byDID, did, topic);
    LeftSubscribers(subscriptions, topic, did);
    LeftTopics(byDID, did, topic);
    hide WithoutSubscriber, WithoutTopic;
    forall t, d | t in joined && d in joined[t] ensures d in held && t in held[d] {
      assert t in byDID[d];
    }
    forall t, d | d in held && t in held[d] ensures t in joined && d in joined[t] {
      assert d in subscriptions[t];
    }
  }

  lemma LeftSubscribers(subscriptions: map<string, map<string, int>>, topic: string, did: string)
    ensures var left := WithoutSubscriber(subscriptions, topic, did);
            && (forall t, d :: (t in left && d in left[t]) <==>
                  t in subscriptions && d in subscriptions[t] && !(t == topic && d == did))
            && ((forall t :: t in subscriptions ==> subscriptions[t] != map[]) ==>
                  forall t :: t in left ==> left[t] != map[])
  {
    if topic in subscriptions {
      var rest := subscriptions[topic] - {did};
      assert forall d :: d in rest <==> d in subscriptions[topic] && d != did;
    }
  }

  lemma LeftTopics(byDID: map<string, set<string>>, did: string, topic: string)
    ensures var left := WithoutTopic(byDID, did, topic);
            && (forall t, d ::
                  (d in left && t in left[d]) <==> d in byDID && t in byDID[d] && !(t == topic && d == did))
            && ((forall d :: d in byDID ==> byDID[d] != {}) ==> forall d :: d in left ==> left[d] != {})
  {
    if did in byDID {
      var rest := byDID[did] - {topic};
      assert forall t :: t in rest <==> t in byDID[did] && t != topic;
    }
  }

  /** Drop a subscriber from a topic's list, and the list when it was the last. */
  function WithoutSubscriber(subscriptions: map<string, map<string, int>>, topic: string,
      did: string): map<string, map<string, int>> {
    if topic !in subscriptions then subscriptions
    else if subscriptions[topic] - {did} == map[] then subscriptions - {topic}
    else subscriptions[topic := subscriptions[topic] - {did}]
  }

  function WithoutTopic(byDID: map<string, set<string>>, did: string, topic: string): map<string, set<string>> {
    if did !in byDID then byDID
    else if byDID[did] - {topic} == {} then byDID - {did}
    else byDID[did := byDID[did] - {topic}]
  }

  lemma LeaveIsWithout(c: Core, did: string, topic: string)
    ensures Leave(c, did, topic).subscriptions == WithoutSubscriber(c.subscriptions, topic, did)
  {
  }

  // ------------------------------------------------------------------------------------------
  // The purge scan: entries in insertion order, skipping the rest of a log once one is kept.

  /** Among the entries scanned, a log entry of the topic is kept. */
  ghost predicate KeepsLog(c: Core, done: seq<nat>, topic: string, now: int, olderThan: int, dflt: int)
    requires forall x :: x in done ==> x in c.entries
  {
    exists x | x in done :: IsLog(c.entries[x], topic) && !Due(c, c.entries[x], now, olderThan, dflt)
  }

  ghost predicate Scanned(
      c: Core, done: seq<nat>, retained: set<string>, purged: seq<nat>, now: int, olderThan: int, dflt: int) {
    && (forall x :: x in done ==> x in c.entries)
    && Increasing(purged)
    && (forall x :: x in purged ==> x in done)
    && (forall x :: x in done ==> (x in purged <==> Purgeable(c, x, now, olderThan, dflt)))
    && (forall topic :: topic in retained <==> KeepsLog(c, done, topic, now, olderThan, dflt))
  }

  /** The entry reached goes exactly if it is due and no log entry of its topic below it is kept. */
  lemma ScanDecides(c: Core, order: seq<nat>, i: nat, retained: set<string>, purged: seq<nat>, now: int,
      olderThan: int, dflt: int)
    requires OrderOk(c.entries, order, c.counter) && i < |order|
    requires Scanned(c, order[..i], retained, purged, now, olderThan, dflt)
    ensures var e := c.entries[order[i]];
            Purgeable(c, order[i], now, olderThan, dflt) <==>
            Due(c, e, now, olderThan, dflt) && !(e.retain == Log && e.topic in retained)
  {
    var id, e := order[i], c.entries[order[i]];
    forall x | x in c.entries && x < id ensures x in order[..i] {
      var k :| 0 <= k < |order| && order[k] == x;
      assert order[..i][k] == x;
    }
    forall x | x in order[..i] ensures x < id {
    }
    if e.retain == Log && e.topic in retained {
      assert KeepsLog(c, order[..i], e.topic, now, olderThan, dflt);
    } else if e.retain == Log {
      assert !KeepsLog(c, order[..i], e.topic, now, olderThan, dflt);
    }
  }

  lemma ScanStep(
      c: Core, order: seq<nat>, i: nat, retained: set<string>, purged: seq<nat>, now: int, olderThan: int, dflt: int)
    requires OrderOk(c.entries, order, c.counter) && i < |order|
    requires Scanned(c, order[..i], retained, purged, now, olderThan, dflt)
    ensures order[i] in c.entries
    ensures var e := c.entries[order[i]];
            var due := Due(c, e, now, olderThan, dflt);
            var skipped := e.retain == Log && e.topic in retained;
            Scanned(c, order[..i + 1],
                    if !skipped && e.retain == Log && !due then retained + {e.topic} else retained,
                    if !skipped && due then purged + [order[i]] else purged,
                    now, olderThan, dflt)
  {
    hide Due, KeepsLog;
    var id, e, done := order[i], c.entries[order[i]], order[..i + 1];
    assert done == order[..i] + [id];
    ScanDecides(c, order, i, retained, purged, now, olderThan, dflt);
    forall x | x in purged ensures x < id {
      var k :| 0 <= k < i && order[..i][k] == x;
    }
    AppendMembers(purged, id);
    forall topic
      ensures KeepsLog(c, done, topic, now, olderThan, dflt) <==>
              topic in retained || (IsLog(e, topic) && !Due(c, e, now, olderThan, dflt))
    {
      KeepsLogGrows(c, order[..i], id, topic, now, olderThan, dflt);
      assert topic in retained <==> KeepsLog(c, order[..i], topic, now, olderThan, dflt);
    }
  }

  lemma KeepsLogGrows(c: Core, done: seq<nat>, id: nat, topic: string, now: int, olderThan: int, dflt: int)
    requires id in c.entries && forall x :: x in done ==> x in c.entries
    ensures KeepsLog(c, done + [id], topic, now, olderThan, dflt) <==>
            KeepsLog(c, done, topic, now, olderThan, dflt) ||
            (IsLog(c.entries[id], topic) && !Due(c, c.entries[id], now, olderThan, dflt))
  {
    assert forall x :: x in done ==> x in done + [id];
    assert id in done + [id];
  }

  lemma ScanIsPurged(c: Core, order: seq<nat>, retained: set<string>, purged: seq<nat>, now: int,
      olderThan: int, dflt: int)
    requires OrderOk(c.entries, order, c.counter)
    requires Scanned(c, order, retained, purged, now, olderThan, dflt)
    ensures purged == Purged(c, now, olderThan, dflt)
  {
    var gone := set id | id in c.entries && Purgeable(c, id, now, olderThan, dflt);
    AscendingMembers(gone, c.counter);
    IncreasingUnique(purged, Purged(c, now, olderThan, dflt));
  }
}
