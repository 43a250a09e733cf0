/**
  What every operation of the in-memory store keeps, and what a run of operations therefore
  guarantees its readers and writers.
 */
module MemoryInvariant {
  import opened Wrappers
  import opened LogReader
  import opened PublishHistory
  import opened MemoryModel

  ghost predicate Counted(c: Core, history: seq<Accept<string>>) {
    && (forall i :: 0 <= i < |history| ==> 1 <= history[i].seqID <= c.counter)
    && (forall i, j :: 0 <= i < j < |history| ==> history[i].seqID < history[j].seqID)
    && (forall id :: id in c.entries ==> 1 <= id <= c.counter)
  }

  /** A live log entry was accepted, and lies above its topic's removal watermark. */
  ghost predicate EntriesAccepted(c: Core, history: seq<Accept<string>>) {
    forall id :: id in c.entries && c.entries[id].retain == Log ==>
      var topic := c.entries[id].topic;
      id in Accepted(history, topic) && After(id, Lookup(c.removedThrough, topic))
  }

  /** An accepted log frame above its topic's removal watermark is live. */
  ghost predicate AcceptedLive(c: Core, history: seq<Accept<string>>) {
    forall id, topic {:trigger id in Accepted(history, topic)} ::
      id in Accepted(history, topic) && After(id, Lookup(c.removedThrough, topic)) ==>
        id in c.entries && IsLog(c.entries[id], topic)
  }

  /** The stored head is the last log publish; the watermark names a log frame once accepted. */
  ghost predicate Heads(c: Core, history: seq<Accept<string>>) {
    forall topic {:trigger Accepted(history, topic)} {:trigger topic in c.heads} ::
      && Last(Accepted(history, topic)) == Lookup(c.heads, topic)
      && (topic in c.removedThrough ==> c.removedThrough[topic] in Accepted(history, topic))
  }

  /** Every live mailbox entry still has someone to read it. */
  ghost predicate MailIsPending(c: Core) {
    forall id :: id in c.entries && c.entries[id].retain == Mailbox ==> c.entries[id].pendingFor != {}
  }

  /** No topic's log is deeper than the bound. */
  ghost predicate DepthBound(c: Core, maxDepth: Option<nat>) {
    maxDepth.Some? ==> forall topic :: |LogIDs(c.entries, topic, c.counter)| <= maxDepth.value
  }

  /** No subscriber holds more topics than the quota, and no topic is listed without a subscriber. */
  ghost predicate QuotaBound(c: Core, maxSubscriptions: nat) {
    && (forall did :: |HeldTopics(c, did)| <= maxSubscriptions)
    && (forall topic :: topic in c.subscriptions ==> c.subscriptions[topic] != map[])
  }

  ghost predicate Recorded(c: Core, history: seq<Accept<string>>) {
    && (forall key :: key in c.records ==> AcceptedAs(history, key, c.records[key]))
    && (forall i :: 0 <= i < |history| && history[i].key.Some? ==>
          history[i].key.value in c.records && c.records[history[i].key.value] == history[i].seqID)
  }

  /** What removals keep; the rest of the invariant does not look at entries or watermarks. */
  ghost predicate LogOk(s: State) {
    && Counted(s.core, s.history)
    && EntriesAccepted(s.core, s.history)
    && AcceptedLive(s.core, s.history)
    && Heads(s.core, s.history)
  }

  ghost predicate Inv(s: State, o: Options) {
    && LogOk(s)
    && MailIsPending(s.core)
    && DepthBound(s.core, o.maxDepth)
    && QuotaBound(s.core, o.maxSubscriptions)
    && Recorded(s.core, s.history)
    && Chained(s.history)
  }

  // ------------------------------------------------------------------------------------------
  // Listings.

  lemma {:induction false} LogIDsMembers(entries: map<nat, Entry>, topic: string, bound: nat)
    ensures forall x ::
              x in LogIDs(entries, topic, bound) <==> 1 <= x <= bound && x in entries && IsLog(entries[x], topic)
    ensures Increasing(LogIDs(entries, topic, bound))
  {
    if bound > 0 {
      LogIDsMembers(entries, topic, bound - 1);
      var below := LogIDs(entries, topic, bound - 1);
      assert forall k :: 0 <= k < |below| ==> below[k] in below;
    }
  }

  lemma {:induction false} AscendingMembers(ids: set<nat>, bound: nat)
    ensures forall x :: x in Ascending(ids, bound) <==> x in ids && 1 <= x <= bound
    ensures Increasing(Ascending(ids, bound))
  {
    if bound > 0 {
      AscendingMembers(ids, bound - 1);
      var below := Ascending(ids, bound - 1);
      assert forall k :: 0 <= k < |below| ==> below[k] in below;
    }
  }

  lemma AcceptedBounded(s: State, topic: string)
    requires Counted(s.core, s.history)
    ensures forall x :: x in Accepted(s.history, topic) ==> 1 <= x <= s.core.counter
  {
    AcceptedMembers(s.history, topic);
  }

  /** An increasing list contained in another is no longer than it. */
  lemma {:induction false} SublistIsShorter(a: seq<nat>, b: seq<nat>)
    requires Increasing(a) && Increasing(b)
    requires forall x :: x in a ==> x in b
    ensures |a| <= |b|
    decreases |a|
  {
    if a != [] {
      assert a[0] in b;
      var k :| 0 <= k < |b| && b[k] == a[0];
      var rest := b[k + 1..];
      forall x | x in a[1..] ensures x in rest {
        var i :| 0 <= i < |a[1..]| && a[1..][i] == x;
        assert x == a[i + 1] && x in a;
        var j :| 0 <= j < |b| && b[j] == x;
        assert j > k;
        assert rest[j - (k + 1)] == x;
      }
      SublistIsShorter(a[1..], rest);
    }
  }

  // ------------------------------------------------------------------------------------------
  // Removal is prefix-only.

  /** Every log entry of this one's topic below it is among `gone`. */
  ghost predicate WithAllBelow(c: Core, gone: set<nat>, id: nat)
    requires id in c.entries
  {
    forall x | x in c.entries && IsLog(c.entries[x], c.entries[id].topic) && x <= id :: x in gone
  }

  /** Every log entry of a topic below a removed one is removed with it. */
  ghost predicate PrefixSet(c: Core, gone: set<nat>) {
    && gone <= c.entries.Keys
    && forall id | id in gone :: c.entries[id].retain == Log ==> WithAllBelow(c, gone, id)
  }

  /** Removing in ascending order removes exactly the given entries and touches no head or record. */
  lemma {:induction false} RemoveEntriesExactly(c: Core, ids: seq<nat>)
    ensures var r := RemoveEntries(c, ids);
            && r.entries == c.entries - (set x | x in ids)
            && r == c.(entries := r.entries, removedThrough := r.removedThrough)
    decreases |ids|
  {
    if ids != [] {
      RemoveEntriesExactly(RemoveEntry(c, ids[0]), ids[1..]);
      assert (set x | x in ids) == {ids[0]} + (set x | x in ids[1..]) by {
        assert ids == [ids[0]] + ids[1..];
      }
    }
  }

  /** Removing the oldest log entry of its topic, or a mailbox entry, keeps the log in order. */
  lemma RemoveEntryKeepsLog(s: State, id: nat)
    requires LogOk(s)
    requires id in s.core.entries && s.core.entries[id].retain == Log ==>
               forall x :: x in s.core.entries && IsLog(s.core.entries[x], s.core.entries[id].topic) ==> id <= x
    ensures LogOk(s.(core := RemoveEntry(s.core, id)))
  {
    if id in s.core.entries {
      AcceptedBounded(s, s.core.entries[id].topic);
    }
  }

  /** The least of a prefix set is its topic's oldest log entry; the rest is a prefix set without it. */
  lemma PrefixSetPeels(c: Core, gone: set<nat>, id: nat)
    requires PrefixSet(c, gone) && id in gone
    requires forall x :: x in gone ==> id <= x
    ensures c.entries[id].retain == Log ==>
              forall x :: x in c.entries && IsLog(c.entries[x], c.entries[id].topic) ==> id <= x
    ensures PrefixSet(RemoveEntry(c, id), gone - {id})
  {
    var r, rest := RemoveEntry(c, id), gone - {id};
    assert forall x :: x in r.entries ==> x in c.entries && r.entries[x] == c.entries[x];
    forall y | y in rest && r.entries[y].retain == Log ensures WithAllBelow(r, rest, y) {
      assert WithAllBelow(c, gone, y);
    }
  }

  lemma {:induction false} RemoveEntriesKeepsLog(s: State, ids: seq<nat>)
    requires LogOk(s) && Increasing(ids)
    requires PrefixSet(s.core, set x | x in ids)
    ensures LogOk(s.(core := RemoveEntries(s.core, ids)))
    decreases |ids|
  {
    if ids != [] {
      var gone := set x | x in ids;
      PrefixSetPeels(s.core, gone, ids[0]);
      assert (set x | x in ids[1..]) == gone - {ids[0]} by {
        assert ids == [ids[0]] + ids[1..];
      }
      RemoveEntryKeepsLog(s, ids[0]);
      var s1 := s.(core := RemoveEntry(s.core, ids[0]));
      RemoveEntriesKeepsLog(s1, ids[1..]);
      assert s1.(core := RemoveEntries(s1.core, ids[1..])) == s.(core := RemoveEntries(s.core, ids));
    }
  }

  /** Removing entries can only make a log shallower and leaves the remaining mail pending. */
  lemma RemoveEntriesKeepsRest(s: State, ids: seq<nat>, o: Options)
    requires Inv(s, o) && Increasing(ids)
    requires PrefixSet(s.core, set x | x in ids)
    ensures Inv(s.(core := RemoveEntries(s.core, ids)), o)
  {
    RemoveEntriesKeepsLog(s, ids);
    RemoveEntriesExactly(s.core, ids);
    var r := RemoveEntries(s.core, ids);
    SameSubscriptions(s.core, r);
    forall topic ensures |LogIDs(r.entries, topic, r.counter)| <= |LogIDs(s.core.entries, topic, s.core.counter)| {
      LogIDsMembers(r.entries, topic, r.counter);
      LogIDsMembers(s.core.entries, topic, s.core.counter);
      SublistIsShorter(LogIDs(r.entries, topic, r.counter), LogIDs(s.core.entries, topic, s.core.counter));
    }
  }

  lemma SameSubscriptions(c: Core, d: Core)
    requires c.subscriptions == d.subscriptions
    ensures forall did :: HeldTopics(c, did) == HeldTopics(d, did)
  {
  }

  lemma SameQuota(c: Core, d: Core, n: nat)
    requires c.subscriptions == d.subscriptions
    ensures QuotaBound(c, n) == QuotaBound(d, n)
  {
    SameSubscriptions(c, d);
  }

  // ------------------------------------------------------------------------------------------
  // Each operation.

  lemma RemoveSetKeeps(s: State, gone: set<nat>, o: Options)
    requires Inv(s, o) && PrefixSet(s.core, gone)
    ensures Inv(s.(core := RemoveEntries(s.core, Ascending(gone, s.core.counter))), o)
  {
    AscendingMembers(gone, s.core.counter);
    assert (set x | x in Ascending(gone, s.core.counter)) == gone;
    RemoveEntriesKeepsRest(s, Ascending(gone, s.core.counter), o);
  }

  lemma TrimKeeps(s: State, topic: string, before: nat, o: Options)
    requires Inv(s, o)
    ensures Inv(Step(s, DoTrim(topic, before), o), o)
  {
    var gone := set id | id in s.core.entries && IsLog(s.core.entries[id], topic) && id < before;
    assert PrefixSet(s.core, gone);
    RemoveSetKeeps(s, gone, o);
  }

  lemma PurgeKeeps(s: State, now: int, olderThan: int, o: Options)
    requires Inv(s, o)
    ensures Inv(Step(s, DoPurge(now, olderThan), o), o)
  {
    var gone := set id | id in s.core.entries && Purgeable(s.core, id, now, olderThan, o.defaultRetention);
    assert PrefixSet(s.core, gone);
    RemoveSetKeeps(s, gone, o);
  }

  /** Two stores with the same logs: the same live log entries, heads and watermarks. */
  ghost predicate SameLogs(c: Core, r: Core) {
    && c.counter == r.counter && c.heads == r.heads && c.removedThrough == r.removedThrough
    && r.entries.Keys <= c.entries.Keys
    && (forall id :: id in r.entries ==>
          r.entries[id].retain == c.entries[id].retain && r.entries[id].topic == c.entries[id].topic)
    && (forall id :: id in c.entries && c.entries[id].retain == Log ==> id in r.entries)
  }

  lemma SameLogsKeep(s: State, r: Core)
    requires LogOk(s) && SameLogs(s.core, r)
    ensures LogOk(s.(core := r))
  {
  }

  lemma SameLogsSameDepth(c: Core, r: Core, topic: string)
    requires SameLogs(c, r)
    ensures LogIDs(r.entries, topic, r.counter) == LogIDs(c.entries, topic, c.counter)
  {
    LogIDsMembers(r.entries, topic, r.counter);
    LogIDsMembers(c.entries, topic, c.counter);
    IncreasingUnique(LogIDs(r.entries, topic, r.counter), LogIDs(c.entries, topic, c.counter));
  }

  /** Dropping a delivery leaves every log as it was. */
  lemma DropDeliverySameLogs(c: Core, recipient: string, id: nat)
    ensures SameLogs(c, DropDelivery(c, recipient, id))
  {
  }

  lemma DropDeliveryRest(c: Core, recipient: string, id: nat)
    ensures var r := DropDelivery(c, recipient, id);
            r.subscriptions == c.subscriptions && r.records == c.records && (MailIsPending(c) ==> MailIsPending(r))
  {
  }

  lemma SameLogsKeepInv(s: State, r: Core, o: Options)
    requires Inv(s, o) && SameLogs(s.core, r) && MailIsPending(r)
    requires r.subscriptions == s.core.subscriptions && r.records == s.core.records
    ensures Inv(s.(core := r), o)
  {
    SameLogsKeep(s, r);
    SameSubscriptions(s.core, r);
    forall topic {
      SameLogsSameDepth(s.core, r, topic);
    }
  }

  lemma DropDeliveryKeeps(s: State, recipient: string, id: nat, o: Options)
    requires Inv(s, o)
    ensures Inv(s.(core := DropDelivery(s.core, recipient, id)), o)
  {
    DropDeliverySameLogs(s.core, recipient, id);
    DropDeliveryRest(s.core, recipient, id);
    SameLogsKeepInv(s, DropDelivery(s.core, recipient, id), o);
  }

  lemma {:induction false} DropDeliveriesKeeps(s: State, recipient: string, ids: seq<nat>, o: Options)
    requires Inv(s, o)
    ensures Inv(s.(core := DropDeliveries(s.core, recipient, ids)), o)
    decreases |ids|
  {
    if ids != [] {
      var s1 := s.(core := DropDelivery(s.core, recipient, ids[0]));
      DropDeliveryKeeps(s, recipient, ids[0], o);
      DropDeliveriesKeeps(s1, recipient, ids[1..], o);
      assert s1.(core := DropDeliveries(s1.core, recipient, ids[1..])) ==
             s.(core := DropDeliveries(s.core, recipient, ids));
    }
  }

  /** The rest of the invariant does not look at subscriptions. */
  lemma ResubscribedKeeps(s: State, r: Core, o: Options)
    requires Inv(s, o) && r == s.core.(subscriptions := r.subscriptions)
    requires QuotaBound(r, o.maxSubscriptions)
    ensures Inv(s.(core := r), o)
  {
    assert LogOk(s.(core := r));
    assert DepthBound(r, o.maxDepth);
  }

  lemma SubscribeHolds(c: Core, did: string, topic: string, requested: int, d: string)
    ensures var r := c.(subscriptions := c.subscriptions[topic := Subscribers(c, topic)[did := requested]]);
            HeldTopics(r, d) == if d == did then HeldTopics(c, d) + {topic} else HeldTopics(c, d)
  {
  }

  lemma SubscribeKeepsQuota(c: Core, did: string, topic: string, retention: Option<int>, o: Options)
    requires QuotaBound(c, o.maxSubscriptions)
    ensures QuotaBound(Subscribe(c, did, topic, retention, o).0, o.maxSubscriptions)
  {
    var (r, result) := Subscribe(c, did, topic, retention, o);
    if result.Subscribed? {
      assert did in r.subscriptions[topic];
      forall d ensures |HeldTopics(r, d)| <= o.maxSubscriptions {
        SubscribeHolds(c, did, topic, if retention.Some? then retention.value else o.defaultRetention, d);
      }
    }
  }

  lemma SubscribeKeeps(s: State, did: string, topic: string, retention: Option<int>, o: Options)
    requires Inv(s, o)
    ensures Inv(Step(s, DoSubscribe(did, topic, retention), o), o)
  {
    SubscribeKeepsQuota(s.core, did, topic, retention, o);
    ResubscribedKeeps(s, Subscribe(s.core, did, topic, retention, o).0, o);
  }

  lemma LeaveKeepsQuota(c: Core, did: string, topic: string, n: nat)
    requires QuotaBound(c, n)
    ensures QuotaBound(Leave(c, did, topic), n)
  {
    var r := Leave(c, did, topic);
    forall d ensures |HeldTopics(r, d)| <= n {
      assert HeldTopics(r, d) <= HeldTopics(c, d);
      SubsetIsSmaller(HeldTopics(r, d), HeldTopics(c, d));
    }
  }

  lemma UnsubscribeKeeps(s: State, did: string, topic: string, o: Options)
    requires Inv(s, o)
    ensures Inv(Step(s, DoUnsubscribe(did, topic), o), o)
  {
    hide Counted, EntriesAccepted, AcceptedLive, Heads, MailIsPending, DepthBound, QuotaBound, Recorded, Chained;
    hide PendingOn;
    var r := Leave(s.core, did, topic);
    LeaveKeepsQuota(s.core, did, topic, o.maxSubscriptions);
    ResubscribedKeeps(s, r, o);
    var left := s.(core := r);
    DropDeliveriesKeeps(left, did, PendingOn(s.core, did, topic), o);
    assert Step(s, DoUnsubscribe(did, topic), o) ==
           left.(core := DropDeliveries(r, did, PendingOn(s.core, did, topic)));
  }

  lemma {:induction false} SubsetIsSmaller(a: set<string>, b: set<string>)
    requires a <= b
    ensures |a| <= |b|
  {
    assert b == a + (b - a);
  }

  // ------------------------------------------------------------------------------------------
  // Publish.

  /** The store a new publish leaves before depth eviction. */
  function Appended(c: Core, p: PublishParams, now: int): Core {
    var id := c.counter + 1;
    var recipients := Subscribers(c, p.topic).Keys - {p.sender};
    var minted := c.(
      counter := id,
      records := if p.publishID.Some? then c.records[p.publishID.value := id] else c.records,
      heads := if p.retain == Log then c.heads[p.topic := id] else c.heads);
    if p.retain == Mailbox && recipients == {} then minted
    else minted.(entries := c.entries[id := Entry(p.sender, p.topic, p.payload, now, p.retain, recipients)])
  }

  ghost predicate IsNew(c: Core, p: PublishParams) {
    && !(p.publishID.Some? && p.publishID.value in c.records)
    && !(p.expected.Exactly? && p.expected.head != Lookup(c.heads, p.topic))
  }

  lemma PublishIsAppendAndEvict(c: Core, p: PublishParams, now: int, maxDepth: Option<nat>)
    requires IsNew(c, p)
    ensures var a := Appended(c, p, now);
            Publish(c, p, now, maxDepth) ==
            (if p.retain == Log then RemoveEntries(a, Overflow(a, p.topic, maxDepth)) else a,
             Published(c.counter + 1, false))
  {
  }

  lemma AppendedAccepts(s: State, p: PublishParams, topic: string)
    ensures Accepted(s.history + [Record(p, s.core.counter + 1)], topic) ==
            Accepted(s.history, topic) + (if p.topic == topic && p.retain == Log then [s.core.counter + 1] else [])
  {
    AcceptedAppend(s.history, Record(p, s.core.counter + 1), topic);
  }

  /** The state an accepted publish leaves before depth eviction. */
  function AppendedState(s: State, p: PublishParams, now: int): State {
    State(Appended(s.core, p, now), s.history + [Record(p, s.core.counter + 1)])
  }

  lemma AppendKeepsEntries(s: State, p: PublishParams, now: int)
    requires LogOk(s)
    ensures var s1 := AppendedState(s, p, now); Counted(s1.core, s1.history) && EntriesAccepted(s1.core, s1.history)
  {
    hide Accepted, AcceptedLive;
    var s1 := AppendedState(s, p, now);
    forall id | id in s1.core.entries && s1.core.entries[id].retain == Log
      ensures id in Accepted(s1.history, s1.core.entries[id].topic)
      ensures After(id, Lookup(s1.core.removedThrough, s1.core.entries[id].topic))
    {
      var topic := s1.core.entries[id].topic;
      AppendedAccepts(s, p, topic);
      AcceptedBounded(s, topic);
      assert Last(Accepted(s.history, topic)) == Lookup(s.core.heads, topic);
    }
  }

  lemma AppendKeepsLive(s: State, p: PublishParams, now: int)
    requires LogOk(s)
    ensures var s1 := AppendedState(s, p, now); AcceptedLive(s1.core, s1.history) && Heads(s1.core, s1.history)
  {
    hide Accepted, EntriesAccepted;
    var s1 := AppendedState(s, p, now);
    forall id, topic | id in Accepted(s1.history, topic) && After(id, Lookup(s1.core.removedThrough, topic))
      ensures id in s1.core.entries && IsLog(s1.core.entries[id], topic)
    {
      AppendedAccepts(s, p, topic);
      AcceptedBounded(s, topic);
    }
    forall topic
      ensures Last(Accepted(s1.history, topic)) == Lookup(s1.core.heads, topic)
      ensures topic in s1.core.removedThrough ==> s1.core.removedThrough[topic] in Accepted(s1.history, topic)
    {
      AppendedAccepts(s, p, topic);
      assert Last(Accepted(s.history, topic)) == Lookup(s.core.heads, topic);
    }
  }

  lemma AppendKeepsRecords(s: State, p: PublishParams, now: int)
    requires Recorded(s.core, s.history) && IsNew(s.core, p)
    ensures var s1 := AppendedState(s, p, now); Recorded(s1.core, s1.history)
  {
    var s1 := AppendedState(s, p, now);
    forall key | key in s1.core.records ensures AcceptedAs(s1.history, key, s1.core.records[key]) {
      if key in s.core.records {
        var i :| 0 <= i < |s.history| && s.history[i].key == Some(key) && s.history[i].seqID == s.core.records[key];
        assert s1.history[i] == s.history[i];
      } else {
        assert s1.history[|s.history|].key == Some(key);
      }
    }
  }

  lemma AppendKeepsChain(s: State, p: PublishParams, now: int)
    requires Chained(s.history) && Heads(s.core, s.history) && IsNew(s.core, p)
    ensures Chained(AppendedState(s, p, now).history)
  {
    var h := AppendedState(s, p, now).history;
    forall i | 0 <= i < |h| && h[i].retain == Log && h[i].expected.Exactly?
      ensures h[i].expected.head == Last(Accepted(h[..i], h[i].topic))
    {
      if i < |s.history| {
        assert h[..i] == s.history[..i];
      } else {
        assert h[..i] == s.history;
        assert Last(Accepted(s.history, p.topic)) == Lookup(s.core.heads, p.topic);
      }
    }
  }

  /** A publish deepens its own topic's log by one, and no other. */
  lemma AppendDepth(c: Core, p: PublishParams, now: int, topic: string)
    requires forall id :: id in c.entries ==> 1 <= id <= c.counter
    ensures var a := Appended(c, p, now);
            LogIDs(a.entries, topic, a.counter) ==
            LogIDs(c.entries, topic, c.counter) + (if p.retain == Log && p.topic == topic then [c.counter + 1] else [])
  {
    var a := Appended(c, p, now);
    SameBelow(a.entries, c.entries, topic, c.counter);
  }

  lemma {:induction false} SameBelow(a: map<nat, Entry>, b: map<nat, Entry>, topic: string, bound: nat)
    requires forall id :: id <= bound ==> (id in a <==> id in b) && (id in a ==> a[id] == b[id])
    ensures LogIDs(a, topic, bound) == LogIDs(b, topic, bound)
  {
    if bound > 0 {
      SameBelow(a, b, topic, bound - 1);
    }
  }

  /** Evicting the overflow is removing a prefix of the topic's log. */
  lemma OverflowIsPrefix(c: Core, topic: string, maxDepth: Option<nat>)
    requires forall id :: id in c.entries ==> 1 <= id <= c.counter
    ensures Increasing(Overflow(c, topic, maxDepth))
    ensures PrefixSet(c, set x | x in Overflow(c, topic, maxDepth))
  {
    var log := LogIDs(c.entries, topic, c.counter);
    LogIDsMembers(c.entries, topic, c.counter);
    if maxDepth.Some? && |log| > maxDepth.value {
      var n := |log| - maxDepth.value;
      forall x, y | x in log[..n] && y in log && y <= x ensures y in log[..n] {
        var i :| 0 <= i < n && log[i] == x;
        var j :| 0 <= j < |log| && log[j] == y;
        assert j <= i;
        assert log[..n][j] == y;
      }
      assert forall x :: x in log[..n] ==> x in log;
    }
  }

  /** Removing the first `n` entries of a topic's log leaves the rest of it. */
  lemma RemovingTheOldest(c: Core, topic: string, n: nat)
    requires n <= |LogIDs(c.entries, topic, c.counter)|
    ensures var log := LogIDs(c.entries, topic, c.counter);
            LogIDs(RemoveEntries(c, log[..n]).entries, topic, c.counter) == log[n..]
  {
    var log := LogIDs(c.entries, topic, c.counter);
    var r := RemoveEntries(c, log[..n]);
    RemoveEntriesExactly(c, log[..n]);
    LogIDsMembers(c.entries, topic, c.counter);
    LogIDsMembers(r.entries, topic, c.counter);
    TailMembers(log, n);
    IncreasingUnique(LogIDs(r.entries, topic, c.counter), log[n..]);
  }

  /** Removing entries that are not in a topic's log leaves that log as it was. */
  lemma RemovingOthers(c: Core, gone: seq<nat>, other: string)
    requires forall x :: x in LogIDs(c.entries, other, c.counter) ==> x !in gone
    ensures LogIDs(RemoveEntries(c, gone).entries, other, c.counter) == LogIDs(c.entries, other, c.counter)
  {
    var r := RemoveEntries(c, gone);
    RemoveEntriesExactly(c, gone);
    LogIDsMembers(c.entries, other, c.counter);
    LogIDsMembers(r.entries, other, c.counter);
    IncreasingUnique(LogIDs(r.entries, other, c.counter), LogIDs(c.entries, other, c.counter));
  }

  /** Eviction leaves the newest `maxDepth` log entries of the topic, and every other log alone. */
  lemma EvictionKeepsNewest(c: Core, topic: string, maxDepth: Option<nat>, other: string)
    ensures var log, r := LogIDs(c.entries, other, c.counter), RemoveEntries(c, Overflow(c, topic, maxDepth));
            LogIDs(r.entries, other, r.counter) ==
            if other == topic && maxDepth.Some? && |log| > maxDepth.value then log[|log| - maxDepth.value..] else log
  {
    var log, gone := LogIDs(c.entries, other, c.counter), Overflow(c, topic, maxDepth);
    RemoveEntriesExactly(c, gone);
    if other == topic && maxDepth.Some? && |log| > maxDepth.value {
      RemovingTheOldest(c, topic, |log| - maxDepth.value);
    } else {
      NoOverflowElsewhere(c, topic, maxDepth, other);
      RemovingOthers(c, gone, other);
    }
  }

  lemma NoOverflowElsewhere(c: Core, topic: string, maxDepth: Option<nat>, other: string)
    requires other != topic || Overflow(c, topic, maxDepth) == []
    ensures forall x :: x in LogIDs(c.entries, other, c.counter) ==> x !in Overflow(c, topic, maxDepth)
  {
    LogIDsMembers(c.entries, topic, c.counter);
    LogIDsMembers(c.entries, other, c.counter);
    var gone := Overflow(c, topic, maxDepth);
    assert forall x :: x in gone ==> x in LogIDs(c.entries, topic, c.counter);
  }

  lemma PublishKeepsDepth(s: State, p: PublishParams, now: int, maxDepth: Option<nat>)
    requires Counted(s.core, s.history) && DepthBound(s.core, maxDepth) && IsNew(s.core, p)
    ensures DepthBound(Publish(s.core, p, now, maxDepth).0, maxDepth)
  {
    var c := s.core;
    PublishIsAppendAndEvict(c, p, now, maxDepth);
    var a, r := Appended(c, p, now), Publish(c, p, now, maxDepth).0;
    if maxDepth.Some? {
      forall topic ensures |LogIDs(r.entries, topic, r.counter)| <= maxDepth.value {
        AppendDepth(c, p, now, topic);
        if p.retain == Log { EvictionKeepsNewest(a, p.topic, maxDepth, topic); }
      }
    }
  }

  lemma CountedBounds(c: Core, history: seq<Accept<string>>)
    requires Counted(c, history)
    ensures forall id :: id in c.entries ==> 1 <= id <= c.counter
  {
  }

  lemma PublishKeepsLog(s: State, p: PublishParams, now: int, o: Options)
    requires LogOk(s) && IsNew(s.core, p)
    ensures LogOk(Step(s, DoPublish(p, now), o))
  {
    hide Counted, EntriesAccepted, AcceptedLive, Heads, Appended, PrefixSet, RemoveEntries, Increasing;
    var a := AppendedState(s, p, now);
    PublishIsAppendAndEvict(s.core, p, now, o.maxDepth);
    AppendKeepsEntries(s, p, now);
    AppendKeepsLive(s, p, now);
    if p.retain == Log {
      CountedBounds(a.core, a.history);
      OverflowIsPrefix(a.core, p.topic, o.maxDepth);
      RemoveEntriesKeepsLog(a, Overflow(a.core, p.topic, o.maxDepth));
    }
  }

  /** What a publish leaves of everything but the log: eviction touches none of it. */
  lemma PublishRest(c: Core, p: PublishParams, now: int, maxDepth: Option<nat>)
    requires IsNew(c, p)
    ensures var a, r := Appended(c, p, now), Publish(c, p, now, maxDepth).0;
            && r.subscriptions == c.subscriptions && r.records == a.records
            && (MailIsPending(c) ==> MailIsPending(r))
  {
    hide RemoveEntries, Overflow;
    var a := Appended(c, p, now);
    PublishIsAppendAndEvict(c, p, now, maxDepth);
    RemoveEntriesExactly(a, Overflow(a, p.topic, maxDepth));
  }

  lemma PublishKeeps(s: State, p: PublishParams, now: int, o: Options)
    requires Inv(s, o)
    ensures Inv(Step(s, DoPublish(p, now), o), o)
  {
    hide Counted, EntriesAccepted, AcceptedLive, Heads, MailIsPending, DepthBound, QuotaBound, Chained, Appended;
    if IsNew(s.core, p) {
      var s', a := Step(s, DoPublish(p, now), o), AppendedState(s, p, now);
      PublishKeepsLog(s, p, now, o);
      PublishKeepsDepth(s, p, now, o.maxDepth);
      PublishRest(s.core, p, now, o.maxDepth);
      AppendKeepsRecords(s, p, now);
      AppendKeepsChain(s, p, now);
      SameQuota(s.core, s'.core, o.maxSubscriptions);
      assert s'.history == a.history by {
        PublishIsAppendAndEvict(s.core, p, now, o.maxDepth);
      }
    } else {
      assert Step(s, DoPublish(p, now), o) == s;
    }
  }

  // ------------------------------------------------------------------------------------------
  // Every run.

  lemma StepKeeps(s: State, op: Op, o: Options)
    requires Inv(s, o)
    ensures Inv(Step(s, op, o), o)
  {
    match op
    case DoPublish(p, now) => PublishKeeps(s, p, now, o);
    case DoTrim(topic, before) => TrimKeeps(s, topic, before, o);
    case DoAck(recipient, ids) => DropDeliveriesKeeps(s, recipient, ids, o);
    case DoPurge(now, olderThan) => PurgeKeeps(s, now, olderThan, o);
    case DoSubscribe(did, topic, retention) => SubscribeKeeps(s, did, topic, retention, o);
    case DoUnsubscribe(did, topic) => UnsubscribeKeeps(s, did, topic, o);
  }

  lemma {:induction false} RunKeeps(s: State, ops: seq<Op>, o: Options)
    requires Inv(s, o)
    ensures Inv(Run(s, ops, o), o)
    decreases |ops|
  {
    if ops != [] {
      StepKeeps(s, ops[0], o);
      RunKeeps(Step(s, ops[0], o), ops[1..], o);
    }
  }

  const INITIAL := State(EMPTY, [])

  lemma InitialOk(o: Options)
    ensures Inv(INITIAL, o)
  {
    forall topic {
      LogIDsMembers(EMPTY.entries, topic, 0);
    }
    forall did ensures HeldTopics(EMPTY, did) == {} {
    }
  }
}
