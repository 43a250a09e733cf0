/**
  What every statement of every interleaving keeps: the committed tables agree with the publishes
  committed so far, each transaction in flight is consistent with the tables it will commit over,
  and no two transactions hold one row.
 */
module SqlInvariant {
  import opened Wrappers
  import opened LogReader
  import opened PublishHistory
  import opened SqlStore

  // ------------------------------------------------------------------------------------------
  // The committed tables.

  /** A retained log frame was accepted, and lies above the topic's removal watermark. */
  ghost predicate RowsAccepted(db: Tables, history: seq<Accept<PublishKey>>) {
    forall id :: id in db.messages && db.messages[id].retain == Log ==>
      var topic := db.messages[id].topic;
      id in Accepted(history, topic) && After(id, StoredRemoved(db, topic))
  }

  /** An accepted log frame above its topic's removal watermark is retained. */
  ghost predicate AcceptedServed(db: Tables, history: seq<Accept<PublishKey>>) {
    forall id, topic {:trigger id in Accepted(history, topic)} ::
      id in Accepted(history, topic) && After(id, StoredRemoved(db, topic)) ==>
        id in db.messages && IsLog(db.messages[id], topic)
  }

  ghost predicate Retention(db: Tables, history: seq<Accept<PublishKey>>) {
    RowsAccepted(db, history) && AcceptedServed(db, history)
  }

  /** A topic row exists once the topic has a log publish; its head is the last one committed. */
  ghost predicate Heads(db: Tables, history: seq<Accept<PublishKey>>) {
    forall topic {:trigger Accepted(history, topic)} {:trigger topic in db.topics} ::
      && Last(Accepted(history, topic)) == StoredHead(db, topic)
      && (topic in db.topics && db.topics[topic].removed.Some? ==>
            db.topics[topic].removed.value in Accepted(history, topic))
  }

  ghost predicate Counted(db: Tables, history: seq<Accept<PublishKey>>) {
    && (forall i :: 0 <= i < |history| ==> 1 <= history[i].seqID <= db.counter)
    && (forall i, j :: 0 <= i < j < |history| ==> history[i].seqID < history[j].seqID)
    && (forall id :: id in db.messages ==> 1 <= id <= db.counter)
  }

  /** Committed idempotency records are complete, and are those of the committed publishes. */
  ghost predicate Recorded(db: Tables, history: seq<Accept<PublishKey>>, answers: seq<Answer>) {
    && (forall key :: key in db.publishIDs ==>
          db.publishIDs[key].Some? && AcceptedAs(history, key, db.publishIDs[key].value))
    && (forall i :: 0 <= i < |history| && history[i].key.Some? ==>
          history[i].key.value in db.publishIDs && db.publishIDs[history[i].key.value] == Some(history[i].seqID))
    && (forall i :: 0 <= i < |answers| ==>
          answers[i].key in db.publishIDs && db.publishIDs[answers[i].key] == Some(answers[i].seqID))
  }

  ghost predicate TablesOk(s: State) {
    && Counted(s.db, s.history)
    && Heads(s.db, s.history)
    && Retention(s.db, s.history)
    && Recorded(s.db, s.history, s.answers)
    && Chained(s.history)
  }

  // ------------------------------------------------------------------------------------------
  // Transactions in flight.

  /** The log frames a transaction deletes are its topic's log up to `upTo`: a prefix. */
  ghost predicate PrefixDelete(db: Tables, t: Txn) {
    && (forall id :: id in db.messages && id in t.deleted ==> db.messages[id].topic == t.job.Topic())
    && (forall id :: id in db.messages && IsLog(db.messages[id], t.job.Topic()) ==>
          (id in t.deleted <==> t.upTo.Some? && id <= t.upTo.value))
    && (forall id :: id in t.deleted ==> id <= db.counter || t.minted == Some(id))
  }

  ghost predicate PublishOk(db: Tables, history: seq<Accept<PublishKey>>, t: Txn)
    requires t.job.Publish?
  {
    var p := t.job.params;
    && t.next in {Claim, ReadRecord, ReadHead, Mint, Append, AdvanceHead, Evict, Complete, Commit}
    && (t.minted.Some? <==> t.next in {Append, AdvanceHead, Evict, Complete, Commit})
    && (t.minted.Some? ==> t.minted.value == db.counter + 1)
    && (t.frame.Some? ==> t.minted.Some? && t.frame.value.topic == p.topic && t.frame.value.retain == p.retain)
    && (t.next in {AdvanceHead, Evict} ==> p.retain == Log)
    && (p.retain == Log && t.next in {AdvanceHead, Evict, Complete, Commit} ==> t.frame.Some?)
    && (t.claim.Some? ==> p.publishID.Some? && Key(p) !in db.publishIDs)
    && (p.publishID.Some? && t.next !in {Claim, ReadRecord} ==> t.claim.Some?)
    && (t.next == Commit && t.claim.Some? ==> t.claim.value == t.minted)
    && t.head.None? && t.firstKept.None?
    && (if p.retain == Log && t.next in {Evict, Complete, Commit} then HeadAdvanced(db, history, t)
        else t.row.None? && t.deleted == {} && t.upTo.None? && !t.topicLock)
  }

  /** Between its head write and its commit, a log publish owns the topic row. */
  ghost predicate HeadAdvanced(db: Tables, history: seq<Accept<PublishKey>>, t: Txn)
    requires t.job.Publish?
  {
    var p := t.job.params;
    && t.topicLock && t.row.Some? && t.minted.Some?
    && t.row.value == TopicRow(t.minted.value, Raise(StoredRemoved(db, p.topic), t.upTo))
    && (p.expected.Exactly? ==> p.expected.head == StoredHead(db, p.topic))
    && (t.next == Evict ==> t.deleted == {} && t.upTo.None?)
    && (t.upTo.Some? ==> t.upTo == t.minted || t.upTo.value in Accepted(history, p.topic))
    && (t.minted.value in t.deleted <==> t.upTo == t.minted)
    && (forall id :: id in db.messages && id in t.deleted ==> db.messages[id].retain == Log)
  }

  /** Nothing of the topic's log that is not due lies below the first frame a purge keeps. */
  ghost predicate KeepsUndue(db: Tables, t: Txn)
    requires t.job.Purge?
  {
    forall id :: id in db.messages && IsLog(db.messages[id], t.job.purgeTopic)
                 && db.messages[id].storedAt > t.job.threshold ==>
      t.firstKept.Some? && t.firstKept.value <= id
  }

  /** While a purge holds the topic row, the first frame it keeps is still there. */
  ghost predicate KeptStands(db: Tables, t: Txn)
    requires t.job.Purge?
  {
    t.firstKept.Some? ==>
      && t.firstKept.value in db.messages && IsLog(db.messages[t.firstKept.value], t.job.purgeTopic)
      && db.messages[t.firstKept.value].storedAt > t.job.threshold
  }

  ghost predicate SweepOk(db: Tables, history: seq<Accept<PublishKey>>, t: Txn)
    requires !t.job.Publish?
  {
    var topic := t.job.Topic();
    && t.next in {LockTopic, ReadKept, SelectFrames, AdvanceRemoved, Commit}
    && t.minted.None? && t.frame.None? && t.claim.None?
    && (t.next == ReadKept ==> t.job.Purge?)
    && (t.topicLock ==> topic in db.topics)
    && (t.row.Some? ==>
          && t.topicLock && t.next == Commit
          && t.row.value == db.topics[topic].(removed := Raise(db.topics[topic].removed, t.upTo)))
    && (t.next == Commit && t.upTo.Some? ==> t.row.Some?)
    && (t.next == AdvanceRemoved ==> t.upTo.Some?)
    && (t.next in {LockTopic, ReadKept, SelectFrames} ==> t.deleted == {} && t.upTo.None?)
    && (t.upTo.Some? ==> t.upTo.value in Accepted(history, topic))
    && (t.next == LockTopic ==> !t.topicLock)
    && (t.job.Trim? ==> forall id :: id in db.messages && id in t.deleted ==>
          db.messages[id].retain == Log && id < t.job.before)
    && (t.job.Purge? ==>
          && (t.head.Some? ==> t.topicLock && t.head == StoredHead(db, topic))
          && (t.next in {SelectFrames, AdvanceRemoved, Commit} && t.head.Some? ==> KeepsUndue(db, t))
          && (t.next == SelectFrames && t.head.Some? ==> KeptStands(db, t))
          && (t.head.None? && t.next in {AdvanceRemoved, Commit} ==> t.upTo.None?)
          && (forall id :: id in db.messages && id in t.deleted ==> db.messages[id].storedAt <= t.job.threshold))
  }

  ghost predicate TxnOk(db: Tables, history: seq<Accept<PublishKey>>, t: Txn) {
    && PrefixDelete(db, t)
    && if t.job.Publish? then PublishOk(db, history, t) else SweepOk(db, history, t)
  }

  ghost predicate Exclusive(s: State) {
    forall i, j :: i in s.txns && j in s.txns && i != j ==>
      && !(s.txns[i].minted.Some? && s.txns[j].minted.Some?)
      && !(s.txns[i].topicLock && s.txns[j].topicLock && s.txns[i].job.Topic() == s.txns[j].job.Topic())
      && !(s.txns[i].claim.Some? && s.txns[i].job.Publish? && s.txns[i].job.params.publishID.Some?
           && HoldsKey(s.txns[j], Key(s.txns[i].job.params)))
  }

  ghost predicate Inv(s: State) {
    && TablesOk(s)
    && Exclusive(s)
    && forall i :: i in s.txns ==> TxnOk(s.db, s.history, s.txns[i])
  }

  // ------------------------------------------------------------------------------------------
  // Sequences of rows.

  lemma {:induction false} LogRowsMembers(rows: map<nat, Frame>, topic: string, bound: nat)
    ensures forall x :: x in LogRows(rows, topic, bound) <==> 1 <= x <= bound && x in rows && IsLog(rows[x], topic)
    ensures Increasing(LogRows(rows, topic, bound))
  {
    if bound > 0 {
      LogRowsMembers(rows, topic, bound - 1);
      var below := LogRows(rows, topic, bound - 1);
      assert forall k :: 0 <= k < |below| ==> below[k] in below;
    }
  }

  lemma {:induction false} FirstKeptIsFirst(rows: map<nat, Frame>, topic: string, threshold: int, bound: nat)
    ensures forall x :: 1 <= x <= bound && x in rows && IsLog(rows[x], topic) && rows[x].storedAt > threshold ==>
              FirstKept(rows, topic, threshold, bound).Some? && FirstKept(rows, topic, threshold, bound).value <= x
    ensures FirstKept(rows, topic, threshold, bound).Some? ==> FirstKept(rows, topic, threshold, bound).value <= bound
  {
    if bound > 0 {
      FirstKeptIsFirst(rows, topic, threshold, bound - 1);
    }
  }

  lemma {:induction false} FirstKeptIsKept(rows: map<nat, Frame>, topic: string, threshold: int, bound: nat)
    ensures var kept := FirstKept(rows, topic, threshold, bound);
            kept.Some? ==>
              1 <= kept.value && kept.value in rows && IsLog(rows[kept.value], topic)
              && rows[kept.value].storedAt > threshold
  {
    if bound > 0 {
      FirstKeptIsKept(rows, topic, threshold, bound - 1);
    }
  }

  // ------------------------------------------------------------------------------------------
  // Statements before commit touch no committed row.

  ghost predicate Compatible(a: Txn, b: Txn) {
    && !(a.minted.Some? && b.minted.Some?)
    && !(a.topicLock && b.topicLock && a.job.Topic() == b.job.Topic())
    && !(a.claim.Some? && a.job.Publish? && a.job.params.publishID.Some? && HoldsKey(b, Key(a.job.params)))
  }

  lemma SetKeeps(s: State, id: nat, t: Txn)
    requires Inv(s)
    requires TxnOk(s.db, s.history, t)
    requires forall j :: j in s.txns && j != id ==> Compatible(t, s.txns[j])
    ensures Inv(Set(s, id, t))
  {
    var s' := Set(s, id, t);
    forall i, j | i in s'.txns && j in s'.txns && i != j ensures Compatible(s'.txns[i], s'.txns[j]) {
      if i == id {
        assert Compatible(t, s.txns[j]);
      } else if j == id {
        assert Compatible(t, s.txns[i]);
      }
    }
  }

  lemma DropKeeps(s: State, id: nat)
    requires Inv(s)
    ensures Inv(Drop(s, id))
  {
  }

  /** A statement that takes no new row leaves the transaction compatible with every other. */
  lemma SameRows(s: State, id: nat, t: Txn)
    requires Inv(s) && id in s.txns
    requires t.job == s.txns[id].job
    requires t.minted.Some? ==> s.txns[id].minted.Some? || !CounterBusy(s, id)
    requires t.topicLock ==> s.txns[id].topicLock || !TopicBusy(s, id, t.job.Topic())
    requires t.claim.Some? && t.job.Publish? && t.job.params.publishID.Some? ==>
               s.txns[id].claim.Some? || !KeyBusy(s, id, Key(t.job.params))
    ensures forall j :: j in s.txns && j != id ==> Compatible(t, s.txns[j])
  {
    forall j | j in s.txns && j != id ensures Compatible(t, s.txns[j]) {
      assert Compatible(s.txns[id], s.txns[j]);
    }
  }

  /** The statements of a publish up to and after its eviction, seen from the transaction alone. */
  lemma PublishStatementOk(s: State, id: nat, input: Input)
    requires id in s.txns && s.txns[id].job.Publish? && TxnOk(s.db, s.history, s.txns[id])
    requires s.txns[id].next in {Claim, ReadHead, Mint, Append, Complete}
    ensures var s' := ExecPublish(s, id, s.txns[id].job.params, input);
            s'.Some? && id in s'.value.txns ==> TxnOk(s.db, s.history, s'.value.txns[id])
  {
  }

  lemma AdvanceHeadOk(s: State, id: nat)
    requires id in s.txns && s.txns[id].job.Publish? && TxnOk(s.db, s.history, s.txns[id])
    requires s.txns[id].next == AdvanceHead
    ensures var s' := ExecAdvanceHead(s, id, s.txns[id].job.params);
            s'.Some? && id in s'.value.txns ==> TxnOk(s.db, s.history, s'.value.txns[id])
  {
  }

  /** A statement of a publish drops the transaction or moves it on, taking only rows that are free. */
  lemma PublishStatementShape(s: State, id: nat, input: Input)
    requires id in s.txns && s.txns[id].job.Publish?
    requires s.txns[id].next in {Claim, ReadHead, Mint, Append, AdvanceHead, Complete}
    requires ExecPublish(s, id, s.txns[id].job.params, input).Some?
    ensures var s', p := ExecPublish(s, id, s.txns[id].job.params, input).value, s.txns[id].job.params;
            s' == Drop(s, id) ||
            (&& id in s'.txns && s' == Set(s, id, s'.txns[id])
             && s'.txns[id].job == s.txns[id].job
             && (s'.txns[id].minted.Some? ==> s.txns[id].minted.Some? || !CounterBusy(s, id))
             && (s'.txns[id].topicLock ==> s.txns[id].topicLock || !TopicBusy(s, id, p.topic))
             && (s'.txns[id].claim.Some? && p.publishID.Some? ==> s.txns[id].claim.Some? || !KeyBusy(s, id, Key(p))))
  {
  }

  lemma PublishStatementKeeps(s: State, id: nat, input: Input)
    requires Inv(s) && id in s.txns && s.txns[id].job.Publish?
    requires s.txns[id].next in {Claim, ReadHead, Mint, Append, AdvanceHead, Complete}
    requires ExecPublish(s, id, s.txns[id].job.params, input).Some?
    ensures Inv(ExecPublish(s, id, s.txns[id].job.params, input).value)
  {
    var s' := ExecPublish(s, id, s.txns[id].job.params, input).value;
    PublishStatementShape(s, id, input);
    if s' == Drop(s, id) {
      DropKeeps(s, id);
    } else {
      if s.txns[id].next == AdvanceHead { AdvanceHeadOk(s, id); } else { PublishStatementOk(s, id, input); }
      SameRows(s, id, s'.txns[id]);
      SetKeeps(s, id, s'.txns[id]);
    }
  }

  /** A replay of a committed idempotency key is answered with the ID it was first accepted as. */
  lemma ReadRecordKeeps(s: State, id: nat, input: Input)
    requires Inv(s) && id in s.txns && s.txns[id].job.Publish?
    requires s.txns[id].next == ReadRecord
    ensures Inv(ExecPublish(s, id, s.txns[id].job.params, input).value)
  {
    hide Inv;
    DropKeeps(s, id);
    var p := s.txns[id].job.params;
    if p.publishID.Some? && Key(p) in s.db.publishIDs && s.db.publishIDs[Key(p)].Some? {
      AnswerKeeps(Drop(s, id), Key(p));
    }
  }

  lemma AnswerKeeps(s: State, key: PublishKey)
    requires Inv(s) && key in s.db.publishIDs && s.db.publishIDs[key].Some?
    ensures Inv(s.(answers := s.answers + [Answer(key, s.db.publishIDs[key].value, true)]))
  {
    hide TxnOk, Counted, Heads, Retention, Chained;
  }

  lemma EvictKeeps(s: State, id: nat, input: Input)
    requires Inv(s) && id in s.txns && s.txns[id].job.Publish?
    requires s.txns[id].next == Evict
    ensures Inv(ExecPublish(s, id, s.txns[id].job.params, input).value)
  {
    var t := s.txns[id];
    var t' := EvictDepth(s.db, t, s.depth);
    SameRows(s, id, t');
    EvictIsPrefix(s, id);
    SetKeeps(s, id, t');
  }

  /** Cutting an increasing list at a length cuts it at a value. */
  lemma CutIsBound(rows: seq<nat>, n: nat)
    requires Increasing(rows) && 0 < n <= |rows|
    ensures forall x :: x in rows ==> (x in rows[..n] <==> x <= rows[n - 1])
    ensures forall x :: x in rows[..n] ==> x in rows
  {
    forall x | x in rows ensures x in rows[..n] <==> x <= rows[n - 1] {
      var k :| 0 <= k < |rows| && rows[k] == x;
      if k < n { assert rows[..n][k] == x; }
    }
  }

  lemma EvictIsPrefix(s: State, id: nat)
    requires id in s.txns && s.txns[id].job.Publish? && TxnOk(s.db, s.history, s.txns[id])
    requires Counted(s.db, s.history) && Retention(s.db, s.history)
    requires s.txns[id].next == Evict
    ensures TxnOk(s.db, s.history, EvictDepth(s.db, s.txns[id], s.depth))
  {
    hide LogRows, Visible, Retention;
    var t := s.txns[id];
    var rows := LogRows(Visible(s.db, t), t.job.Topic(), s.db.counter + 1);
    if s.depth.Some? && |rows| > s.depth.value {
      var n := |rows| - s.depth.value;
      var evict, last := (set x | x in rows[..n]), rows[n - 1];
      EvictedRange(s, id, rows, n);
      assert EvictDepth(s.db, t, s.depth) == Evicted(t, evict, Some(last)) by {
        assert Last(rows[..n]) == Some(last);
      }
      EvictedOk(s.db, s.history, t, evict, last);
    }
  }

  lemma EvictedRange(s: State, id: nat, rows: seq<nat>, n: nat)
    requires id in s.txns && s.txns[id].job.Publish? && TxnOk(s.db, s.history, s.txns[id])
    requires Counted(s.db, s.history) && Retention(s.db, s.history)
    requires s.txns[id].next == Evict
    requires rows == LogRows(Visible(s.db, s.txns[id]), s.txns[id].job.Topic(), s.db.counter + 1)
    requires 0 < n <= |rows|
    ensures rows[n - 1] <= s.db.counter + 1
    ensures rows[n - 1] == s.db.counter + 1 || rows[n - 1] in Accepted(s.history, s.txns[id].job.Topic())
    ensures forall x :: x in rows[..n] <==>
              x <= rows[n - 1] &&
              (x == s.db.counter + 1 || (x in s.db.messages && IsLog(s.db.messages[x], s.txns[id].job.Topic())))
  {
    EvictedRows(s, id, rows);
    LogRowsMembers(Visible(s.db, s.txns[id]), s.txns[id].job.Topic(), s.db.counter + 1);
    CutIsBound(rows, n);
    assert rows[n - 1] in rows;
  }

  lemma EvictedOk(db: Tables, history: seq<Accept<PublishKey>>, t: Txn, evict: set<nat>, last: nat)
    requires t.job.Publish? && TxnOk(db, history, t) && t.next == Evict
    requires forall x :: x in db.messages ==> x <= db.counter
    requires last == db.counter + 1 || last in Accepted(history, t.job.Topic())
    requires last <= db.counter + 1
    requires forall x :: x in evict <==>
               x <= last && (x == db.counter + 1 || (x in db.messages && IsLog(db.messages[x], t.job.Topic())))
    ensures TxnOk(db, history, Evicted(t, evict, Some(last)))
  {
  }

  /** The rows an eviction counts are the topic's committed log and the frame being published. */
  lemma EvictedRows(s: State, id: nat, rows: seq<nat>)
    requires id in s.txns && s.txns[id].job.Publish? && TxnOk(s.db, s.history, s.txns[id])
    requires Counted(s.db, s.history) && Retention(s.db, s.history)
    requires s.txns[id].next == Evict
    requires rows == LogRows(Visible(s.db, s.txns[id]), s.txns[id].job.Topic(), s.db.counter + 1)
    ensures forall x :: x in rows <==>
              (x in s.db.messages && IsLog(s.db.messages[x], s.txns[id].job.Topic())) || x == s.db.counter + 1
    ensures forall x :: x in rows ==> x == s.db.counter + 1 || x in Accepted(s.history, s.txns[id].job.Topic())
  {
    LogRowsMembers(Visible(s.db, s.txns[id]), s.txns[id].job.Topic(), s.db.counter + 1);
  }

  lemma SelectKeeps(s: State, id: nat)
    requires id in s.txns && !s.txns[id].job.Publish? && TxnOk(s.db, s.history, s.txns[id])
    requires Counted(s.db, s.history) && Retention(s.db, s.history)
    requires s.txns[id].next == SelectFrames
    ensures TxnOk(s.db, s.history, Select(s.db, s.txns[id]))
  {
    var t := s.txns[id];
    var t' := Select(s.db, t);
    var topic := t.job.Topic();
    SelectedRows(s.db, t);
    assert forall id :: id in s.db.messages && id in t'.deleted ==> s.db.messages[id].topic == topic;
    assert PrefixDelete(s.db, t');
    assert SweepOk(s.db, s.history, t');
  }

  /** What a sweep selects is exactly its topic's log rows up to the last of them, plus due mail. */
  lemma SelectedRows(db: Tables, t: Txn)
    requires !t.job.Publish?
    requires forall id :: id in db.messages ==> 1 <= id <= db.counter
    ensures var t' := Select(db, t);
            && (forall id :: id in t'.deleted ==> id in db.messages && db.messages[id].topic == t.job.Topic())
            && (forall id :: id in db.messages && IsLog(db.messages[id], t.job.Topic()) ==>
                  (id in t'.deleted <==> t'.upTo.Some? && id <= t'.upTo.value))
            && (t'.upTo.Some? ==>
                  && t'.upTo.value in t'.deleted && t'.upTo.value in db.messages
                  && IsLog(db.messages[t'.upTo.value], t.job.Topic()))
  {
    var t' := Select(db, t);
    var topic := t.job.Topic();
    var rows := map id | id in db.messages && id in t'.deleted :: db.messages[id];
    LogRowsMembers(rows, topic, db.counter);
    var logs := LogRows(rows, topic, db.counter);
    if t'.upTo.Some? {
      assert logs[|logs| - 1] in logs;
    }
    forall id | id in db.messages && IsLog(db.messages[id], topic)
      ensures id in t'.deleted <==> t'.upTo.Some? && id <= t'.upTo.value
    {
      if id in t'.deleted {
        assert id in logs;
        assert exists k :: 0 <= k < |logs| && logs[k] == id;
      }
    }
  }

  lemma ReadKeptKeeps(s: State, id: nat)
    requires id in s.txns && !s.txns[id].job.Publish? && TxnOk(s.db, s.history, s.txns[id])
    requires forall x :: x in s.db.messages ==> 1 <= x <= s.db.counter
    requires s.txns[id].next == ReadKept
    ensures TxnOk(s.db, s.history, ExecSweep(s, id).value.txns[id])
  {
    var t := s.txns[id];
    FirstKeptIsFirst(s.db.messages, t.job.Topic(), t.job.threshold, s.db.counter);
    FirstKeptIsKept(s.db.messages, t.job.Topic(), t.job.threshold, s.db.counter);
  }

  lemma SweepStatementKeeps(s: State, id: nat)
    requires Inv(s) && id in s.txns && !s.txns[id].job.Publish?
    requires s.txns[id].next != Commit
    requires ExecSweep(s, id).Some?
    ensures Inv(ExecSweep(s, id).value)
  {
    var t := ExecSweep(s, id).value.txns[id];
    SameRows(s, id, t);
    if s.txns[id].next == SelectFrames {
      SelectKeeps(s, id);
    } else if s.txns[id].next == ReadKept {
      ReadKeptKeeps(s, id);
    }
    assert TxnOk(s.db, s.history, t);
    SetKeeps(s, id, t);
  }

  // ------------------------------------------------------------------------------------------
  // Commit.

  ghost predicate Committing(s: State, id: nat) {
    Inv(s) && id in s.txns && s.txns[id].next == Commit
  }

  ghost predicate Settled(s: State, id: nat) {
    && id in s.txns && s.txns[id].next == Commit
    && TxnOk(s.db, s.history, s.txns[id])
    && Counted(s.db, s.history) && Heads(s.db, s.history) && Retention(s.db, s.history)
  }

  /** What a commit adds to a topic's log: a log publish's own ID, on its own topic. */
  lemma CommitAccepts(s: State, id: nat, topic: string)
    requires Settled(s, id)
    ensures var t := s.txns[id];
            Accepted(CommitTxn(s, id).history, topic) ==
            Accepted(s.history, topic) +
            (if t.job.LogPublish() && t.job.Topic() == topic then [t.minted.value] else [])
  {
    var t := s.txns[id];
    if t.job.Publish? {
      var p := t.job.params;
      AcceptedAppend(s.history, Accept(t.minted.value, p.topic, p.retain, p.expected, RequestKey(p)), topic);
    }
  }

  lemma CommitCounts(s: State, id: nat)
    requires Settled(s, id)
    ensures Counted(CommitTxn(s, id).db, CommitTxn(s, id).history)
  {
  }

  /** The watermark a commit leaves: raised past what the transaction deleted of its own topic's log. */
  lemma CommitRemoved(s: State, id: nat, topic: string)
    requires Settled(s, id)
    ensures var t := s.txns[id];
            StoredRemoved(CommitTxn(s, id).db, topic) ==
            if t.job.Topic() == topic then Raise(StoredRemoved(s.db, topic), t.upTo) else StoredRemoved(s.db, topic)
  {
  }

  lemma CommitHeads(s: State, id: nat)
    requires Settled(s, id)
    ensures Heads(CommitTxn(s, id).db, CommitTxn(s, id).history)
  {
    var s' := CommitTxn(s, id);
    forall topic
      ensures Last(Accepted(s'.history, topic)) == StoredHead(s'.db, topic)
      ensures topic in s'.db.topics && s'.db.topics[topic].removed.Some? ==>
                s'.db.topics[topic].removed.value in Accepted(s'.history, topic)
    {
      CommitHead(s, id, topic);
    }
  }

  lemma CommitHead(s: State, id: nat, topic: string)
    requires Settled(s, id)
    ensures var s' := CommitTxn(s, id);
            && Last(Accepted(s'.history, topic)) == StoredHead(s'.db, topic)
            && (topic in s'.db.topics && s'.db.topics[topic].removed.Some? ==>
                  s'.db.topics[topic].removed.value in Accepted(s'.history, topic))
  {
    hide Retention;
    CommitAccepts(s, id, topic);
    CommitRemoved(s, id, topic);
    assert Last(Accepted(s.history, topic)) == StoredHead(s.db, topic);
  }

  lemma CommitRetains(s: State, id: nat)
    requires Settled(s, id)
    ensures RowsAccepted(CommitTxn(s, id).db, CommitTxn(s, id).history)
  {
    var db, history := CommitTxn(s, id).db, CommitTxn(s, id).history;
    forall x | x in db.messages && db.messages[x].retain == Log
      ensures x in Accepted(history, db.messages[x].topic) && After(x, StoredRemoved(db, db.messages[x].topic))
    {
      CommitKeepsRow(s, id, x);
    }
  }

  lemma CommitServesAll(s: State, id: nat)
    requires Settled(s, id)
    ensures AcceptedServed(CommitTxn(s, id).db, CommitTxn(s, id).history)
  {
    var s' := CommitTxn(s, id);
    forall x, topic | x in Accepted(s'.history, topic) && After(x, StoredRemoved(s'.db, topic))
      ensures x in s'.db.messages && IsLog(s'.db.messages[x], topic)
    {
      CommitServes(s, id, x, topic);
    }
  }

  /** An accepted log publish above the watermark a commit leaves is still there. */
  lemma CommitServes(s: State, id: nat, x: nat, topic: string)
    requires Settled(s, id)
    requires x in Accepted(CommitTxn(s, id).history, topic) && After(x, StoredRemoved(CommitTxn(s, id).db, topic))
    ensures x in CommitTxn(s, id).db.messages && IsLog(CommitTxn(s, id).db.messages[x], topic)
  {
    CommitAccepts(s, id, topic);
    AcceptedBounded(s, topic);
    if x in Accepted(s.history, topic) {
      OldFrameServed(s, id, x, topic);
    } else {
      OwnFrameServed(s, id);
    }
  }

  lemma OldFrameServed(s: State, id: nat, x: nat, topic: string)
    requires Settled(s, id) && x in Accepted(s.history, topic) && x <= s.db.counter
    requires After(x, StoredRemoved(CommitTxn(s, id).db, topic))
    ensures x in CommitTxn(s, id).db.messages && IsLog(CommitTxn(s, id).db.messages[x], topic)
  {
    hide Heads;
    WatermarkRises(s, id, topic);
    assert x in s.db.messages && IsLog(s.db.messages[x], topic);
    assert x !in s.txns[id].deleted;
  }

  lemma OwnFrameServed(s: State, id: nat)
    requires Settled(s, id) && s.txns[id].job.LogPublish()
    requires After(s.txns[id].minted.value, StoredRemoved(CommitTxn(s, id).db, s.txns[id].job.Topic()))
    ensures var db, x := CommitTxn(s, id).db, s.txns[id].minted.value;
            x in db.messages && IsLog(db.messages[x], s.txns[id].job.Topic())
  {
    hide Heads, Retention;
    WatermarkRises(s, id, s.txns[id].job.Topic());
  }

  /** A commit raises its topic's watermark past what it deletes, and no watermark falls. */
  lemma WatermarkRises(s: State, id: nat, topic: string)
    requires Settled(s, id)
    ensures var before, after := StoredRemoved(s.db, topic), StoredRemoved(CommitTxn(s, id).db, topic);
            && (before.Some? ==> after.Some? && before.value <= after.value)
            && (s.txns[id].job.Topic() == topic && s.txns[id].upTo.Some? ==>
                  after.Some? && s.txns[id].upTo.value <= after.value)
  {
    hide CommitTxn, TxnOk, Counted, Heads, Retention;
    CommitRemoved(s, id, topic);
  }

  lemma AcceptedBounded(s: State, topic: string)
    requires Counted(s.db, s.history)
    ensures forall x :: x in Accepted(s.history, topic) ==> 1 <= x <= s.db.counter
  {
    AcceptedMembers(s.history, topic);
  }

  lemma CommitRowOrigin(s: State, id: nat, x: nat)
    requires Settled(s, id) && x in CommitTxn(s, id).db.messages
    ensures var t, f := s.txns[id], CommitTxn(s, id).db.messages[x];
            && x !in t.deleted
            && ((x in s.db.messages && f == s.db.messages[x]) || (t.minted == Some(x) && t.frame == Some(f)))
  {
  }

  /** A log row standing after a commit was accepted and is above the watermark the commit leaves. */
  lemma CommitKeepsRow(s: State, id: nat, x: nat)
    requires Settled(s, id)
    requires x in CommitTxn(s, id).db.messages && CommitTxn(s, id).db.messages[x].retain == Log
    ensures var db := CommitTxn(s, id).db;
            && x in Accepted(CommitTxn(s, id).history, db.messages[x].topic)
            && After(x, StoredRemoved(db, db.messages[x].topic))
  {
    var t := s.txns[id];
    var topic := CommitTxn(s, id).db.messages[x].topic;
    CommitRowOrigin(s, id, x);
    CommitRemoved(s, id, topic);
    CommitAccepts(s, id, topic);
    if x in s.db.messages {
      OldRowStays(s, id, x);
    } else {
      OwnRowStays(s, id, x);
    }
  }

  lemma OldRowStays(s: State, id: nat, x: nat)
    requires Settled(s, id) && x in s.db.messages && x !in s.txns[id].deleted
    requires s.db.messages[x].retain == Log
    ensures var topic := s.db.messages[x].topic;
            && x in Accepted(s.history, topic)
            && After(x, StoredRemoved(s.db, topic))
            && (s.txns[id].job.Topic() == topic ==> After(x, Raise(StoredRemoved(s.db, topic), s.txns[id].upTo)))
  {
  }

  lemma OwnRowStays(s: State, id: nat, x: nat)
    requires Settled(s, id) && x !in s.db.messages && x !in s.txns[id].deleted
    requires s.txns[id].minted == Some(x) && s.txns[id].frame.Some? && s.txns[id].frame.value.retain == Log
    ensures var topic := s.txns[id].job.Topic();
            && s.txns[id].job.LogPublish() && s.txns[id].frame.value.topic == topic
            && After(x, Raise(StoredRemoved(s.db, topic), s.txns[id].upTo))
  {
    AcceptedBounded(s, s.txns[id].job.Topic());
    assert Last(Accepted(s.history, s.txns[id].job.Topic())) == StoredHead(s.db, s.txns[id].job.Topic());
  }

  lemma CommitRecords(s: State, id: nat)
    requires Settled(s, id) && Recorded(s.db, s.history, s.answers)
    ensures Recorded(CommitTxn(s, id).db, CommitTxn(s, id).history, CommitTxn(s, id).answers)
  {
    hide Heads, Retention;
    var s' := CommitTxn(s, id);
    forall key | key in s'.db.publishIDs
      ensures s'.db.publishIDs[key].Some? && AcceptedAs(s'.history, key, s'.db.publishIDs[key].value)
    {
      if key in s.db.publishIDs {
        var seqID := s.db.publishIDs[key].value;
        var i :| 0 <= i < |s.history| && s.history[i].key == Some(key) && s.history[i].seqID == seqID;
        assert s'.history[i] == s.history[i];
      } else {
        assert s'.history[|s.history|].key == Some(key);
      }
    }
  }

  lemma CommitChains(s: State, id: nat)
    requires Committing(s, id)
    ensures Chained(CommitTxn(s, id).history)
  {
    var s', t := CommitTxn(s, id), s.txns[id];
    forall i | 0 <= i < |s'.history| && s'.history[i].retain == Log && s'.history[i].expected.Exactly?
      ensures s'.history[i].expected.head == Last(Accepted(s'.history[..i], s'.history[i].topic))
    {
      if i < |s.history| {
        assert s'.history[..i] == s.history[..i];
      } else {
        assert s'.history[..i] == s.history;
        assert Last(Accepted(s.history, t.job.Topic())) == StoredHead(s.db, t.job.Topic());
      }
    }
  }

  /** What a commit by one transaction leaves as another one found it. */
  ghost predicate Undisturbed(db: Tables, history: seq<Accept<PublishKey>>,
                              db': Tables, history': seq<Accept<PublishKey>>, u: Txn)
  {
    var topic := u.job.Topic();
    && db.counter <= db'.counter
    && (u.minted.Some? ==> db.counter == db'.counter)
    && (forall id :: id in db'.messages ==>
          if id <= db.counter then id in db.messages && db'.messages[id] == db.messages[id]
          else u.minted.None? && (u.topicLock ==> !IsLog(db'.messages[id], topic)))
    && (u.topicLock ==>
          && (topic in db.topics <==> topic in db'.topics)
          && (topic in db.topics ==> db.topics[topic] == db'.topics[topic])
          && (forall id :: id in db.messages && IsLog(db.messages[id], topic) ==>
                id in db'.messages && db'.messages[id] == db.messages[id]))
    && (forall x :: x in Accepted(history, topic) ==> x in Accepted(history', topic))
    && (u.claim.Some? && u.job.Publish? && u.job.params.publishID.Some? && Key(u.job.params) !in db.publishIDs ==>
          Key(u.job.params) !in db'.publishIDs)
  }

  lemma CommitUndisturbs(s: State, id: nat, j: nat)
    requires Settled(s, id) && j in s.txns && j != id
    requires Compatible(s.txns[id], s.txns[j]) && Compatible(s.txns[j], s.txns[id])
    requires s.txns[j].minted.Some? ==> s.txns[j].job.Publish?
    ensures Undisturbed(s.db, s.history, CommitTxn(s, id).db, CommitTxn(s, id).history, s.txns[j])
  {
    CommitAccepts(s, id, s.txns[j].job.Topic());
    if s.txns[j].topicLock { CommitSparesLockedLog(s, id, s.txns[j].job.Topic()); }
  }

  /** Without the topic row a commit deletes none of the topic's log. */
  lemma CommitSparesLockedLog(s: State, id: nat, topic: string)
    requires Settled(s, id) && !(s.txns[id].topicLock && s.txns[id].job.Topic() == topic)
    ensures var db' := CommitTxn(s, id).db;
            forall x :: x in s.db.messages && IsLog(s.db.messages[x], topic) ==>
              x in db'.messages && db'.messages[x] == s.db.messages[x]
  {
  }

  ghost predicate Bounded(db: Tables, u: Txn) {
    && (forall id :: id in db.messages ==> id <= db.counter)
    && (u.upTo.Some? ==> u.upTo.value <= db.counter || u.upTo == u.minted)
  }

  lemma UndisturbedPrefix(db: Tables, h: seq<Accept<PublishKey>>, db': Tables, h': seq<Accept<PublishKey>>, u: Txn)
    requires PrefixDelete(db, u) && Undisturbed(db, h, db', h', u) && Bounded(db, u)
    requires u.minted.Some? ==> u.minted.value == db.counter + 1
    ensures PrefixDelete(db', u)
  {
  }

  lemma UndisturbedPublish(db: Tables, h: seq<Accept<PublishKey>>, db': Tables, h': seq<Accept<PublishKey>>, u: Txn)
    requires u.job.Publish? && TxnOk(db, h, u) && Undisturbed(db, h, db', h', u) && Bounded(db, u)
    ensures TxnOk(db', h', u)
  {
    UndisturbedPrefix(db, h, db', h', u);
  }

  lemma UndisturbedSweep(db: Tables, h: seq<Accept<PublishKey>>, db': Tables, h': seq<Accept<PublishKey>>, u: Txn)
    requires !u.job.Publish? && TxnOk(db, h, u) && Undisturbed(db, h, db', h', u) && Bounded(db, u)
    ensures TxnOk(db', h', u)
  {
    UndisturbedPrefix(db, h, db', h', u);
    if u.job.Purge? && u.head.Some? && KeepsUndue(db, u) {
      assert KeepsUndue(db', u);
    }
  }

  /** A commit leaves every other transaction consistent with the tables it commits over next. */
  lemma CommitLeavesOther(s: State, id: nat, j: nat)
    requires Committing(s, id) && j in s.txns && j != id
    ensures TxnOk(CommitTxn(s, id).db, CommitTxn(s, id).history, s.txns[j])
  {
    var s', u := CommitTxn(s, id), s.txns[j];
    assert Compatible(s.txns[id], u) && Compatible(u, s.txns[id]);
    CommitUndisturbs(s, id, j);
    AcceptedBounded(s, u.job.Topic());
    if u.job.Publish? {
      UndisturbedPublish(s.db, s.history, s'.db, s'.history, u);
    } else {
      UndisturbedSweep(s.db, s.history, s'.db, s'.history, u);
    }
  }

  lemma CommitKeeps(s: State, id: nat)
    requires Committing(s, id)
    ensures Inv(CommitTxn(s, id))
  {
    CommitCounts(s, id);
    CommitHeads(s, id);
    CommitRetains(s, id);
    CommitServesAll(s, id);
    CommitRecords(s, id);
    CommitChains(s, id);
    var s' := CommitTxn(s, id);
    forall j | j in s'.txns ensures TxnOk(s'.db, s'.history, s'.txns[j]) {
      CommitLeavesOther(s, id, j);
    }
  }

  // ------------------------------------------------------------------------------------------
  // Every run.

  lemma StepKeeps(s: State, e: Event)
    requires Inv(s) && Next(s, e).Some?
    ensures Inv(Next(s, e).value)
  {
    match e
    case Begin(id, job) => SetKeeps(s, id, Start(job));
    case Abort(id) => DropKeeps(s, id);
    case Exec(id, input) =>
      if s.txns[id].next == Commit {
        CommitKeeps(s, id);
      } else if !s.txns[id].job.Publish? {
        SweepStatementKeeps(s, id);
      } else if s.txns[id].next == Evict {
        EvictKeeps(s, id, input);
      } else if s.txns[id].next == ReadRecord {
        ReadRecordKeeps(s, id, input);
      } else {
        PublishStatementKeeps(s, id, input);
      }
  }

  lemma {:induction false} RunKeeps(s: State, events: seq<Event>)
    requires Inv(s) && Run(s, events).Some?
    ensures Inv(Run(s, events).value)
    decreases |events|
  {
    if events != [] {
      StepKeeps(s, events[0]);
      RunKeeps(Next(s, events[0]).value, events[1..]);
    }
  }
}
