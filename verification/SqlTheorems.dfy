/**
  What the SQL hub store promises its readers and writers, over every interleaving: cursor safety,
  prefix-only removal, no silent loss, a compare-and-set chain, and exactly-once publishing.
 */
module SqlTheorems {
  import opened Wrappers
  import opened LogReader
  import opened PublishHistory
  import opened SqlStore
  import opened SqlInvariant

  ghost predicate Reachable(s: State) {
    exists depth, events :: Run(Initial(depth), events) == Some(s)
  }

  lemma ReachableKeeps(s: State)
    requires Reachable(s)
    ensures Inv(s)
  {
    var depth, events :| Run(Initial(depth), events) == Some(s);
    RunKeeps(Initial(depth), events);
  }

  // ------------------------------------------------------------------------------------------
  // Cursor safety.

  /** Only a commit changes a committed table: a publish that loses or aborts leaves them all alone. */
  lemma OnlyCommitWrites(s: State, e: Event)
    requires Next(s, e).Some?
    ensures var s' := Next(s, e).value;
            (s'.db == s.db && s'.history == s.history)
            || (e.Exec? && e.id in s.txns && s.txns[e.id].next == Commit && s' == CommitTxn(s, e.id))
  {
  }

  lemma StepIsCursorSafe(s: State, e: Event)
    requires Inv(s) && Next(s, e).Some?
    ensures var s' := Next(s, e).value;
            && s.db.counter <= s'.db.counter
            && (forall id :: id in s'.db.messages && id <= s.db.counter ==>
                  id in s.db.messages && s'.db.messages[id] == s.db.messages[id])
  {
    OnlyCommitWrites(s, e);
  }

  lemma HeadIsCounted(s: State, topic: string)
    requires Inv(s) && topic in s.db.topics
    ensures s.db.topics[topic].head <= s.db.counter
  {
    AcceptedBounded(s, topic);
    assert Last(Accepted(s.history, topic)) == StoredHead(s.db, topic);
    assert s.db.topics[topic].head in Accepted(s.history, topic);
  }

  /**
    IDs become visible in increasing order: a frame seen later at or below the counter of an
    earlier snapshot was already there in that snapshot. A cursor never skips a frame that
    turns up behind it.
   */
  lemma {:induction false} CursorSafety(s: State, events: seq<Event>)
    requires Inv(s) && Run(s, events).Some?
    ensures var s' := Run(s, events).value;
            && s.db.counter <= s'.db.counter
            && (forall id :: id in s'.db.messages && id <= s.db.counter ==>
                  id in s.db.messages && s'.db.messages[id] == s.db.messages[id])
            && (forall topic :: topic in s.db.topics ==> s.db.topics[topic].head <= s.db.counter)
    decreases |events|
  {
    forall topic | topic in s.db.topics ensures s.db.topics[topic].head <= s.db.counter {
      HeadIsCounted(s, topic);
    }
    if events != [] {
      StepKeeps(s, events[0]);
      StepIsCursorSafe(s, events[0]);
      CursorSafety(Next(s, events[0]).value, events[1..]);
    }
  }

  // ------------------------------------------------------------------------------------------
  // The log a reader sees.

  lemma ViewIsValid(s: State, topic: string)
    requires Inv(s)
    ensures LogReader.Valid(View(s, topic))
  {
    AcceptedIncreasing(s.history, topic);
    assert Last(Accepted(s.history, topic)) == StoredHead(s.db, topic);
  }

  lemma RetainedMembers(s: State, topic: string)
    requires Inv(s)
    ensures forall x :: x in Retained(View(s, topic)) <==>
              1 <= x <= s.db.counter && x in s.db.messages && IsLog(s.db.messages[x], topic)
  {
    AboveMembers(Accepted(s.history, topic), StoredRemoved(s.db, topic));
    AcceptedBounded(s, topic);
    forall x | x in Retained(View(s, topic))
      ensures 1 <= x <= s.db.counter && x in s.db.messages && IsLog(s.db.messages[x], topic)
    {
      assert x in Accepted(s.history, topic);
    }
  }

  /** Prefix-only removal: the rows still stored are the accepted ones above the watermark, in order. */
  lemma PrefixOnlyRemoval(s: State, topic: string)
    requires Inv(s)
    ensures LogRows(s.db.messages, topic, s.db.counter) == Retained(View(s, topic))
  {
    RetainedMembers(s, topic);
    LogRowsMembers(s.db.messages, topic, s.db.counter);
    ViewIsValid(s, topic);
    AboveIsSuffix(Accepted(s.history, topic), StoredRemoved(s.db, topic));
    IncreasingUnique(LogRows(s.db.messages, topic, s.db.counter), Retained(View(s, topic)));
  }

  /** The SQL `fetchTopic` answers what the abstract reader is promised. */
  lemma FetchTopicIsPage(s: State, topic: string, after: Option<nat>, limit: Option<nat>)
    requires Inv(s)
    ensures FetchTopic(s.db, topic, after, limit) == Page(View(s, topic), after, limit)
  {
    PrefixOnlyRemoval(s, topic);
  }

  /** Neither a topic's accepted log nor its watermark ever moves back. */
  lemma StepGrows(s: State, e: Event, topic: string)
    requires Inv(s) && Next(s, e).Some?
    ensures Grows(View(s, topic), View(Next(s, e).value, topic))
  {
    OnlyCommitWrites(s, e);
    if e.Exec? && e.id in s.txns && s.txns[e.id].next == Commit {
      CommitAccepts(s, e.id, topic);
      WatermarkRises(s, e.id, topic);
    }
  }

  lemma {:induction false} RunGrows(s: State, events: seq<Event>, topic: string)
    requires Inv(s) && Run(s, events).Some?
    ensures Grows(View(s, topic), View(Run(s, events).value, topic))
    decreases |events|
  {
    if events != [] {
      var s1 := Next(s, events[0]).value;
      StepKeeps(s, events[0]);
      StepGrows(s, events[0], topic);
      RunGrows(s1, events[1..], topic);
    }
  }

  /** A page taken in one state of a run. */
  datatype Fetch = Fetch(state: State, limit: Option<nat>)

  ghost predicate Interleaved(fetches: seq<Fetch>) {
    && (forall i :: 0 <= i < |fetches| ==> Inv(fetches[i].state))
    && (forall i :: 0 <= i < |fetches| - 1 ==>
          exists events :: Run(fetches[i].state, events) == Some(fetches[i + 1].state))
  }

  function Requests(fetches: seq<Fetch>, topic: string): seq<PageRequest> {
    seq(|fetches|, i requires 0 <= i < |fetches| => PageRequest(View(fetches[i].state, topic), fetches[i].limit))
  }

  /** A reader of the SQL store: `fetchTopic` in each state, the cursor carried along. */
  function SqlDrain(fetches: seq<Fetch>, topic: string, cursor: Option<nat>): Drained
    decreases |fetches|
  {
    if fetches == [] then Drained([], cursor, false)
    else
      var page := FetchTopic(fetches[0].state.db, topic, cursor, fetches[0].limit);
      var rest := SqlDrain(fetches[1..], topic, Advance(cursor, page.messages));
      Drained(page.messages + rest.collected, rest.cursor, page.gap || rest.sawGap)
  }

  lemma RequestsTail(fetches: seq<Fetch>, topic: string)
    requires fetches != []
    ensures Requests(fetches, topic)[1..] == Requests(fetches[1..], topic)
  {
  }

  lemma {:induction false} SqlDrainIsDrain(fetches: seq<Fetch>, topic: string, cursor: Option<nat>)
    requires forall i :: 0 <= i < |fetches| ==> Inv(fetches[i].state)
    ensures SqlDrain(fetches, topic, cursor) == Drain(Requests(fetches, topic), cursor)
    decreases |fetches|
  {
    if fetches != [] {
      FetchTopicIsPage(fetches[0].state, topic, cursor, fetches[0].limit);
      var page := FetchTopic(fetches[0].state.db, topic, cursor, fetches[0].limit);
      RequestsTail(fetches, topic);
      SqlDrainIsDrain(fetches[1..], topic, Advance(cursor, page.messages));
    }
  }

  lemma RequestsTimeline(fetches: seq<Fetch>, topic: string)
    requires Interleaved(fetches)
    ensures Timeline(Requests(fetches, topic))
  {
    forall i | 0 <= i < |fetches| ensures LogReader.Valid(Requests(fetches, topic)[i].view) {
      ViewIsValid(fetches[i].state, topic);
    }
    forall i | 0 <= i < |fetches| - 1
      ensures Grows(Requests(fetches, topic)[i].view, Requests(fetches, topic)[i + 1].view)
    {
      var events :| Run(fetches[i].state, events) == Some(fetches[i + 1].state);
      RunGrows(fetches[i].state, events, topic);
    }
  }

  /**
    A reader draining a topic, whatever transactions run between its pages, is told of a gap or has
    every log frame ever committed between its first and last cursors, each once and in order.
   */
  lemma SqlNoSilentLoss(fetches: seq<Fetch>, topic: string, cursor: Option<nat>)
    requires Interleaved(fetches) && fetches != []
    requires !SqlDrain(fetches, topic, cursor).sawGap
    ensures var d := SqlDrain(fetches, topic, cursor);
            var accepted := Accepted(fetches[|fetches| - 1].state.history, topic);
            && Increasing(d.collected)
            && (forall x :: x in d.collected <==> x in accepted && After(x, cursor) && !After(x, d.cursor))
  {
    var pages := Requests(fetches, topic);
    var last := fetches[|fetches| - 1].state;
    SqlDrainIsDrain(fetches, topic, cursor);
    RequestsTimeline(fetches, topic);
    NoSilentLoss(pages, cursor);
    AcceptedIncreasing(last.history, topic);
    BetweenExactlyOnce(Accepted(last.history, topic), cursor, Drain(pages, cursor).cursor);
  }

  // ------------------------------------------------------------------------------------------
  // What may remove a frame.

  /** Why a transaction may remove a frame that was committed. */
  ghost predicate MayRemove(t: Txn, id: nat, f: Frame) {
    && f.topic == t.job.Topic()
    && match t.job
       case Publish(params) => params.retain == Log && f.retain == Log
       case Trim(_, before) => f.retain == Log && id < before
       case Purge(_, threshold) => f.storedAt <= threshold && (f.retain == Log ==> t.head.Some?)
  }

  /**
    A frame leaves the store only by depth eviction of its own topic's log, by a trim above it, or
    by a purge it was due for, whichever way the clock moved. A purge that found no topic row
    removes no log frame, not even one committed while it ran.
   */
  lemma RemovalIsEntitled(s: State, e: Event, id: nat)
    requires Inv(s) && Next(s, e).Some?
    requires id in s.db.messages && id !in Next(s, e).value.db.messages
    ensures e.Exec? && e.id in s.txns && s.txns[e.id].next == Commit
    ensures MayRemove(s.txns[e.id], id, s.db.messages[id])
  {
    OnlyCommitWrites(s, e);
    var t := s.txns[e.id];
    assert id in t.deleted;
    assert TxnOk(s.db, s.history, t);
  }

  /** Depth eviction leaves the newest `depth` log rows the publish can see, its own among them. */
  lemma EvictionKeepsNewest(s: State, id: nat)
    requires id in s.txns && s.txns[id].job.Publish? && s.txns[id].next == Evict
    requires TxnOk(s.db, s.history, s.txns[id]) && Counted(s.db, s.history) && Retention(s.db, s.history)
    requires s.depth.Some?
    ensures var t, bound := s.txns[id], s.db.counter + 1;
            var before := LogRows(Visible(s.db, t), t.job.Topic(), bound);
            var after := LogRows(Visible(s.db, EvictDepth(s.db, t, s.depth)), t.job.Topic(), bound);
            after == if |before| <= s.depth.value then before else before[|before| - s.depth.value..]
  {
    hide LogRows, Visible, Counted, Retention;
    var t, bound := s.txns[id], s.db.counter + 1;
    var before := LogRows(Visible(s.db, t), t.job.Topic(), bound);
    if |before| > s.depth.value {
      var n := |before| - s.depth.value;
      var t' := Evicted(t, (set x | x in before[..n]), Last(before[..n]));
      assert EvictDepth(s.db, t, s.depth) == t';
      EvictedVisible(s.db, s.history, t, (set x | x in before[..n]), Last(before[..n]));
      RowsAfterEviction(Visible(s.db, t), Visible(s.db, t'), before, n, t.job.Topic(), bound);
    } else {
      NextLeavesVisible(s.db, t, Complete);
    }
  }

  /** Where a transaction stands does not change what it sees. */
  lemma NextLeavesVisible(db: Tables, t: Txn, next: Statement)
    ensures Visible(db, t.(next := next)) == Visible(db, t)
  {
  }

  lemma EvictedVisible(db: Tables, history: seq<Accept<PublishKey>>, t: Txn, evict: set<nat>, last: Option<nat>)
    requires TxnOk(db, history, t) && t.job.Publish? && t.next == Evict
    ensures Visible(db, Evicted(t, evict, last)) == Visible(db, t) - evict
  {
  }

  lemma RowsAfterEviction(rows: map<nat, Frame>, rest: map<nat, Frame>, logs: seq<nat>, n: nat, topic: string,
      bound: nat)
    requires logs == LogRows(rows, topic, bound) && n <= |logs|
    requires rest == rows - (set x | x in logs[..n])
    ensures LogRows(rest, topic, bound) == logs[n..]
  {
    LogRowsMembers(rows, topic, bound);
    LogRowsMembers(rest, topic, bound);
    TailMembers(logs, n);
    IncreasingUnique(LogRows(rest, topic, bound), logs[n..]);
  }

  /**
    What a purge read is still true when it selects, whatever ran in between: while it holds the
    topic row, the first frame it keeps is the first one not due.
   */
  lemma FirstKeptIsCurrent(s: State, id: nat)
    requires Inv(s) && id in s.txns && s.txns[id].job.Purge?
    requires s.txns[id].next == SelectFrames && s.txns[id].head.Some?
    ensures var t := s.txns[id];
            t.firstKept == FirstKept(s.db.messages, t.job.purgeTopic, t.job.threshold, s.db.counter)
  {
    assert TxnOk(s.db, s.history, s.txns[id]);
    FirstKeptIsUnique(s.db, s.txns[id]);
  }

  lemma FirstKeptIsUnique(db: Tables, t: Txn)
    requires t.job.Purge? && KeepsUndue(db, t) && KeptStands(db, t)
    requires forall id :: id in db.messages ==> 1 <= id <= db.counter
    ensures t.firstKept == FirstKept(db.messages, t.job.purgeTopic, t.job.threshold, db.counter)
  {
    FirstKeptIsFirst(db.messages, t.job.purgeTopic, t.job.threshold, db.counter);
    FirstKeptIsKept(db.messages, t.job.purgeTopic, t.job.threshold, db.counter);
  }

  /**
    A purge that holds the topic row takes a log frame exactly when it and every log frame stored
    below it is due, and a mailbox frame exactly when it is due: as the tables stand when it
    selects, not when it read them.
   */
  lemma PurgeTakesTheDuePrefix(s: State, id: nat, x: nat)
    requires Inv(s) && id in s.txns && s.txns[id].job.Purge?
    requires s.txns[id].next == SelectFrames && s.txns[id].head.Some?
    requires x in s.db.messages && s.db.messages[x].topic == s.txns[id].job.purgeTopic
    ensures var t := s.txns[id];
            x in Select(s.db, t).deleted <==>
              if s.db.messages[x].retain == Mailbox then s.db.messages[x].storedAt <= t.job.threshold
              else forall y :: y in s.db.messages && IsLog(s.db.messages[y], t.job.purgeTopic) && y <= x ==>
                     s.db.messages[y].storedAt <= t.job.threshold
  {
    var t, topic := s.txns[id], s.txns[id].job.purgeTopic;
    assert TxnOk(s.db, s.history, t);
    if s.db.messages[x].retain == Log {
      var accepted := Accepted(s.history, topic);
      AcceptedIncreasing(s.history, topic);
      assert x in accepted && Last(accepted) == StoredHead(s.db, topic);
      var k :| 0 <= k < |accepted| && accepted[k] == x;
      assert x <= t.head.value;
    }
  }

  // ------------------------------------------------------------------------------------------
  // The compare-and-set chain.

  /** Each conditional log publish named, as its expected head, the log publish committed before it. */
  lemma CasChain(s: State, i: nat)
    requires Reachable(s)
    requires i < |s.history| && s.history[i].retain == Log && s.history[i].expected.Exactly?
    ensures s.history[i].expected.head == Last(Accepted(s.history[..i], s.history[i].topic))
  {
    ReachableKeeps(s);
  }

  /** No two committed conditional publishes on a topic replaced the same head. */
  lemma HeadIsReplacedOnce(s: State, i: nat, j: nat)
    requires Reachable(s) && i < j < |s.history|
    requires s.history[i].retain == Log && s.history[i].expected.Exactly?
    requires s.history[j].retain == Log && s.history[j].expected.Exactly?
    requires s.history[i].topic == s.history[j].topic
    ensures s.history[i].expected.head != s.history[j].expected.head
  {
    ReachableKeeps(s);
    CasChain(s, i);
    CasChain(s, j);
    var topic := s.history[i].topic;
    AcceptedMembers(s.history[..j], topic);
    AcceptedMembers(s.history[..i], topic);
    assert s.history[..j][i] == s.history[i];
    assert s.history[i].seqID in Accepted(s.history[..j], topic);
    AcceptedIncreasing(s.history[..j], topic);
    var later := Accepted(s.history[..j], topic);
    var k :| 0 <= k < |later| && later[k] == s.history[i].seqID;
    assert later[|later| - 1] >= s.history[i].seqID;
    var earlier := Accepted(s.history[..i], topic);
    if earlier != [] {
      assert earlier[|earlier| - 1] in earlier;
    }
  }

  lemma StoredHeadRises(s: State, e: Event, topic: string)
    requires Inv(s) && Next(s, e).Some? && topic in s.db.topics
    ensures topic in Next(s, e).value.db.topics
    ensures s.db.topics[topic].head <= Next(s, e).value.db.topics[topic].head
  {
    OnlyCommitWrites(s, e);
    HeadIsCounted(s, topic);
  }

  /** A stored head only moves up, and is never lost, whatever is trimmed or purged. */
  lemma {:induction false} HeadsOnlyIncrease(s: State, events: seq<Event>, topic: string)
    requires Inv(s) && Run(s, events).Some?
    requires topic in s.db.topics
    ensures topic in Run(s, events).value.db.topics
    ensures s.db.topics[topic].head <= Run(s, events).value.db.topics[topic].head
    decreases |events|
  {
    hide Inv, Next;
    if events != [] {
      var s1 := Next(s, events[0]).value;
      StepKeeps(s, events[0]);
      StoredHeadRises(s, events[0], topic);
      HeadsOnlyIncrease(s1, events[1..], topic);
    }
  }

  // ------------------------------------------------------------------------------------------
  // Exactly once.

  /**
    Publishes with one (topic, publishID), however they race, append once; every one of them that
    returns, returns the ID of that one append; and no committed record lacks its ID.
   */
  lemma ExactlyOnce(s: State)
    requires Reachable(s)
    ensures forall i, j :: 0 <= i < j < |s.history| && s.history[i].key.Some? ==> s.history[i].key != s.history[j].key
    ensures forall k :: 0 <= k < |s.answers| ==> AcceptedAs(s.history, s.answers[k].key, s.answers[k].seqID)
    ensures forall key :: key in s.db.publishIDs ==> s.db.publishIDs[key].Some?
  {
    ReachableKeeps(s);
  }

  /** A replay is answered with its original ID whatever head it expects: dedup comes before the CAS. */
  lemma ReplayIsAnswered(s: State, id: nat, input: Input, i: nat)
    requires Reachable(s) && id in s.txns && s.txns[id].job.Publish? && s.txns[id].next == Claim
    requires i < |s.history| && s.history[i].key.Some?
    requires RequestKey(s.txns[id].job.params) == s.history[i].key
    ensures var events := [Exec(id, input), Exec(id, input)];
            && Run(s, events).Some?
            && Run(s, events).value.db == s.db
            && Run(s, events).value.answers == s.answers + [Answer(s.history[i].key.value, s.history[i].seqID, true)]
  {
    ReachableKeeps(s);
    var p, key := s.txns[id].job.params, s.history[i].key.value;
    assert key in s.db.publishIDs && s.db.publishIDs[key] == Some(s.history[i].seqID);
    forall j | j in s.txns && j != id ensures !HoldsKey(s.txns[j], key) {
      assert TxnOk(s.db, s.history, s.txns[j]);
    }
    var e := Exec(id, input);
    var s1 := Next(s, e).value;
    assert s1.txns[id].next == ReadRecord;
    var s2 := Next(s1, e).value;
    assert [e, e][1..] == [e] && [e][1..] == [];
    assert Run(s2, []) == Some(s2);
    assert Run(s1, [e]) == Some(s2);
  }
}
