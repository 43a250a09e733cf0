/** What the in-memory hub store promises over every run of operations. */
module MemoryTheorems {
  import opened Wrappers
  import opened LogReader
  import opened PublishHistory
  import opened MemoryModel
  import opened MemoryInvariant

  // ------------------------------------------------------------------------------------------
  // Readers.

  lemma ViewIsValid(s: State, topic: string)
    requires LogOk(s)
    ensures LogReader.Valid(View(s, topic))
  {
    AcceptedIncreasing(s.history, topic);
    assert Last(Accepted(s.history, topic)) == Lookup(s.core.heads, topic);
  }

  lemma RetainedMembers(s: State, topic: string)
    requires LogOk(s)
    ensures forall x :: x in Retained(View(s, topic)) <==>
              1 <= x <= s.core.counter && x in s.core.entries && IsLog(s.core.entries[x], topic)
  {
    AboveMembers(Accepted(s.history, topic), Lookup(s.core.removedThrough, topic));
    AcceptedBounded(s, topic);
    forall x | x in Retained(View(s, topic))
      ensures 1 <= x <= s.core.counter && x in s.core.entries && IsLog(s.core.entries[x], topic)
    {
      assert x in Accepted(s.history, topic);
    }
  }

  /** Prefix-only removal: a topic's live log is what was accepted above its watermark, in order. */
  lemma PrefixOnlyRemoval(s: State, topic: string)
    requires LogOk(s)
    ensures LogIDs(s.core.entries, topic, s.core.counter) == Retained(View(s, topic))
  {
    RetainedMembers(s, topic);
    LogIDsMembers(s.core.entries, topic, s.core.counter);
    ViewIsValid(s, topic);
    AboveIsSuffix(Accepted(s.history, topic), Lookup(s.core.removedThrough, topic));
    IncreasingUnique(LogIDs(s.core.entries, topic, s.core.counter), Retained(View(s, topic)));
  }

  lemma ServePageIsPage(s: State, topic: string, after: Option<nat>, limit: Option<nat>)
    requires LogOk(s)
    ensures ServePage(s.core, topic, after, limit) == Page(View(s, topic), after, limit)
  {
    PrefixOnlyRemoval(s, topic);
  }

  /** The gap flag is set exactly when a removed log frame lies after the cursor. */
  lemma GapIsLoss(s: State, topic: string, after: Option<nat>, limit: Option<nat>)
    requires LogOk(s)
    ensures ServePage(s.core, topic, after, limit).gap
        <==> exists x :: x in Accepted(s.history, topic) && After(x, after)
                         && !(x in s.core.entries && IsLog(s.core.entries[x], topic))
  {
    ServePageIsPage(s, topic, after, limit);
    ViewIsValid(s, topic);
    GapIsLossAfterCursor(View(s, topic), after, limit);
    PrefixOnlyRemoval(s, topic);
    LogIDsMembers(s.core.entries, topic, s.core.counter);
    AcceptedBounded(s, topic);
    assert forall x :: x in Accepted(s.history, topic) ==>
      (x in Retained(View(s, topic)) <==> x in s.core.entries && IsLog(s.core.entries[x], topic));
  }

  lemma {:induction false} RemovedGrows(c: Core, ids: seq<nat>, topic: string)
    ensures var before, after := Lookup(c.removedThrough, topic), Lookup(RemoveEntries(c, ids).removedThrough, topic);
            before.Some? ==> after.Some? && before.value <= after.value
    decreases |ids|
  {
    if ids != [] {
      RemovedGrows(RemoveEntry(c, ids[0]), ids[1..], topic);
    }
  }

  lemma {:induction false} DropsKeepWatermark(c: Core, recipient: string, ids: seq<nat>)
    ensures DropDeliveries(c, recipient, ids).removedThrough == c.removedThrough
    decreases |ids|
  {
    if ids != [] {
      DropsKeepWatermark(DropDelivery(c, recipient, ids[0]), recipient, ids[1..]);
    }
  }

  /** Neither a topic's accepted log nor its watermark ever moves back. */
  lemma StepGrows(s: State, op: Op, topic: string, o: Options)
    ensures Grows(View(s, topic), View(Step(s, op, o), topic))
  {
    match op
    case DoPublish(p, now) =>
      if IsNew(s.core, p) {
        var a := Appended(s.core, p, now);
        PublishIsAppendAndEvict(s.core, p, now, o.maxDepth);
        AppendedAccepts(s, p, topic);
        RemovedGrows(a, Overflow(a, p.topic, o.maxDepth), topic);
      }
    case DoTrim(t, before) => RemovedGrows(s.core, Trimmed(s.core, t, before), topic);
    case DoPurge(now, olderThan) => RemovedGrows(s.core, Purged(s.core, now, olderThan, o.defaultRetention), topic);
    case DoAck(recipient, ids) => DropsKeepWatermark(s.core, recipient, ids);
    case DoSubscribe(_, _, _) =>
    case DoUnsubscribe(did, t) => DropsKeepWatermark(Leave(s.core, did, t), did, PendingOn(s.core, did, t));
  }

  lemma {:induction false} RunGrows(s: State, ops: seq<Op>, topic: string, o: Options)
    ensures Grows(View(s, topic), View(Run(s, ops, o), topic))
    decreases |ops|
  {
    if ops != [] {
      StepGrows(s, ops[0], topic, o);
      RunGrows(Step(s, ops[0], o), ops[1..], topic, o);
    }
  }

  /** One visit of a reader: what happens to the store first, then the page it asks for. */
  datatype Visit = Visit(ops: seq<Op>, limit: Option<nat>)

  function EndState(s: State, visits: seq<Visit>, o: Options): State
    decreases |visits|
  {
    if visits == [] then s else EndState(Run(s, visits[0].ops, o), visits[1..], o)
  }

  function ReadAll(s: State, visits: seq<Visit>, topic: string, cursor: Option<nat>, o: Options): Drained
    decreases |visits|
  {
    if visits == [] then Drained([], cursor, false)
    else
      var s1 := Run(s, visits[0].ops, o);
      var page := ServePage(s1.core, topic, cursor, visits[0].limit);
      var rest := ReadAll(s1, visits[1..], topic, Advance(cursor, page.messages), o);
      Drained(page.messages + rest.collected, rest.cursor, page.gap || rest.sawGap)
  }

  function Requests(s: State, visits: seq<Visit>, topic: string, o: Options): seq<PageRequest>
    decreases |visits|
  {
    if visits == [] then []
    else
      var s1 := Run(s, visits[0].ops, o);
      [PageRequest(View(s1, topic), visits[0].limit)] + Requests(s1, visits[1..], topic, o)
  }

  lemma {:induction false} ReadAllIsDrain(s: State, visits: seq<Visit>, topic: string, cursor: Option<nat>, o: Options)
    requires Inv(s, o)
    ensures ReadAll(s, visits, topic, cursor, o) == Drain(Requests(s, visits, topic, o), cursor)
    decreases |visits|
  {
    if visits != [] {
      var s1 := Run(s, visits[0].ops, o);
      RunKeeps(s, visits[0].ops, o);
      ServePageIsPage(s1, topic, cursor, visits[0].limit);
      var next := Advance(cursor, ServePage(s1.core, topic, cursor, visits[0].limit).messages);
      ReadAllIsDrain(s1, visits[1..], topic, next, o);
      assert Requests(s, visits, topic, o)[1..] == Requests(s1, visits[1..], topic, o);
    }
  }

  lemma {:induction false} RequestsTimeline(s: State, visits: seq<Visit>, topic: string, o: Options)
    requires Inv(s, o)
    ensures var pages := Requests(s, visits, topic, o);
            && |pages| == |visits|
            && Timeline(pages)
            && (pages != [] ==> Grows(View(s, topic), pages[0].view))
            && (pages != [] ==> pages[|pages| - 1].view == View(EndState(s, visits, o), topic))
    decreases |visits|
  {
    if visits != [] {
      var s1 := Run(s, visits[0].ops, o);
      RunKeeps(s, visits[0].ops, o);
      RunGrows(s, visits[0].ops, topic, o);
      ViewIsValid(s1, topic);
      RequestsTimeline(s1, visits[1..], topic, o);
      var pages, rest := Requests(s, visits, topic, o), Requests(s1, visits[1..], topic, o);
      assert forall i :: 0 < i < |pages| ==> pages[i] == rest[i - 1];
      forall i | 0 <= i < |pages| - 1 ensures Grows(pages[i].view, pages[i + 1].view) {
        if i > 0 { assert Grows(rest[i - 1].view, rest[i - 1 + 1].view); }
      }
    }
  }

  /**
    No silent loss: a reader that visits a topic with any operations in between, at any page sizes,
    is told of a gap or has every log frame ever accepted between its first and last cursors, each
    once and in order.
   */
  lemma MemoryNoSilentLoss(s: State, visits: seq<Visit>, topic: string, cursor: Option<nat>, o: Options)
    requires Inv(s, o) && visits != []
    requires !ReadAll(s, visits, topic, cursor, o).sawGap
    ensures var d := ReadAll(s, visits, topic, cursor, o);
            var accepted := Accepted(EndState(s, visits, o).history, topic);
            && Increasing(d.collected)
            && (forall x :: x in d.collected <==> x in accepted && After(x, cursor) && !After(x, d.cursor))
  {
    var pages := Requests(s, visits, topic, o);
    ReadAllIsDrain(s, visits, topic, cursor, o);
    RequestsTimeline(s, visits, topic, o);
    NoSilentLoss(pages, cursor);
    BetweenExactlyOnce(pages[|pages| - 1].view.accepted, cursor, Drain(pages, cursor).cursor);
  }

  // ------------------------------------------------------------------------------------------
  // Writers.

  /** Every run from the empty store keeps the compare-and-set chain and the idempotency records. */
  lemma WritersAgree(ops: seq<Op>, o: Options)
    ensures var s := Run(INITIAL, ops, o);
            && Chained(s.history)
            && (forall i, j :: 0 <= i < j < |s.history| && s.history[i].key.Some? ==>
                  s.history[i].key != s.history[j].key)
            && (forall topic :: Lookup(s.core.heads, topic) == Last(Accepted(s.history, topic)))
  {
    var s := Run(INITIAL, ops, o);
    InitialOk(o);
    RunKeeps(INITIAL, ops, o);
    forall topic ensures Lookup(s.core.heads, topic) == Last(Accepted(s.history, topic)) {
      assert Last(Accepted(s.history, topic)) == Lookup(s.core.heads, topic);
    }
  }

  /** A repeat of an accepted publish is told its original ID whatever head it names, and changes nothing. */
  lemma ReplayIsAnswered(s: State, p: PublishParams, now: int, o: Options, i: nat)
    requires Inv(s, o)
    requires i < |s.history| && p.publishID.Some? && s.history[i].key == p.publishID
    ensures Publish(s.core, p, now, o.maxDepth) == (s.core, Published(s.history[i].seqID, true))
  {
  }

  lemma LastRises(before: seq<nat>, after: seq<nat>)
    requires before <= after && before != []
    ensures Increasing(after) ==> Last(before).value <= Last(after).value
  {
    assert after[|before| - 1] == before[|before| - 1];
  }

  /** Heads survive every removal and only move up. */
  lemma {:induction false} HeadsOnlyIncrease(s: State, ops: seq<Op>, topic: string, o: Options)
    requires Inv(s, o) && topic in s.core.heads
    ensures topic in Run(s, ops, o).core.heads
    ensures s.core.heads[topic] <= Run(s, ops, o).core.heads[topic]
    decreases |ops|
  {
    if ops != [] {
      var s1 := Step(s, ops[0], o);
      StepKeeps(s, ops[0], o);
      StepGrows(s, ops[0], topic, o);
      LastRises(Accepted(s.history, topic), Accepted(s1.history, topic));
      ViewIsValid(s1, topic);
      assert Last(Accepted(s.history, topic)) == Lookup(s.core.heads, topic);
      assert Last(Accepted(s1.history, topic)) == Lookup(s1.core.heads, topic);
      HeadsOnlyIncrease(s1, ops[1..], topic, o);
    }
  }
}
