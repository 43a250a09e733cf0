/**
  The publishes a hub store has accepted, in the order it accepted them, and what that order says
  about each topic's log. Both stores are judged against it; they differ in what identifies a
  repeated publish, so the idempotency key is a type parameter.
 */
module PublishHistory {
  import opened Wrappers
  import opened LogReader

  datatype Class = Log | Mailbox

  /** The head a publish is conditional on: none, or exactly this one (`None` is "never published"). */
  datatype Expected = Unconditional | Exactly(head: Option<nat>)

  /** One accepted publish. */
  datatype Accept<+K> = Accept(seqID: nat, topic: string, retain: Class, expected: Expected, key: Option<K>)

  function Last(s: seq<nat>): Option<nat> {
    if s == [] then None else Some(s[|s| - 1])
  }

  /** A watermark moved up to a removed position; it never moves back. */
  function Raise(removed: Option<nat>, to: Option<nat>): Option<nat> {
    if to.None? then removed
    else if removed.None? || removed.value < to.value then to else removed
  }

  /** The log publishes accepted on a topic, in order. */
  function Accepted<K>(history: seq<Accept<K>>, topic: string): seq<nat> {
    if history == [] then []
    else
      var last := history[|history| - 1];
      Accepted(history[..|history| - 1], topic) +
      (if last.topic == topic && last.retain == Log then [last.seqID] else [])
  }

  /** Every conditional log publish named the log publish committed just before it on its topic. */
  ghost predicate Chained<K>(history: seq<Accept<K>>) {
    forall i :: 0 <= i < |history| && history[i].retain == Log && history[i].expected.Exactly? ==>
      history[i].expected.head == Last(Accepted(history[..i], history[i].topic))
  }

  /** Some committed publish carried this key and was accepted as this ID. */
  ghost predicate AcceptedAs<K>(history: seq<Accept<K>>, key: K, seqID: nat) {
    exists i :: 0 <= i < |history| && history[i].key == Some(key) && history[i].seqID == seqID
  }

  lemma {:induction false} AcceptedMembers<K>(history: seq<Accept<K>>, topic: string)
    ensures forall x :: x in Accepted(history, topic) <==>
              exists i ::
                0 <= i < |history| && history[i].seqID == x && history[i].topic == topic && history[i].retain == Log
  {
    if history != [] {
      var front, last := history[..|history| - 1], history[|history| - 1];
      AcceptedMembers(front, topic);
      forall x ensures x in Accepted(history, topic) <==>
        exists i :: 0 <= i < |history| && history[i].seqID == x && history[i].topic == topic && history[i].retain == Log
      {
        if x in Accepted(front, topic) {
          var i :| 0 <= i < |front| && front[i].seqID == x && front[i].topic == topic && front[i].retain == Log;
          assert history[i] == front[i];
        }
        if i :| 0 <= i < |history| && history[i].seqID == x && history[i].topic == topic && history[i].retain == Log {
          if i < |front| { assert front[i] == history[i]; }
        }
      }
    }
  }

  lemma {:induction false} AcceptedIncreasing<K>(history: seq<Accept<K>>, topic: string)
    requires forall i, j :: 0 <= i < j < |history| ==> history[i].seqID < history[j].seqID
    ensures Increasing(Accepted(history, topic))
  {
    if history != [] {
      var front := history[..|history| - 1];
      AcceptedIncreasing(front, topic);
      AcceptedMembers(front, topic);
      var a, last := Accepted(front, topic), history[|history| - 1];
      forall k | 0 <= k < |a| ensures a[k] < last.seqID {
        assert a[k] in a;
      }
    }
  }

  /** A committed publish adds its own ID to its own topic's log, and nothing anywhere else. */
  lemma AcceptedAppend<K>(history: seq<Accept<K>>, a: Accept<K>, topic: string)
    ensures Accepted(history + [a], topic) ==
            Accepted(history, topic) + (if a.topic == topic && a.retain == Log then [a.seqID] else [])
  {
    assert (history + [a])[..|history|] == history;
  }
}
