/**
  The tunnel's read pump, writer and teardown (`packages/hub-tunnel/src/transport.ts`).

  A hub may duplicate, reorder and redeliver. One session's reader hands its consumer a
  repeat-free subsequence of what the sender wrote, in the order written.
 */
module Tunnel {
  import opened Wrappers

  datatype Frame<B> =
    | Message(session: string, seqNo: int, body: B)
    | SessionEnd(session: string, seqNo: int)

  /** What decoding a payload comes to: a frame, an undecodable one, or some other failure. */
  datatype Payload<B> = Carries(frame: Frame<B>) | Undecodable | DecoderFailed

  datatype Delivery<B> = Delivery(id: string, topic: string, payload: Payload<B>)

  datatype WriteError = TornDown | NoSession | PublishFailed

  /** How a publish ends; a failed one may have landed. */
  datatype Publishing = Accepted | Failed(landed: bool)

  /** The reader side, as an observer sees it. */
  datatype Reader<B> = Reader(
    locked: Option<string>,
    expected: int,
    queued: nat,                // in the inbox, not yet consumed
    open: bool,
    enqueued: seq<(int, B)>,    // every body ever handed to the consumer, with its sequence number
    acked: seq<string>)

  function Acked<B>(r: Reader<B>, id: string): Reader<B> {
    r.(acked := r.acked + [id])
  }

  /** What one delivery does to an open reader. */
  function Received<B>(r: Reader<B>, d: Delivery<B>, topic: string, capacity: nat): Reader<B> {
    if !r.open then r
    else if d.topic != topic then Acked(r, d.id)
    else match d.payload
      case Undecodable => Acked(r, d.id)
      case DecoderFailed => r.(open := false)
      case Carries(frame) =>
        if r.locked.Some? && frame.session != r.locked.value then Acked(r, d.id)
        else
          var s := r.(locked := Some(frame.session));
          if frame.SessionEnd? then Acked(s, d.id).(open := false)
          else if frame.seqNo < s.expected then Acked(s, d.id)
          else if s.queued >= capacity then s.(open := false)
          else Acked(s, d.id).(expected := frame.seqNo + 1, queued := s.queued + 1,
                               enqueued := s.enqueued + [(frame.seqNo, frame.body)])
  }

  class Transport<B> {
    const receiveTopic: string
    const capacity: nat
    var locked: Option<string>
    var outboundSeq: nat
    var expectedSeq: int
    var queued: nat
    var torndown: bool
    var ended: bool                       // the peer ended the session gracefully
    var unsubscribed: bool
    var acked: seq<string>
    ghost var enqueued: seq<(int, B)>
    ghost var written: seq<B>             // every body given to a publish; its index is its frame's number
    ghost var published: seq<Frame<B>>

    ghost function AsReader(): Reader<B>
      reads this
    {
      Reader(locked, expectedSeq, queued, !torndown, enqueued, acked)
    }

    /** Frames carry the locked session and number the writes from zero; teardown released everything. */
    ghost predicate Valid()
      reads this
    {
      && outboundSeq == |written|
      && (written != [] ==> locked.Some?)
      && Numbered(published, written)
      && (forall i :: 0 <= i < |published| && published[i].Message? ==> locked == Some(published[i].session))
      && (unsubscribed <==> torndown)
      && (ended ==> torndown)
    }

    constructor (sessionID: Option<string>, receiveTopic: string, capacity: nat)
      ensures Valid() && this.receiveTopic == receiveTopic && this.capacity == capacity
      ensures AsReader() == Reader(sessionID, 0, 0, true, [], []) && written == [] && published == []
    {
      this.receiveTopic, this.capacity := receiveTopic, capacity;
      locked, outboundSeq, expectedSeq, queued := sessionID, 0, 0, 0;
      torndown, ended, unsubscribed, acked := false, false, false, [];
      enqueued, written, published := [], [], [];
    }

    /** Every teardown path ends here, once. */
    method ReleaseResources()
      requires Valid()
      modifies this`torndown, this`unsubscribed
      ensures Valid() && torndown
    {
      if torndown { return; }
      torndown := true;
      unsubscribed := true;
    }

    /** A voluntary or failing teardown also tells the peer, if a session was ever established. */
    method Teardown()
      requires Valid()
      modifies this`torndown, this`unsubscribed, this`published
      ensures Valid() && torndown
      ensures published == if old(torndown) || locked.None? then old(published)
                           else old(published) + [SessionEnd(locked.value, outboundSeq)]
    {
      if torndown { return; }
      ReleaseResources();
      if locked.Some? {
        published := published + [SessionEnd(locked.value, outboundSeq)];
      }
    }

    method AckHandled(id: string)
      modifies this`acked
      ensures acked == old(acked) + [id]
    {
      acked := acked + [id];
    }

    /** One turn of the read pump. */
    method Receive(d: Delivery<B>)
      requires Valid()
      modifies this
      ensures Valid()
      ensures AsReader() == Received(old(AsReader()), d, receiveTopic, capacity)
      ensures written == old(written) && outboundSeq == old(outboundSeq)
    {
      if torndown { return; }
      var handled := true;
      if d.topic != receiveTopic {
        AckHandled(d.id);
        return;
      }
      if d.payload.Undecodable? {
        AckHandled(d.id);
        return;
      }
      if d.payload.DecoderFailed? {
        handled := false;
        Teardown();
        return;
      }
      var frame := d.payload.frame;
      if locked.None? {
        locked := Some(frame.session);
      } else if frame.session != locked.value {
        AckHandled(d.id);
        return;
      }
      if frame.SessionEnd? {
        // Before the release: a closed subscription may no longer honour an ack.
        AckHandled(d.id);
        ReleaseResources();
        ended := true;
        return;
      }
      if frame.seqNo >= expectedSeq {
        if queued >= capacity {
          handled := false;
          Teardown();
          return;
        }
        expectedSeq := frame.seqNo + 1;
        queued := queued + 1;
        enqueued := enqueued + [(frame.seqNo, frame.body)];
      }
      if handled {
        AckHandled(d.id);
      }
    }

    /** Write a body: refused once torn down or before a session; a failed publish has spent its number. */
    method Write(body: B, tornMeanwhile: bool, publishing: Publishing) returns (r: Result<nat, WriteError>)
      requires Valid()
      modifies this
      ensures Valid()
      ensures locked == old(locked) && enqueued == old(enqueued)
      ensures old(torndown) ==> r == Err(TornDown)
      ensures !old(torndown) && old(locked).None? ==> r == Err(NoSession)
      ensures !old(torndown) && old(locked).Some? && tornMeanwhile ==> r == Err(TornDown) && torndown
      ensures if !old(torndown) && old(locked).Some? && !tornMeanwhile then
                && r == (if publishing.Accepted? then Ok(|old(written)|) else Err(PublishFailed))
                && written == old(written) + [body]
                && published == old(published) +
                     (if publishing.Accepted? || publishing.landed
                      then [Message(locked.value, |old(written)|, body)] else [])
              else written == old(written)
    {
      if torndown { return Err(TornDown); }
      if locked.None? { return Err(NoSession); }
      // Awaiting the subscribe; a teardown may come in between.
      if tornMeanwhile { Teardown(); }
      if torndown { return Err(TornDown); }
      var frame := Message(locked.value, outboundSeq, body);
      outboundSeq := outboundSeq + 1;
      written := written + [body];
      if publishing.Accepted? || publishing.landed {
        published := published + [frame];
      }
      return if publishing.Accepted? then Ok(outboundSeq - 1) else Err(PublishFailed);
    }

    /** The consumer takes a body out of the inbox. */
    method Take()
      requires Valid() && queued > 0
      modifies this`queued
      ensures Valid() && AsReader() == old(AsReader()).(queued := old(queued) - 1)
    {
      queued := queued - 1;
    }
  }

  // ------------------------------------------------------------------------------------------
  // Runs of a reader.

  datatype Step<B> = Deliver(delivery: Delivery<B>) | Take | Close

  function Next<B>(r: Reader<B>, step: Step<B>, topic: string, capacity: nat): Reader<B> {
    match step
    case Deliver(d) => Received(r, d, topic, capacity)
    case Take => if r.queued > 0 then r.(queued := r.queued - 1) else r
    case Close => r.(open := false)
  }

  function Run<B>(r: Reader<B>, steps: seq<Step<B>>, topic: string, capacity: nat): Reader<B>
    decreases |steps|
  {
    if steps == [] then r else Run(Next(r, steps[0], topic, capacity), steps[1..], topic, capacity)
  }

  function Opened<B>(session: Option<string>): Reader<B> {
    Reader(session, 0, 0, true, [], [])
  }

  /** The numbers handed to the consumer rise strictly, and stay below the one expected next. */
  ghost predicate InOrder<B>(r: Reader<B>) {
    && (forall i :: 0 <= i < |r.enqueued| ==> 0 <= r.enqueued[i].0 < r.expected)
    && (forall i, j :: 0 <= i < j < |r.enqueued| ==> r.enqueued[i].0 < r.enqueued[j].0)
    && r.expected >= 0
  }

  /** Whatever the hub does with them, frames of the locked session on this topic are frames the sender wrote. */
  ghost predicate Genuine<B>(steps: seq<Step<B>>, topic: string, session: string, written: seq<B>) {
    forall i :: 0 <= i < |steps| && steps[i].Deliver? && steps[i].delivery.topic == topic
                && steps[i].delivery.payload.Carries? && steps[i].delivery.payload.frame.Message?
                && steps[i].delivery.payload.frame.session == session ==>
      var frame := steps[i].delivery.payload.frame;
      0 <= frame.seqNo < |written| && frame.body == written[frame.seqNo]
  }

  ghost predicate FromWritten<B>(r: Reader<B>, written: seq<B>) {
    forall i :: 0 <= i < |r.enqueued| ==>
      0 <= r.enqueued[i].0 < |written| && r.enqueued[i].1 == written[r.enqueued[i].0]
  }

  lemma {:induction false} SessionNeverChanges<B>(r: Reader<B>, steps: seq<Step<B>>, topic: string, capacity: nat)
    ensures r.locked.Some? ==> Run(r, steps, topic, capacity).locked == r.locked
    decreases |steps|
  {
    if steps != [] {
      SessionNeverChanges(Next(r, steps[0], topic, capacity), steps[1..], topic, capacity);
    }
  }

  lemma StepEnqueuesInOrder<B>(r: Reader<B>, steps: seq<Step<B>>, topic: string,
      capacity: nat, session: string, written: seq<B>)
    requires InOrder(r) && FromWritten(r, written) && steps != [] && Genuine(steps, topic, session, written)
    requires var s := Next(r, steps[0], topic, capacity); s.locked.Some? ==> s.locked.value == session
    ensures var s := Next(r, steps[0], topic, capacity); InOrder(s) && FromWritten(s, written)
  {
  }

  /** The enqueued bodies are a repeat-free, order-preserving subsequence of those the sender wrote. */
  lemma {:induction false} EnqueuedIsSubsequence<B>(r: Reader<B>, steps: seq<Step<B>>, topic: string,
      capacity: nat, session: string, written: seq<B>)
    requires InOrder(r) && FromWritten(r, written) && Genuine(steps, topic, session, written)
    requires var end := Run(r, steps, topic, capacity); end.locked.Some? ==> end.locked.value == session
    ensures var end := Run(r, steps, topic, capacity); InOrder(end) && FromWritten(end, written)
    decreases |steps|
  {
    hide Next, InOrder, FromWritten;
    if steps != [] {
      var s := Next(r, steps[0], topic, capacity);
      SessionNeverChanges(s, steps[1..], topic, capacity);
      StepEnqueuesInOrder(r, steps, topic, capacity, session, written);
      assert Genuine(steps[1..], topic, session, written) by {
        forall i | 0 <= i < |steps[1..]| ensures steps[1..][i] == steps[i + 1] { }
      }
      EnqueuedIsSubsequence(s, steps[1..], topic, capacity, session, written);
    }
  }

  lemma DeliveredInOrderOnce<B>(auto: Option<string>, steps: seq<Step<B>>, topic: string, capacity: nat,
      session: string, written: seq<B>)
    requires Genuine(steps, topic, session, written)
    requires var end := Run(Opened(auto), steps, topic, capacity); end.locked.Some? ==> end.locked.value == session
    ensures var end := Run(Opened(auto), steps, topic, capacity);
            && (auto.Some? ==> end.locked == auto)
            && (forall i :: 0 <= i < |end.enqueued| ==>
                  0 <= end.enqueued[i].0 < |written| && end.enqueued[i].1 == written[end.enqueued[i].0])
            && (forall i, j :: 0 <= i < j < |end.enqueued| ==> end.enqueued[i].0 < end.enqueued[j].0)
  {
    EnqueuedIsSubsequence(Opened(auto), steps, topic, capacity, session, written);
    SessionNeverChanges(Opened(auto), steps, topic, capacity);
  }

  /** The frames a valid writer published carry what it wrote, by number. */
  ghost predicate Numbered<B>(published: seq<Frame<B>>, written: seq<B>) {
    forall i :: 0 <= i < |published| && published[i].Message? ==>
      0 <= published[i].seqNo < |written| && published[i].body == written[published[i].seqNo]
  }

  /** However often and in whatever order a writer's frames are delivered, its words are read in order, once. */
  lemma WrittenToRead<B>(auto: Option<string>, steps: seq<Step<B>>, topic: string, capacity: nat, session: string,
      published: seq<Frame<B>>, written: seq<B>)
    requires Numbered(published, written)
    requires forall i :: 0 <= i < |steps| && steps[i].Deliver? && steps[i].delivery.topic == topic
                         && steps[i].delivery.payload.Carries? && steps[i].delivery.payload.frame.session == session ==>
               steps[i].delivery.payload.frame in published
    requires var end := Run(Opened(auto), steps, topic, capacity); end.locked.Some? ==> end.locked.value == session
    ensures var end := Run(Opened(auto), steps, topic, capacity);
            && (forall i :: 0 <= i < |end.enqueued| ==>
                  0 <= end.enqueued[i].0 < |written| && end.enqueued[i].1 == written[end.enqueued[i].0])
            && (forall i, j :: 0 <= i < j < |end.enqueued| ==> end.enqueued[i].0 < end.enqueued[j].0)
  {
    assert Genuine(steps, topic, session, written);
    DeliveredInOrderOnce(auto, steps, topic, capacity, session, written);
  }

  /** Fed in order without a gap or an overflow, the reader hands over everything: nothing is dropped needlessly. */
  lemma {:induction false} NothingDroppedNeedlessly<B>(r: Reader<B>, bodies: seq<B>, ids: seq<string>,
      topic: string, capacity: nat, session: string)
    requires r.open && r.locked == Some(session) && |ids| == |bodies|
    requires r.queued + |bodies| <= capacity
    ensures var end := Run(r, InSequence(bodies, ids, r.expected, topic, session), topic, capacity);
            && end.open && |end.enqueued| == |r.enqueued| + |bodies|
            && (forall i :: 0 <= i < |r.enqueued| ==> end.enqueued[i] == r.enqueued[i])
            && (forall i :: 0 <= i < |bodies| ==> end.enqueued[|r.enqueued| + i] == (r.expected + i, bodies[i]))
            && end.acked == r.acked + ids
    decreases |bodies|
  {
    if bodies == [] {
      assert r.acked + ids == r.acked;
    } else {
      var steps := InSequence(bodies, ids, r.expected, topic, session);
      var s := Next(r, steps[0], topic, capacity);
      assert steps[1..] == InSequence(bodies[1..], ids[1..], s.expected, topic, session);
      NothingDroppedNeedlessly(s, bodies[1..], ids[1..], topic, capacity, session);
      assert r.acked + [ids[0]] + ids[1..] == r.acked + ids;
      var end := Run(r, steps, topic, capacity);
      forall i | 0 <= i < |bodies| ensures end.enqueued[|r.enqueued| + i] == (r.expected + i, bodies[i]) {
        if i > 0 {
          assert bodies[1..][i - 1] == bodies[i];
          assert end.enqueued[|s.enqueued| + (i - 1)] == (s.expected + (i - 1), bodies[1..][i - 1]);
        } else {
          assert end.enqueued[|r.enqueued|] == s.enqueued[|r.enqueued|];
        }
      }
    }
  }

  function InSequence<B>(bodies: seq<B>, ids: seq<string>, from: int, topic: string, session: string): seq<Step<B>>
    requires |ids| == |bodies|
  {
    if bodies == [] then []
    else [Deliver(Delivery(ids[0], topic, Carries(Message(session, from, bodies[0]))))]
         + InSequence(bodies[1..], ids[1..], from + 1, topic, session)
  }
}
