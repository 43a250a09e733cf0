/**
  Acknowledgement behind the encrypting wrapper (`packages/hub-tunnel/src/encrypted-transport.ts`).

  A delivery is settled once it is opened or refused for good. Its upstream ack goes out then, and the
  pump's own ack for an opened one is swallowed. A run acks each settled delivery exactly once,
  unless a host callback tears the session down synchronously while the pump handles a delivery.
 */
module EncryptedTunnel {
  import opened Wrappers
  import opened Utf8
  import opened StringOrder
  import opened Sequence

  type ID = Text

  /** What becomes of a delivery's envelope and ciphertext. */
  datatype Verdict =
    | Unreadable        // no envelope
    | ForeignGroup
    | DecoderFailed     // decoding failed in some other way: nothing is settled
    | Opened
    | Duplicate
    | Expired
    | Refused           // decryption failed

  /** Whether this verdict is the last word on a delivery, so that the hub may forget it. */
  predicate Settles(v: Verdict) {
    !v.DecoderFailed?
  }

  /** Where the one delivery being pulled stands. */
  datatype Phase = Waiting | Opening(id: ID) | Delivered(id: ID) | Stopped

  datatype Receiver = Receiver(
    phase: Phase,
    ackedOnDecrypt: set<ID>,
    closing: bool,
    anchor: Option<ID>,
    upstream: seq<ID>,          // acks sent to the hub
    settled: seq<ID>)           // deliveries settled, in order

  /** Send an ack upstream, unless the opened delivery it is for was acked already. */
  function AckedHandled(r: Receiver, id: ID, decrypted: bool): Receiver {
    if id in r.ackedOnDecrypt then r.(ackedOnDecrypt := r.ackedOnDecrypt - {id})
    else
      r.(upstream := r.upstream + [id],
         ackedOnDecrypt := if decrypted then r.ackedOnDecrypt + {id} else r.ackedOnDecrypt)
  }

  function Earliest(anchor: Option<ID>, id: ID): Option<ID> {
    if anchor.None? || Precedes(id, anchor.value) then Some(id) else anchor
  }

  /** An expired frame the hub sequenced before this session's first known ID belongs to an earlier session. */
  predicate FailsSession(anchor: Option<ID>, id: ID) {
    anchor.Some? && Precedes(anchor.value, id)
  }

  datatype Step =
    | Pull(id: ID)                              // the hub hands over a delivery
    | Judge(verdict: Verdict)                   // its verdict comes in
    | Handle(handled: bool, tearsDown: bool)    // the pump takes it; a callback may tear the session down first
    | Publish(id: ID)                           // the hub accepts a publish of this session
    | Return                                    // the pump closes the stream
    | DrainEnds                                 // the drain is over: every decrypt finished, or the wait timed out

  predicate Enabled(r: Receiver, step: Step) {
    match step
    case Pull(_) => r.phase.Waiting? && !r.closing
    case Judge(_) => r.phase.Opening?
    case Handle(_, _) => r.phase.Delivered?
    case Publish(_) => true
    case Return => true
    case DrainEnds => r.closing
  }

  function Judged(r: Receiver, v: Verdict): Receiver
    requires r.phase.Opening?
  {
    var id := r.phase.id;
    var judged := if Settles(v) then AckedHandled(r, id, v.Opened?).(settled := r.settled + [id]) else r;
    match v
    case DecoderFailed => judged.(phase := Stopped)
    case Opened =>
      if r.closing then judged.(phase := Stopped, ackedOnDecrypt := judged.ackedOnDecrypt - {id})
      else judged.(phase := Delivered(id), anchor := Earliest(r.anchor, id))
    case Expired => judged.(phase := Waiting, closing := r.closing || FailsSession(r.anchor, id))
    case _ => judged.(phase := Waiting)
  }

  function Handled(r: Receiver, handled: bool, tearsDown: bool): Receiver
    requires r.phase.Delivered?
  {
    // With no decrypt in flight the drain ends at once, and forgets what was acked on decrypt.
    var torn := if tearsDown then r.(closing := true, ackedOnDecrypt := {}) else r;
    var acked :=
      if handled then AckedHandled(torn, r.phase.id, false) else torn.(closing := true, ackedOnDecrypt := {});
    acked.(phase := if acked.closing then Stopped else Waiting)
  }

  function Next(r: Receiver, step: Step): Receiver
    requires Enabled(r, step)
  {
    match step
    case Pull(id) => r.(phase := Opening(id))
    case Judge(v) => Judged(r, v)
    case Handle(handled, tearsDown) => Handled(r, handled, tearsDown)
    case Publish(id) => r.(anchor := Earliest(r.anchor, id))
    // The pump never closes the stream between taking a delivery and acking it, except through Handle.
    case Return =>
      if r.phase.Delivered? then r.(closing := true, phase := Stopped, ackedOnDecrypt := {}) else r.(closing := true)
    case DrainEnds => r.(ackedOnDecrypt := {})
  }

  class Stream {
    const acks: bool                       // whether the hub's stream has an ack at all
    var ackedOnDecrypt: set<ID>
    var closing: bool
    var anchor: Option<ID>
    var upstream: seq<ID>

    constructor (acks: bool)
      ensures this.acks == acks && ackedOnDecrypt == {} && !closing && anchor.None? && upstream == []
    {
      this.acks, ackedOnDecrypt, closing, anchor, upstream := acks, {}, false, None, [];
    }

    ghost function AsReceiver(phase: Phase, settled: seq<ID>): Receiver
      reads this
    {
      Receiver(phase, ackedOnDecrypt, closing, anchor, upstream, settled)
    }

    method AckHandled(id: ID, decrypted: bool)
      modifies this`ackedOnDecrypt, this`upstream
      ensures acks ==> forall phase, settled ::
                AsReceiver(phase, settled) == AckedHandled(old(AsReceiver(phase, settled)), id, decrypted)
      ensures !acks ==> upstream == old(upstream) && ackedOnDecrypt == old(ackedOnDecrypt) - {id}
    {
      if id in ackedOnDecrypt {
        ackedOnDecrypt := ackedOnDecrypt - {id};
        return;
      }
      if !acks { return; }
      if decrypted {
        ackedOnDecrypt := ackedOnDecrypt + {id};
      }
      upstream := upstream + [id];
    }

    method Remember(id: ID)
      modifies this`anchor
      ensures anchor == Earliest(old(anchor), id)
    {
      if anchor.None? || Precedes(id, anchor.value) {
        anchor := Some(id);
      }
    }

    /** The verdict on the delivery being pulled; the result says whether it goes on to the pump. */
    method Settle(id: ID, v: Verdict, ghost settled: seq<ID>) returns (delivers: bool)
      requires acks
      modifies this
      ensures var next := Judged(old(AsReceiver(Opening(id), settled)), v);
              && AsReceiver(next.phase, next.settled) == next
              && (delivers <==> next.phase.Delivered?)
    {
      delivers := false;
      match v {
        case DecoderFailed =>
        case Opened =>
          // The receive key is spent now, even if the pump cannot deliver this frame.
          AckHandled(id, true);
          if closing {
            ackedOnDecrypt := ackedOnDecrypt - {id};
            return;
          }
          Remember(id);
          delivers := true;
        case Expired =>
          var fails := anchor.Some? && Precedes(anchor.value, id);
          AckHandled(id, false);
          if fails { closing := true; }
        case Unreadable => AckHandled(id, false);
        case ForeignGroup => AckHandled(id, false);
        case Duplicate => AckHandled(id, false);
        case Refused => AckHandled(id, false);
      }
    }

    /** Close the stream once; without a decrypt in flight the drain is over at once. */
    method Return(inFlight: bool) returns (first: bool)
      modifies this
      ensures closing && first == !old(closing) && upstream == old(upstream) && anchor == old(anchor)
      ensures ackedOnDecrypt == if first && !inFlight then {} else old(ackedOnDecrypt)
    {
      if closing { return false; }
      closing := true;
      if !inFlight {
        ackedOnDecrypt := {};
      }
      return true;
    }
  }

  // ------------------------------------------------------------------------------------------
  // Every run.

  const STARTED := Receiver(Waiting, {}, false, None, [], [])

  ghost predicate IsRun(rs: seq<Receiver>, steps: seq<Step>) {
    && |rs| == |steps| + 1
    && forall i :: 0 <= i < |steps| ==> Enabled(rs[i], steps[i]) && rs[i + 1] == Next(rs[i], steps[i])
  }

  /** A host callback tore the session down while the pump was handling a delivery it then acked. */
  predicate TornWhileHandling(step: Step) {
    step.Handle? && step.handled && step.tearsDown
  }

  /** Between deliveries nothing is remembered as acked, and so far every settled delivery was acked once. */
  predicate Once(r: Receiver) {
    && r.upstream == r.settled
    && r.ackedOnDecrypt == (if r.phase.Delivered? then {r.phase.id} else {})
    && (r.closing ==> !r.phase.Delivered?)
  }

  lemma StepAcksOnce(r: Receiver, step: Step)
    requires Once(r) && Enabled(r, step)
    ensures if TornWhileHandling(step)
            then Next(r, step).upstream == r.settled + [r.phase.id] && Next(r, step).settled == r.settled
                 && Next(r, step).phase.Stopped? && Next(r, step).ackedOnDecrypt == {}
            else Once(Next(r, step))
  {
  }

  /** Once stopped, nothing is acked or settled any more. */
  lemma StoppedStays(r: Receiver, step: Step)
    requires r.phase.Stopped? && Enabled(r, step)
    ensures Next(r, step).phase.Stopped? && Next(r, step).upstream == r.upstream && Next(r, step).settled == r.settled
  {
  }

  /** The run up to its `n`th state: acked once each, or stopped with the last delivery acked twice. */
  lemma {:induction false} RunAcks(rs: seq<Receiver>, steps: seq<Step>, n: nat)
    requires IsRun(rs, steps) && rs[0] == STARTED && n < |rs|
    ensures if exists i :: 0 <= i < n && TornWhileHandling(steps[i])
            then rs[n].phase.Stopped? && |rs[n].upstream| == |rs[n].settled| + 1 && rs[n].settled != []
                 && rs[n].upstream == rs[n].settled + [rs[n].settled[|rs[n].settled| - 1]]
            else Once(rs[n]) && (rs[n].phase.Delivered? ==>
                   rs[n].settled != [] && rs[n].settled[|rs[n].settled| - 1] == rs[n].phase.id)
  {
    if n > 0 {
      RunAcks(rs, steps, n - 1);
      var r, step := rs[n - 1], steps[n - 1];
      assert rs[n] == Next(r, step);
      if exists i :: 0 <= i < n - 1 && TornWhileHandling(steps[i]) {
        StoppedStays(r, step);
      } else {
        StepAcksOnce(r, step);
        assert (exists i :: 0 <= i < n && TornWhileHandling(steps[i])) <==> TornWhileHandling(step);
      }
    }
  }

  /**
    Upstream is acked, in order, exactly what was opened or refused for good, each once, exactly
    when no callback tore the session down while the pump was handling a delivery.
   */
  lemma AckedExactlyOnce(rs: seq<Receiver>, steps: seq<Step>)
    requires IsRun(rs, steps) && rs[0] == STARTED
    ensures var end := rs[|rs| - 1];
            end.upstream == end.settled <==> !exists i :: 0 <= i < |steps| && TornWhileHandling(steps[i])
    ensures var end := rs[|rs| - 1];
            end.settled <= end.upstream && |end.upstream| <= |end.settled| + 1
  {
    RunAcks(rs, steps, |rs| - 1);
  }

  /** A callback that tears down while the pump handles the one delivery opened: the hub hears of it twice. */
  lemma TornDownIsAckedTwice(id: ID)
    ensures var steps := [Pull(id), Judge(Opened), Handle(true, true)];
            exists rs: seq<Receiver> :: IsRun(rs, steps) && rs[0] == STARTED
                         && rs[3].settled == [id] && rs[3].upstream == [id, id]
  {
    var steps := [Pull(id), Judge(Opened), Handle(true, true)];
    var r1 := Next(STARTED, steps[0]);
    var r2 := Next(r1, steps[1]);
    var r3 := Next(r2, steps[2]);
    assert r3.upstream == [] + [id] + [id] == [id, id];
    assert IsRun([STARTED, r1, r2, r3], steps);
  }

  // ------------------------------------------------------------------------------------------
  // The anchor.

  /** The IDs a session is known by after `n` steps: what it published, and what it opened while not closing. */
  ghost function Known(rs: seq<Receiver>, steps: seq<Step>, n: nat): set<ID>
    requires IsRun(rs, steps) && n < |rs|
  {
    if n == 0 then {}
    else
      var r, step := rs[n - 1], steps[n - 1];
      Known(rs, steps, n - 1) +
      (if step.Publish? then {step.id}
       else if step == Judge(Opened) && !r.closing then {r.phase.id}
       else {})
  }

  /** The anchor is one of the IDs the session is known by, and none of them precedes it. */
  ghost predicate EarliestOf(anchor: Option<ID>, known: set<ID>) {
    if anchor.None? then known == {}
    else anchor.value in known && forall id :: id in known ==> !Precedes(id, anchor.value)
  }

  lemma EarliestWithOne(anchor: Option<ID>, known: set<ID>, id: ID)
    requires EarliestOf(anchor, known) && WeaklyOrdered(known + {id})
    ensures EarliestOf(Earliest(anchor, id), known + {id})
  {
    if anchor.Some? && Precedes(id, anchor.value) {
      forall other | other in known ensures !Precedes(other, id) {
        assert !Precedes(other, anchor.value);
      }
    }
  }

  lemma NothingKnown()
    ensures EarliestOf(None, {})
  {
  }

  lemma FewerAreOrdered(ids: set<ID>, more: set<ID>)
    requires WeaklyOrdered(more) && ids <= more
    ensures WeaklyOrdered(ids)
  {
  }

  /** At every point of every session whose IDs precedence orders, the anchor is the earliest ID known. */
  lemma {:induction false} AnchorIsEarliest(rs: seq<Receiver>, steps: seq<Step>, n: nat)
    requires IsRun(rs, steps) && rs[0] == STARTED && n < |rs|
    requires WeaklyOrdered(Known(rs, steps, n))
    ensures EarliestOf(rs[n].anchor, Known(rs, steps, n))
  {
    hide EarliestOf, Earliest, WeaklyOrdered, AckedHandled;
    if n == 0 {
      NothingKnown();
    } else {
      var r, step, before := rs[n - 1], steps[n - 1], Known(rs, steps, n - 1);
      FewerAreOrdered(before, Known(rs, steps, n));
      AnchorIsEarliest(rs, steps, n - 1);
      assert rs[n] == Next(r, step);
      if step.Publish? {
        EarliestWithOne(r.anchor, before, step.id);
      } else if step == Judge(Opened) && !r.closing {
        EarliestWithOne(r.anchor, before, r.phase.id);
      } else {
        AnchorStays(r, step);
        assert Known(rs, steps, n) == before;
      }
    }
  }

  lemma AnchorStays(r: Receiver, step: Step)
    requires Enabled(r, step) && !step.Publish? && !(step == Judge(Opened) && !r.closing)
    ensures Next(r, step).anchor == r.anchor
  {
  }

  /**
    An expired frame fails the session exactly when the hub sequenced it after something this
    session is known by; one of an earlier session is dropped and the session goes on.
   */
  lemma OnlyOwnFramesFail(rs: seq<Receiver>, steps: seq<Step>, n: nat)
    requires IsRun(rs, steps) && rs[0] == STARTED && n < |steps| && steps[n] == Judge(Expired)
    requires WeaklyOrdered(Known(rs, steps, n) + {rs[n].phase.id})
    ensures rs[n + 1].closing <==>
            rs[n].closing || exists id :: id in Known(rs, steps, n) && Precedes(id, rs[n].phase.id)
  {
    var known, expired := Known(rs, steps, n), rs[n].phase.id;
    FewerAreOrdered(known, known + {expired});
    AnchorIsEarliest(rs, steps, n);
    assert rs[n + 1] == Next(rs[n], steps[n]);
    EarliestDecides(rs[n].anchor, known, expired);
  }

  /** The earliest ID precedes whatever any known ID precedes. */
  lemma EarliestDecides(anchor: Option<ID>, known: set<ID>, expired: ID)
    requires EarliestOf(anchor, known) && WeaklyOrdered(known + {expired})
    ensures FailsSession(anchor, expired) <==> exists id :: id in known && Precedes(id, expired)
  {
    if id :| id in known && Precedes(id, expired) {
      FirstComesFirst(known + {expired}, anchor.value, id, expired);
    }
  }

  lemma FirstComesFirst(ids: set<ID>, first: ID, id: ID, later: ID)
    requires WeaklyOrdered(ids) && first in ids && id in ids && later in ids
    requires !Precedes(id, first) && Precedes(id, later)
    ensures Precedes(first, later)
  {
    hide Precedes;
    if !Precedes(first, id) && !Precedes(later, first) {
      var ties := Tied(id, first) && Tied(first, later) && Tied(id, later);
    }
  }

  /** The number of a decimal ID. */
  function Number(id: ID): nat {
    if Decimal(id) then Value(id) else 0
  }

  /** In a session of decimal IDs, of whatever widths: the frame's number is above some known one's. */
  lemma NumbersDecide(rs: seq<Receiver>, steps: seq<Step>, n: nat)
    requires IsRun(rs, steps) && rs[0] == STARTED && n < |steps| && steps[n] == Judge(Expired)
    requires (forall id :: id in Known(rs, steps, n) ==> Decimal(id)) && Decimal(rs[n].phase.id)
    ensures rs[n + 1].closing <==>
            rs[n].closing || exists id :: id in Known(rs, steps, n) && Number(id) < Number(rs[n].phase.id)
  {
    hide Precedes, Known;
    var known, expired := Known(rs, steps, n), rs[n].phase.id;
    DecimalsAreOrdered(known + {expired});
    OnlyOwnFramesFail(rs, steps, n);
    forall id | id in known ensures Precedes(id, expired) <==> Number(id) < Number(expired) {
      PrecedesIsNumeric(id, expired);
    }
  }
}
