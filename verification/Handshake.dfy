/**
  Reserving handshake generations (`packages/mls/src/group-handle.ts`,
  `packages/mls/src/group-commit.ts`), so that no two published commits of one epoch are framed
  under one sender-ratchet key (section 9.1 of RFC 9420).

  A commit is framed at the source handle's current generation and does not advance it. The host
  reserves a generation, builds, consumes the reservation, journals, and publishes, in that order.
  Each save may fail, and a failed save may or may not have reached storage. The process may die
  between any two steps and come back from what was stored.
 */
module Handshake {
  import opened Wrappers

  datatype Reservation = Reservation(epoch: nat, generation: nat, consumed: bool)
  datatype Activity = Active | Suspended | Removed

  /** What a save stores of the MLS state: `leaf` is the own handshake generation, once derived. */
  datatype Checkpoint = Checkpoint(epoch: nat, leaf: Option<nat>, reservation: Option<Reservation>, activity: Activity)

  /** How a save ended. */
  datatype Saved = Stored | Refused(landed: bool)

  datatype Failure = NotSending | WindowConfig | WindowReached | Exhausted | NoReservation | PersistFailed

  const DEFAULT_WINDOW := 200

  function Current(c: Checkpoint): nat {
    if c.leaf.Some? then c.leaf.value else 0
  }

  /** A reservation for the next frame that nothing has been published under. */
  predicate Unconsumed(c: Checkpoint) {
    c.reservation == Some(Reservation(c.epoch, Current(c), false))
  }

  /** Half of the receiver window, capped by the default one. */
  function Limit(window: Option<int>): int {
    var configured := if window.Some? then window.value else DEFAULT_WINDOW;
    (if configured < DEFAULT_WINDOW then configured else DEFAULT_WINDOW) / 2
  }

  /** The checkpoint with the next generation reserved. */
  function Reserved(c: Checkpoint): Checkpoint {
    c.(leaf := Some(Current(c) + 1), reservation := Some(Reservation(c.epoch, Current(c) + 1, false)))
  }

  function Consumed(c: Checkpoint): Checkpoint
    requires c.reservation.Some?
  {
    c.(reservation := Some(c.reservation.value.(consumed := true)))
  }

  /** What storage holds after saving this checkpoint over another. */
  function After(durable: Checkpoint, saving: Checkpoint, saved: Saved): Checkpoint {
    if saved.Stored? || saved.landed then saving else durable
  }

  /** Why a reservation is refused, if it is. */
  function ReserveRefused(c: Checkpoint, window: Option<int>): Option<Failure> {
    if !c.activity.Active? then Some(NotSending)
    else if Unconsumed(c) then None
    else if Limit(window) < 1 then Some(WindowConfig)
    else if Current(c) + 1 > Limit(window) then Some(WindowReached)
    else None
  }

  /** What a reservation leaves: how it failed, the state in memory and the stored one. */
  function ReserveOutcome(c: Checkpoint, durable: Checkpoint, window: Option<int>, saved: Saved):
    (Option<Failure>, Checkpoint, Checkpoint)
  {
    if ReserveRefused(c, window).Some? then (ReserveRefused(c, window), c, durable)
    else
      var next := if Unconsumed(c) then c else Reserved(c);
      if saved.Stored? then (None, next, next) else (Some(PersistFailed), c, After(durable, next, saved))
  }

  predicate MayConsume(c: Checkpoint) {
    && c.reservation.Some?
    && c.reservation.value.epoch == c.epoch
    && Some(c.reservation.value.generation) == c.leaf
  }

  /** What consuming leaves; the evidence stays in memory when the save fails. */
  function ConsumeOutcome(c: Checkpoint, durable: Checkpoint, saved: Saved): (Option<Failure>, Checkpoint, Checkpoint) {
    if !MayConsume(c) then (Some(NoReservation), c, durable)
    else (if saved.Stored? then None else Some(PersistFailed), Consumed(c), After(durable, Consumed(c), saved))
  }

  /** A handle and the storage its host saves it to. */
  class Handle {
    var state: Checkpoint
    var durable: Checkpoint

    constructor (c: Checkpoint)
      ensures state == c && durable == c
    {
      state, durable := c, c;
    }

    /** Reserve a generation before a build; a persisted, unconsumed one is used again. */
    method Reserve(window: Option<int>, saved: Saved) returns (failure: Option<Failure>)
      modifies this
      ensures (failure, state, durable) == ReserveOutcome(old(state), old(durable), window, saved)
      ensures failure.None? ==> Unconsumed(state) && durable == state
    {
      var prior := state;
      if !prior.activity.Active? { return Some(NotSending); }
      var current := Current(prior);
      if prior.reservation.Some? && prior.reservation.value.epoch == prior.epoch
         && prior.reservation.value.generation == current && !prior.reservation.value.consumed
      {
        durable := After(durable, state, saved);
        return if saved.Stored? then None else Some(PersistFailed);
      }
      var limit := Limit(window);
      if limit < 1 { return Some(WindowConfig); }
      if current + 1 > limit { return Some(WindowReached); }
      if current >= 0xfffffffe { return Some(Exhausted); }
      state := prior.(leaf := Some(current + 1), reservation := Some(Reservation(prior.epoch, current + 1, false)));
      durable := After(durable, state, saved);
      if saved.Refused? {
        state := prior;
        return Some(PersistFailed);
      }
      return None;
    }

    /** Consume the reservation before any journal write; the evidence stays in memory if the save fails. */
    method Consume(saved: Saved) returns (failure: Option<Failure>)
      modifies this
      ensures (failure, state, durable) == ConsumeOutcome(old(state), old(durable), saved)
    {
      var prior := state;
      if prior.reservation.None? || prior.reservation.value.epoch != prior.epoch
         || Some(prior.reservation.value.generation) != prior.leaf
      {
        return Some(NoReservation);
      }
      state := prior.(reservation := Some(prior.reservation.value.(consumed := true)));
      durable := After(durable, state, saved);
      return if saved.Stored? then None else Some(PersistFailed);
    }
  }

  // ------------------------------------------------------------------------------------------
  // Runs of one device.

  /** A framed commit; `id` tells builds apart. */
  datatype Commit = Commit(id: nat, epoch: nat, generation: nat)

  /** How far the host's one commit in flight has come. */
  datatype Phase = Idle | Holding | Built(commit: Commit) | Sealed(commit: Commit)

  datatype Device = Device(
    live: Checkpoint, durable: Checkpoint, phase: Phase, journal: Option<Commit>, published: set<Commit>, builds: nat)

  datatype Step =
    | DoReserve(saved: Saved)
    | DoBuild
    | DoConsume(saved: Saved)
    | DoAbandon
    | DoJournal
    | DoPublish
    | DoClear
    | DoSave(saved: Saved)
    | DoPropose(keeps: bool)              // a self-removal proposal spends a generation
    | DoOther(keeps: bool, derives: bool) // any operation that leaves the handshake ratchet alone
    | DoMove(epoch: nat, activity: Activity, keeps: bool)
    | DoCrash

  /** Other operations come back from the MLS library, which may or may not carry the reservation along. */
  function Carried(c: Checkpoint, keeps: bool): Option<Reservation> {
    if keeps then c.reservation else None
  }

  predicate Enabled(d: Device, step: Step) {
    match step
    case DoReserve(_) => d.phase.Idle?
    case DoBuild => d.phase.Holding?
    case DoConsume(_) => d.phase.Built?
    case DoJournal => d.phase.Sealed?
    case DoPublish => d.journal.Some?
    case DoMove(epoch, _, _) => epoch > d.live.epoch
    case _ => true
  }

  function Next(d: Device, step: Step, window: Option<int>): Device
    requires Enabled(d, step)
  {
    match step
    case DoReserve(saved) =>
      var (failure, live, durable) := ReserveOutcome(d.live, d.durable, window, saved);
      d.(live := live, durable := durable, phase := if failure.None? then Holding else Idle)
    case DoBuild =>
      d.(phase := Built(Commit(d.builds, d.live.epoch, Current(d.live))), builds := d.builds + 1)
    case DoConsume(saved) =>
      var (failure, live, durable) := ConsumeOutcome(d.live, d.durable, saved);
      d.(live := live, durable := durable, phase := if failure.None? then Sealed(d.phase.commit) else Idle)
    case DoAbandon => d.(phase := Idle)
    case DoJournal => d.(journal := Some(d.phase.commit), phase := Idle)
    case DoPublish => d.(published := d.published + {d.journal.value})
    case DoClear => d.(journal := None)
    case DoSave(saved) => d.(durable := After(d.durable, d.live, saved))
    case DoPropose(keeps) =>
      d.(live := d.live.(leaf := Some(Current(d.live) + 1), reservation := Carried(d.live, keeps)))
    case DoOther(keeps, derives) =>
      d.(live := d.live.(leaf := if derives then Some(Current(d.live)) else d.live.leaf,
                         reservation := Carried(d.live, keeps)))
    case DoMove(epoch, activity, keeps) => d.(live := Checkpoint(epoch, None, Carried(d.live, keeps), activity))
    case DoCrash => d.(live := d.durable, phase := Idle)
  }

  ghost predicate IsRun(ds: seq<Device>, steps: seq<Step>, window: Option<int>) {
    && |ds| == |steps| + 1
    && forall i :: 0 <= i < |steps| ==> Enabled(ds[i], steps[i]) && ds[i + 1] == Next(ds[i], steps[i], window)
  }

  function Fresh(epoch: nat): Device {
    var c := Checkpoint(epoch, None, None, Active);
    Device(c, c, Idle, None, {}, 0)
  }

  // ------------------------------------------------------------------------------------------
  // The invariant.

  /** Commits that have left, or may yet leave, the device. */
  function Out(d: Device): set<Commit> {
    d.published
    + (if d.journal.Some? then {d.journal.value} else {})
    + (if d.phase.Sealed? then {d.phase.commit} else {})
  }

  /** Nothing framed from this checkpoint on can share the commit's generation. */
  predicate Covers(c: Checkpoint, commit: Commit) {
    && commit.epoch <= c.epoch
    && (commit.epoch == c.epoch ==> commit.generation <= Current(c))
    && (commit.epoch == c.epoch && commit.generation == Current(c) ==> !Unconsumed(c))
  }

  ghost predicate AllCovered(c: Checkpoint, out: set<Commit>) {
    forall commit :: commit in out ==> Covers(c, commit)
  }

  ghost predicate Distinct(out: set<Commit>) {
    forall a, b :: a in out && b in out && a.epoch == b.epoch && a.generation == b.generation ==> a == b
  }

  /** A reservation is never ahead of its checkpoint, and lies in the safe half of the window. */
  predicate ReservationOk(c: Checkpoint, window: Option<int>) {
    c.reservation.Some? ==>
      && c.reservation.value.epoch <= c.epoch
      && (c.reservation.value.epoch == c.epoch ==> c.reservation.value.generation <= Current(c))
      && c.reservation.value.generation <= Limit(window)
  }

  /** While a commit is in flight its reservation, if still there, is unconsumed and no later than its frame. */
  predicate InFlightOk(d: Device) {
    && (d.phase.Holding? || d.phase.Built? ==> d.live.reservation.Some? ==> !d.live.reservation.value.consumed)
    && (d.phase.Built? ==>
          && d.phase.commit.epoch <= d.live.epoch
          && d.phase.commit.id < d.builds
          && (d.phase.commit.epoch == d.live.epoch ==> d.phase.commit.generation <= Current(d.live))
          && (d.live.reservation.Some? && d.live.reservation.value.epoch == d.live.epoch ==>
                d.phase.commit.epoch == d.live.epoch
                && d.live.reservation.value.generation <= d.phase.commit.generation))
  }

  ghost predicate Inv(d: Device, window: Option<int>) {
    && AllCovered(d.live, Out(d)) && AllCovered(d.durable, Out(d))
    && Distinct(Out(d))
    && ReservationOk(d.live, window) && ReservationOk(d.durable, window)
    && InFlightOk(d)
    && (forall commit :: commit in Out(d) ==> commit.generation <= Limit(window))
  }

  /** Reserving moves past everything that is out. */
  lemma ReserveKeeps(d: Device, saved: Saved, window: Option<int>)
    requires Inv(d, window) && d.phase.Idle?
    ensures Inv(Next(d, DoReserve(saved), window), window)
  {
    assert Out(Next(d, DoReserve(saved), window)) == Out(d);
  }

  /** A consumed reservation's commit differs from all that are out: they were framed strictly before it. */
  lemma ConsumeKeeps(d: Device, saved: Saved, window: Option<int>)
    requires Inv(d, window) && d.phase.Built?
    ensures Inv(Next(d, DoConsume(saved), window), window)
  {
    var d', c := Next(d, DoConsume(saved), window), d.phase.commit;
    if MayConsume(d.live) {
      assert Unconsumed(d.live);
      assert c.epoch == d.live.epoch && c.generation == Current(d.live);
      assert forall a :: a in Out(d) && a.epoch == c.epoch ==> a.generation < c.generation;
      assert Out(d') == if saved.Stored? then Out(d) + {c} else Out(d);
    } else {
      assert Out(d') == Out(d);
    }
  }

  lemma OtherStepsKeep(d: Device, step: Step, window: Option<int>)
    requires Inv(d, window) && Enabled(d, step) && !step.DoReserve? && !step.DoConsume?
    ensures Inv(Next(d, step, window), window)
  {
    assert Out(Next(d, step, window)) <= Out(d);
  }

  lemma {:induction false} RunKeeps(ds: seq<Device>, steps: seq<Step>, window: Option<int>, n: nat)
    requires IsRun(ds, steps, window) && Inv(ds[0], window) && n < |ds|
    ensures Inv(ds[n], window)
  {
    if n > 0 {
      RunKeeps(ds, steps, window, n - 1);
      var d, step := ds[n - 1], steps[n - 1];
      assert ds[n] == Next(d, step, window);
      match step
      case DoReserve(saved) => ReserveKeeps(d, saved, window);
      case DoConsume(saved) => ConsumeKeeps(d, saved, window);
      case _ => OtherStepsKeep(d, step, window);
    }
  }

  /** Over any run, no two published commits of one epoch share a generation, and each is in the safe half-window. */
  lemma GenerationsNeverReused(ds: seq<Device>, steps: seq<Step>, window: Option<int>, epoch: nat, a: Commit, b: Commit)
    requires IsRun(ds, steps, window) && ds[0] == Fresh(epoch)
    requires a in ds[|ds| - 1].published && b in ds[|ds| - 1].published && a != b && a.epoch == b.epoch
    ensures a.generation != b.generation
    ensures a.generation <= Limit(window) <= DEFAULT_WINDOW / 2
  {
    RunKeeps(ds, steps, window, |ds| - 1);
  }

  /** Every reservation ever held or stored lies in the safe half of the window. */
  lemma ReservationsStayInWindow(ds: seq<Device>, steps: seq<Step>, window: Option<int>, epoch: nat, n: nat)
    requires IsRun(ds, steps, window) && ds[0] == Fresh(epoch) && n < |ds|
    ensures ReservationOk(ds[n].live, window) && ReservationOk(ds[n].durable, window)
  {
    RunKeeps(ds, steps, window, n);
  }
}
