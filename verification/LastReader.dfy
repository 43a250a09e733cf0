/**
  The last reader collects (`ack` and `unsubscribe` of the SQL store).

  Neither runs in a transaction: each is a series of statements that commit on their own, so any
  number of them interleave with each other, with committing publishes and with sweeps. A mailbox
  frame must go with its last delivery, and never before it.
 */
module LastReader {
  import opened Wrappers
  import opened PublishHistory

  datatype Frame = Frame(topic: string, retain: Class)
  datatype Delivery = Delivery(seqID: nat, recipient: string)

  datatype Call =
    | Ack(recipient: string, seqIDs: set<nat>)
    | Unsubscribe(subscriber: string, topic: string)

  /** Where a call stands, with the IDs it is about and, once read, those left without a delivery. */
  datatype Stage =
    | SelectPending
    | DeleteDeliveries(ids: set<nat>)
    | ReadRemaining(ids: set<nat>)
    | DeleteFrames(ids: set<nat>, orphaned: set<nat>)

  datatype Process = Process(call: Call, stage: Stage)

  datatype State = State(
    counter: nat,                      // the last committed publish
    messages: map<nat, Frame>,
    deliveries: set<Delivery>,
    running: map<nat, Process>)

  datatype Event =
    | Publish(seqID: nat, frame: Frame, recipients: set<string>)
    | Sweep(frames: set<nat>)
    | Begin(id: nat, call: Call)
    | Exec(id: nat)
    | Die(id: nat)                     // the process running a call is gone, between two statements

  const Initial := State(0, map[], {}, map[])

  function Reader(c: Call): string {
    match c
    case Ack(recipient, _) => recipient
    case Unsubscribe(subscriber, _) => subscriber
  }

  predicate Delivered(s: State, id: nat) {
    exists d :: d in s.deliveries && d.seqID == id
  }

  function Finish(s: State, id: nat): State {
    s.(running := s.running - {id})
  }

  function Move(s: State, id: nat, call: Call, stage: Stage): State {
    s.(running := s.running[id := Process(call, stage)])
  }

  /** One committed statement. `None` is an event that cannot happen here. */
  function Next(s: State, e: Event): Option<State> {
    match e
    case Publish(seqID, frame, recipients) =>
      // IDs commit in increasing order; a mailbox frame is stored only if it has recipients.
      if seqID <= s.counter then None
      else if frame.retain == Mailbox && recipients == {} then Some(s.(counter := seqID))
      else Some(s.(
        counter := seqID,
        messages := s.messages[seqID := frame],
        deliveries := s.deliveries + set r | r in recipients :: Delivery(seqID, r)))
    case Sweep(frames) =>
      // A trim, purge or eviction: frames and the deliveries pointing at them commit together.
      Some(s.(messages := s.messages - frames,
              deliveries := set d | d in s.deliveries && d.seqID !in frames))
    case Begin(id, call) =>
      if id in s.running then None
      else if call.Unsubscribe? then Some(Move(s, id, call, SelectPending))
      else if call.seqIDs == {} then Some(s)
      else Some(Move(s, id, call, DeleteDeliveries(call.seqIDs)))
    case Exec(id) => if id in s.running then Some(ExecStage(s, id, s.running[id])) else None
    case Die(id) => if id in s.running then Some(Finish(s, id)) else None
  }

  function ExecStage(s: State, id: nat, p: Process): State {
    var reader := Reader(p.call);
    match p.stage
    case SelectPending =>
      var ids := if p.call.Ack? then {} else
        set d | d in s.deliveries && d.recipient == reader && d.seqID in s.messages
                && s.messages[d.seqID].topic == p.call.topic :: d.seqID;
      if ids == {} then Finish(s, id) else Move(s, id, p.call, DeleteDeliveries(ids))
    case DeleteDeliveries(ids) =>
      Move(s, id, p.call, ReadRemaining(ids)).(
        deliveries := set d | d in s.deliveries && !(d.recipient == reader && d.seqID in ids))
    case ReadRemaining(ids) =>
      var orphaned := set x | x in ids && !Delivered(s, x);
      if orphaned == {} then Finish(s, id) else Move(s, id, p.call, DeleteFrames(ids, orphaned))
    case DeleteFrames(_, orphaned) =>
      Finish(s, id).(
        messages := map x | x in s.messages && !(x in orphaned && s.messages[x].retain == Mailbox) :: s.messages[x])
  }

  function Run(s: State, events: seq<Event>): Option<State>
    decreases |events|
  {
    if events == [] then Some(s)
    else
      var s' := Next(s, events[0]);
      if s'.None? then None else Run(s'.value, events[1..])
  }

  // ------------------------------------------------------------------------------------------
  // What every statement keeps.

  /** No delivery points at a frame that is gone. */
  ghost predicate Referential(s: State) {
    forall d :: d in s.deliveries ==> d.seqID in s.messages
  }

  /** A call in flight that will collect this frame. */
  ghost predicate Collects(p: Process, id: nat) {
    || (p.stage.ReadRemaining? && id in p.stage.ids)
    || (p.stage.DeleteFrames? && id in p.stage.orphaned)
  }

  ghost predicate Orphan(s: State, id: nat) {
    id in s.messages && s.messages[id].retain == Mailbox && !Delivered(s, id)
  }

  ghost predicate Collected(s: State) {
    forall id :: Orphan(s, id) ==> exists i :: i in s.running && Collects(s.running[i], id)
  }

  /** A call in flight names only IDs that some publish has already committed. */
  ghost predicate Known(s: State, p: Process) {
    match p.stage
    case SelectPending => p.call.Unsubscribe?
    case DeleteDeliveries(ids) => forall x :: x in ids ==> x <= s.counter
    case ReadRemaining(ids) => forall x :: x in ids ==> x <= s.counter
    case DeleteFrames(ids, orphaned) => forall x :: x in orphaned ==> x <= s.counter && !Delivered(s, x)
  }

  /** What keeps a delivered frame stored; deaths included. */
  ghost predicate Safe(s: State) {
    && Referential(s)
    && (forall id :: id in s.messages ==> id <= s.counter)
    && (forall i :: i in s.running ==> Known(s, s.running[i]))
  }

  ghost predicate Inv(s: State) {
    Safe(s) && Collected(s)
  }

  /** What a caller of `ack` is asked to keep to: it names IDs it can have been delivered. */
  ghost predicate Acceptable(s: State, e: Event) {
    e.Begin? && e.call.Ack? ==> forall x :: x in e.call.seqIDs ==> x <= s.counter
  }

  ghost predicate AcceptableRun(s: State, events: seq<Event>)
    decreases |events|
  {
    events == [] ||
    (Acceptable(s, events[0]) &&
     (Next(s, events[0]).Some? ==> AcceptableRun(Next(s, events[0]).value, events[1..])))
  }

  lemma SafePublish(s: State, e: Event)
    requires Safe(s) && e.Publish? && Next(s, e).Some?
    ensures Safe(Next(s, e).value)
  {
  }

  lemma SafeExec(s: State, i: nat)
    requires Safe(s) && i in s.running
    ensures Safe(Next(s, Exec(i)).value)
  {
    var s' := Next(s, Exec(i)).value;
    forall d | d in s'.deliveries ensures d.seqID in s'.messages {
      assert Delivered(s, d.seqID);
    }
  }

  /** No statement, sweep or death endangers a delivered frame. */
  lemma SafeStep(s: State, e: Event)
    requires Safe(s) && Acceptable(s, e) && Next(s, e).Some?
    ensures Safe(Next(s, e).value)
  {
    match e
    case Publish(_, _, _) => SafePublish(s, e);
    case Exec(i) => SafeExec(s, i);
    case Sweep(_) =>
    case Begin(_, _) =>
    case Die(_) =>
  }

  lemma {:induction false} SafeRun(s: State, events: seq<Event>)
    requires Safe(s) && AcceptableRun(s, events) && Run(s, events).Some?
    ensures Safe(Run(s, events).value)
    decreases |events|
  {
    if events != [] {
      SafeStep(s, events[0]);
      SafeRun(Next(s, events[0]).value, events[1..]);
    }
  }

  /** No process dies in the middle of a call. */
  predicate Deathless(events: seq<Event>) {
    forall i :: 0 <= i < |events| ==> !events[i].Die?
  }

  lemma PublishKeeps(s: State, e: Event)
    requires Inv(s) && e.Publish? && Next(s, e).Some?
    ensures Inv(Next(s, e).value)
  {
    var s' := Next(s, e).value;
    assert forall d :: d in s.deliveries ==> d in s'.deliveries;
    if e.recipients != {} {
      var r :| r in e.recipients;
      assert Delivery(e.seqID, r) in s'.deliveries;
    }
    forall id | Orphan(s', id) ensures exists i :: i in s'.running && Collects(s'.running[i], id) {
      assert Orphan(s, id);
    }
  }

  lemma SweepKeeps(s: State, e: Event)
    requires Inv(s) && e.Sweep?
    ensures Inv(Next(s, e).value)
  {
    var s' := Next(s, e).value;
    forall id | Orphan(s', id) ensures exists i :: i in s'.running && Collects(s'.running[i], id) {
      assert Delivered(s, id) ==> exists d :: d in s'.deliveries && d.seqID == id;
      assert Orphan(s, id);
    }
  }

  lemma BeginKeeps(s: State, e: Event)
    requires Inv(s) && e.Begin? && Acceptable(s, e) && Next(s, e).Some?
    ensures Inv(Next(s, e).value)
  {
    var s' := Next(s, e).value;
    forall id | Orphan(s', id) ensures exists i :: i in s'.running && Collects(s'.running[i], id) {
      assert Orphan(s, id);
      var i :| i in s.running && Collects(s.running[i], id);
      assert s'.running[i] == s.running[i];
    }
  }

  lemma SelectKeeps(s: State, i: nat)
    requires Inv(s) && i in s.running && s.running[i].stage.SelectPending?
    ensures Inv(Next(s, Exec(i)).value)
  {
    var s' := Next(s, Exec(i)).value;
    forall id | Orphan(s', id) ensures exists j :: j in s'.running && Collects(s'.running[j], id) {
      assert Orphan(s, id);
      var j :| j in s.running && Collects(s.running[j], id);
      assert s'.running[j] == s.running[j];
    }
  }

  lemma DeleteDeliveriesKeeps(s: State, i: nat)
    requires Inv(s) && i in s.running && s.running[i].stage.DeleteDeliveries?
    ensures Inv(Next(s, Exec(i)).value)
  {
    var s' := Next(s, Exec(i)).value;
    forall id | Orphan(s', id) ensures exists j :: j in s'.running && Collects(s'.running[j], id) {
      if Orphan(s, id) {
        var j :| j in s.running && Collects(s.running[j], id);
        assert s'.running[j] == s.running[j];
      } else {
        // This statement took the last delivery.
        var d :| d in s.deliveries && d.seqID == id;
        assert d !in s'.deliveries;
        assert Collects(s'.running[i], id);
      }
    }
  }

  lemma ReadRemainingKeeps(s: State, i: nat)
    requires Inv(s) && i in s.running && s.running[i].stage.ReadRemaining?
    ensures Inv(Next(s, Exec(i)).value)
  {
    var s' := Next(s, Exec(i)).value;
    var orphaned := set x | x in s.running[i].stage.ids && !Delivered(s, x);
    forall id | Orphan(s', id) ensures exists j :: j in s'.running && Collects(s'.running[j], id) {
      assert Orphan(s, id);
      var j :| j in s.running && Collects(s.running[j], id);
      if j == i {
        assert id in orphaned;
        assert Collects(s'.running[i], id);
      } else {
        assert s'.running[j] == s.running[j];
      }
    }
  }

  lemma DeleteFramesKeeps(s: State, i: nat)
    requires Inv(s) && i in s.running && s.running[i].stage.DeleteFrames?
    ensures Inv(Next(s, Exec(i)).value)
  {
    var s' := Next(s, Exec(i)).value;
    forall id | Orphan(s', id) ensures exists j :: j in s'.running && Collects(s'.running[j], id) {
      assert Orphan(s, id);
      var j :| j in s.running && Collects(s.running[j], id);
      assert s'.running[j] == s.running[j];
    }
    forall d | d in s'.deliveries ensures d.seqID in s'.messages {
      assert Delivered(s, d.seqID);
    }
  }

  lemma StepKeeps(s: State, e: Event)
    requires Inv(s) && Acceptable(s, e) && Next(s, e).Some? && !e.Die?
    ensures Inv(Next(s, e).value)
  {
    match e
    case Publish(_, _, _) => PublishKeeps(s, e);
    case Sweep(_) => SweepKeeps(s, e);
    case Begin(_, _) => BeginKeeps(s, e);
    case Exec(i) =>
      match s.running[i].stage
      case SelectPending => SelectKeeps(s, i);
      case DeleteDeliveries(_) => DeleteDeliveriesKeeps(s, i);
      case ReadRemaining(_) => ReadRemainingKeeps(s, i);
      case DeleteFrames(_, _) => DeleteFramesKeeps(s, i);
  }

  lemma {:induction false} RunKeeps(s: State, events: seq<Event>)
    requires Inv(s) && AcceptableRun(s, events) && Run(s, events).Some? && Deathless(events)
    ensures Inv(Run(s, events).value)
    decreases |events|
  {
    if events != [] {
      assert !events[0].Die?;
      StepKeeps(s, events[0]);
      RunKeeps(Next(s, events[0]).value, events[1..]);
    }
  }

  // ------------------------------------------------------------------------------------------
  // The two promises.

  /** Over any interleaving, deaths included, no mailbox or log frame is deleted while a delivery points at it. */
  lemma NoDeliveryDangles(events: seq<Event>)
    requires AcceptableRun(Initial, events) && Run(Initial, events).Some?
    ensures Referential(Run(Initial, events).value)
  {
    SafeRun(Initial, events);
  }

  /** Once every call has finished, none of them cut short, no mailbox frame is left that nobody will read. */
  lemma LastReaderCollects(events: seq<Event>)
    requires AcceptableRun(Initial, events) && Run(Initial, events).Some? && Deathless(events)
    requires Run(Initial, events).value.running == map[]
    ensures forall id :: !Orphan(Run(Initial, events).value, id)
  {
    RunKeeps(Initial, events);
  }

  // ------------------------------------------------------------------------------------------
  // What a death leaves behind.

  /** The states of a run, one before each event and one at the end. */
  function States(s: State, events: seq<Event>): seq<State>
    decreases |events|
  {
    if events == [] || Next(s, events[0]).None? then [s] else [s] + States(Next(s, events[0]).value, events[1..])
  }

  ghost predicate IsTrace(states: seq<State>, events: seq<Event>) {
    && |states| == |events| + 1
    && forall i :: 0 <= i < |events| ==> Next(states[i], events[i]) == Some(states[i + 1])
  }

  lemma {:induction false} StatesOfRun(s: State, events: seq<Event>)
    requires Run(s, events).Some?
    ensures IsTrace(States(s, events), events)
    ensures States(s, events)[0] == s && States(s, events)[|events|] == Run(s, events).value
    decreases |events|
  {
    hide Next;
    if events != [] {
      StatesOfRun(Next(s, events[0]).value, events[1..]);
    }
  }

  /** Event `i` is the statement by which call `p` drops the last delivery of this frame. */
  ghost predicate DropsLast(states: seq<State>, events: seq<Event>, i: nat, p: nat, id: nat)
    requires IsTrace(states, events) && i < |events|
  {
    events[i] == Exec(p) && Delivered(states[i], id) && !Delivered(states[i + 1], id)
  }

  /** Call `p` dies at event `j`, before it collected this frame. */
  ghost predicate DiesHolding(states: seq<State>, events: seq<Event>, j: nat, p: nat, id: nat)
    requires IsTrace(states, events) && j < |events|
  {
    events[j] == Die(p) && p in states[j].running && Collects(states[j].running[p], id) && Orphan(states[j], id)
  }

  ghost predicate Dropper(states: seq<State>, events: seq<Event>, n: nat, i: nat, p: nat, id: nat)
    requires IsTrace(states, events) && n < |states|
  {
    && i < n && DropsLast(states, events, i, p, id)
    && ((p in states[n].running && Collects(states[n].running[p], id))
        || exists j :: i < j < n && DiesHolding(states, events, j, p, id))
  }

  lemma PublishedIsRead(s: State, e: Event, id: nat)
    requires e.Publish? && Next(s, e).Some? && !Orphan(s, id)
    ensures !Orphan(Next(s, e).value, id)
  {
    var s' := Next(s, e).value;
    assert forall d :: d in s.deliveries ==> d in s'.deliveries;
    if e.recipients != {} {
      var r :| r in e.recipients;
      assert Delivery(e.seqID, r) in s'.deliveries;
    }
  }

  /** Mail becomes an orphan only by the statement of a call that then has it to collect. */
  lemma NewOrphan(s: State, e: Event, id: nat)
    requires Next(s, e).Some? && !Orphan(s, id) && Orphan(Next(s, e).value, id)
    ensures e.Exec? && Delivered(s, id) && !Delivered(Next(s, e).value, id)
    ensures e.id in Next(s, e).value.running && Collects(Next(s, e).value.running[e.id], id)
  {
    var s' := Next(s, e).value;
    if e.Publish? { PublishedIsRead(s, e, id); }
    if Delivered(s, id) {
      var d :| d in s.deliveries && d.seqID == id;
      assert d !in s'.deliveries;
    }
  }

  /** A call that has orphaned mail to collect collects it, or goes on having it, or dies. */
  lemma CollectorGoesOn(s: State, e: Event, id: nat, p: nat)
    requires Next(s, e).Some? && p in s.running && Collects(s.running[p], id) && e != Die(p)
    requires Orphan(s, id) && Orphan(Next(s, e).value, id)
    ensures p in Next(s, e).value.running && Collects(Next(s, e).value.running[p], id)
  {
    if e == Exec(p) && s.running[p].stage.ReadRemaining? {
      var orphaned := set x | x in s.running[p].stage.ids && !Delivered(s, x);
      assert id in orphaned;
      assert ExecStage(s, p, s.running[p]).running[p].stage == DeleteFrames(s.running[p].stage.ids, orphaned);
    }
  }

  /** Whoever dropped the last delivery of an orphan is about to collect it, or died first. */
  lemma {:induction false} OrphanHasDropper(states: seq<State>, events: seq<Event>, n: nat, id: nat)
      returns (i: nat, p: nat)
    requires IsTrace(states, events) && states[0] == Initial && n < |states| && Orphan(states[n], id)
    ensures Dropper(states, events, n, i, p, id)
  {
    hide Orphan, Delivered, Collects, Next;
    assert n > 0 by { NoOrphanAtFirst(id); }
    var s, e := states[n - 1], events[n - 1];
    if Orphan(s, id) {
      i, p := OrphanHasDropper(states, events, n - 1, id);
      if p in s.running && Collects(s.running[p], id) {
        if e == Die(p) {
          assert DiesHolding(states, events, n - 1, p, id);
        } else {
          CollectorGoesOn(s, e, id, p);
        }
      } else {
        var j :| i < j < n - 1 && DiesHolding(states, events, j, p, id);
      }
    } else {
      NewOrphan(s, e, id);
      i, p := n - 1, e.id;
    }
  }

  lemma NoOrphanAtFirst(id: nat)
    ensures !Orphan(Initial, id)
  {
  }

  /**
    Once every call is over, mail that nobody will read is left only by a call that dropped its
    last delivery and died before it collected the frame.
   */
  lemma OnlyDeathLeavesMail(events: seq<Event>, id: nat)
    requires Run(Initial, events).Some? && Run(Initial, events).value.running == map[]
    requires Orphan(Run(Initial, events).value, id)
    ensures var states := States(Initial, events);
            && IsTrace(states, events)
            && exists p, i, j :: 0 <= i < j < |events|
                 && DropsLast(states, events, i, p, id) && DiesHolding(states, events, j, p, id)
  {
    var states := States(Initial, events);
    StatesOfRun(Initial, events);
    var i, p := OrphanHasDropper(states, events, |events|, id);
    var j :| i < j < |events| && DiesHolding(states, events, j, p, id);
  }

  /** A process that dies after dropping the last delivery leaves its mailbox frame to the purge. */
  lemma DeathLeavesMail(id: nat, reader: string)
    requires id > 0
    ensures var events := [Publish(id, Frame("", Mailbox), {reader}), Begin(0, Ack(reader, {id})), Exec(0), Die(0)];
            && AcceptableRun(Initial, events) && Run(Initial, events).Some?
            && Run(Initial, events).value.running == map[] && Orphan(Run(Initial, events).value, id)
  {
    var publish, begin := Publish(id, Frame("", Mailbox), {reader}), Begin(0, Ack(reader, {id}));
    var exec, die := Exec(0), Die(0);
    var s1 := Next(Initial, publish).value;
    assert s1.deliveries == {Delivery(id, reader)};
    var s2 := Next(s1, begin).value;
    var s3 := Next(s2, exec).value;
    assert s3.deliveries == {};
    var s4 := Next(s3, die).value;
    assert [die][1..] == [] && [exec, die][1..] == [die];
    assert [begin, exec, die][1..] == [exec, die] && [publish, begin, exec, die][1..] == [begin, exec, die];
    assert Run(s4, []) == Some(s4) && AcceptableRun(s4, []);
    assert Run(s3, [die]) == Some(s4) && AcceptableRun(s3, [die]);
    assert Run(s2, [exec, die]) == Some(s4) && AcceptableRun(s2, [exec, die]);
    assert Run(s1, [begin, exec, die]) == Some(s4) && AcceptableRun(s1, [begin, exec, die]);
  }

  /** Acks and unsubscribes never touch a log frame, nor another reader's delivery. */
  lemma OnlyOwnDeliveriesAndMail(s: State, i: nat)
    requires i in s.running
    ensures var s' := Next(s, Exec(i)).value;
            && (forall id :: id in s.messages && s.messages[id].retain == Log ==>
                  id in s'.messages && s'.messages[id] == s.messages[id])
            && s'.messages.Keys <= s.messages.Keys
            && s'.deliveries <= s.deliveries
            && (forall d :: d in s.deliveries && d.recipient != Reader(s.running[i].call) ==> d in s'.deliveries)
  {
  }

  // ------------------------------------------------------------------------------------------
  // Naming only committed IDs is exactly what an ack has to do.

  ghost predicate AlwaysReferential(s: State) {
    forall events :: AcceptableRun(s, events) && Run(s, events).Some? ==> Referential(Run(s, events).value)
  }

  /**
    An ack that names an ID no publish has committed yet can have the frame of that ID deleted
    under its reader, when the publish commits between the ack's read and its delete. An ack is
    safe in every continuation if and only if it names committed IDs alone.
   */
  lemma AckIsSafeIffCommitted(s: State, id: nat, reader: string, ids: set<nat>)
    requires Safe(s) && id !in s.running && ids != {}
    ensures AlwaysReferential(Next(s, Begin(id, Ack(reader, ids))).value)
        <==> forall x :: x in ids ==> x <= s.counter
  {
    var begin := Begin(id, Ack(reader, ids));
    var s1 := Next(s, begin).value;
    if forall x :: x in ids ==> x <= s.counter {
      SafeStep(s, begin);
      forall events | AcceptableRun(s1, events) && Run(s1, events).Some?
        ensures Referential(Run(s1, events).value)
      {
        SafeRun(s1, events);
      }
    } else {
      var x :| x in ids && x > s.counter;
      EarlyAckDangles(s, id, reader, ids, x);
    }
  }

  lemma EarlyAckDangles(s: State, id: nat, reader: string, ids: set<nat>, x: nat)
    requires Safe(s) && id !in s.running && x in ids && x > s.counter
    ensures var s1 := Next(s, Begin(id, Ack(reader, ids))).value;
            var events := [Exec(id), Exec(id), Publish(x, Frame("", Mailbox), {reader}), Exec(id)];
            AcceptableRun(s1, events) && Run(s1, events).Some? && !Referential(Run(s1, events).value)
  {
    var publish := Publish(x, Frame("", Mailbox), {reader});
    var s1 := Next(s, Begin(id, Ack(reader, ids))).value;
    var s2 := Next(s1, Exec(id)).value;
    assert !Delivered(s2, x);
    var orphaned := set y | y in ids && !Delivered(s2, y);
    assert x in orphaned;
    var s3 := Next(s2, Exec(id)).value;
    assert s3.running[id].stage == DeleteFrames(ids, orphaned);
    var s4 := Next(s3, publish).value;
    assert Delivery(x, reader) in s4.deliveries;
    var s5 := Next(s4, Exec(id)).value;
    assert Delivery(x, reader) in s5.deliveries && x !in s5.messages;
    var e := Exec(id);
    assert [e][1..] == [] && [publish, e][1..] == [e];
    assert [e, publish, e][1..] == [publish, e] && [e, e, publish, e][1..] == [e, publish, e];
    assert Run(s5, []) == Some(s5) && AcceptableRun(s5, []);
    assert Run(s4, [e]) == Some(s5) && AcceptableRun(s4, [e]);
    assert Run(s3, [publish, e]) == Some(s5) && AcceptableRun(s3, [publish, e]);
    assert Run(s2, [e, publish, e]) == Some(s5) && AcceptableRun(s2, [e, publish, e]);
  }
}
