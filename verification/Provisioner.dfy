/** The last-resort key-package provisioner (`packages/mls-hub/src/provisioner.ts`). */
module Provisioner {
  import opened Wrappers
  import opened Utf8
  import opened KeyPackages
  import opened StringOrder

  datatype Record = Record(notAfter: int, uploadedAt: Option<int>)

  /** What one run meets: clocks, hub answers, store outcomes, and where the process dies, if it does. */
  datatype Script = Script(
    now: int,                           // when the run judges the candidate
    status: Option<Option<Ref>>,        // the package the hub reports in its slot, unless the call fails
    minted: (Ref, int),                 // a fresh package, with its expiry
    stored: Saved,                      // how recording it ends
    answered: bool,                     // whether the upload is answered; it may land either way
    markedAt: int,
    marks: Saved,                       // how recording the upload ends
    pruneNow: int,                      // the prune's own clock reading
    pruneStops: nat,                    // how many deletes happen before the store fails or the process dies
    dies: Option<nat>)

  datatype Saved = Stored | Refused(landed: bool)

  /** The record the hub's slot should hold: later expiry first, then the greater reference. */
  predicate Better(a: Ref, aNotAfter: int, b: Ref, bNotAfter: int) {
    aNotAfter > bNotAfter || (aNotAfter == bNotAfter && Less(b, a))
  }

  ghost predicate IsCandidate(records: seq<(Ref, Record)>, best: (Ref, Record)) {
    best in records && forall r :: r in records ==> !Better(r.0, r.1.notAfter, best.0, best.1.notAfter)
  }

  /** Scan for the best record. */
  method PickCandidate(records: seq<(Ref, Record)>) returns (best: Option<(Ref, Record)>)
    ensures best.None? <==> records == []
    ensures best.Some? ==> IsCandidate(records, best.value)
  {
    best := None;
    var i := 0;
    while i < |records|
      invariant 0 <= i <= |records|
      invariant best.None? <==> i == 0
      invariant best.Some? ==> IsCandidate(records[..i], best.value)
    {
      var record := records[i];
      if best.None? || Better(record.0, record.1.notAfter, best.value.0, best.value.1.notAfter) {
        if best.Some? { NewBest(records[..i], best.value, record); }
        BetterIsIrreflexive(record.0, record.1.notAfter);
        best := Some(record);
      }
      assert records[..i + 1] == records[..i] + [record];
      i := i + 1;
    }
    assert records[..|records|] == records;
  }

  lemma BetterIsIrreflexive(a: Ref, notAfter: int)
    ensures !Better(a, notAfter, a, notAfter)
  {
    if Less(a, a) { LessIsStrict(a, a); }
  }

  lemma NewBest(records: seq<(Ref, Record)>, best: (Ref, Record), x: (Ref, Record))
    requires IsCandidate(records, best) && Better(x.0, x.1.notAfter, best.0, best.1.notAfter)
    ensures forall r :: r in records ==> !Better(r.0, r.1.notAfter, x.0, x.1.notAfter)
  {
    forall r | r in records ensures !Better(r.0, r.1.notAfter, x.0, x.1.notAfter) {
      if Better(r.0, r.1.notAfter, x.0, x.1.notAfter) && Less(x.0, r.0) && Less(best.0, x.0) {
        LessTransitive(best.0, x.0, r.0);
      }
    }
  }

  class Provisioner {
    const rotateWithin: int                  // seconds
    const grace: real                        // seconds
    var store: map<Ref, Record>
    ghost var offered: set<Ref>              // every package whose upload was ever started
    ghost var pruned: map<Ref, Reading>
    ghost var used: set<Ref>

    ghost predicate Valid()
      reads this
    {
      && InCustody(offered, store.Keys, {}, pruned)
      && PrunedLate(pruned, grace)
      && offered <= used && store.Keys <= used && pruned.Keys <= used
    }

    constructor (rotateWithin: int, grace: real)
      ensures Valid() && offered == {} && this.rotateWithin == rotateWithin && this.grace == grace
    {
      this.rotateWithin, this.grace := rotateWithin, grace;
      store, offered, pruned, used := map[], {}, map[], {};
    }

    /** The store's records in some order. */
    method ListRecords() returns (records: seq<(Ref, Record)>)
      ensures forall r :: r in records <==> r.0 in store && store[r.0] == r.1
    {
      records := [];
      var todo := store.Keys;
      while todo != {}
        invariant todo <= store.Keys
        invariant forall r :: r in records <==> r.0 in store && r.0 !in todo && store[r.0] == r.1
        decreases todo
      {
        var ref :| ref in todo;
        records := records + [(ref, store[ref])];
        todo := todo - {ref};
      }
    }

    /** Drop records past their grace except the one this call settled on, one by one, perhaps not to the end. */
    method Prune(records: seq<(Ref, Record)>, keep: Ref, now: int, stops: nat)
      requires Valid()
      requires forall r :: r in records && r.0 in store ==> store[r.0].notAfter == r.1.notAfter
      modifies this`store, this`pruned
      ensures Valid()
      ensures forall ref :: ref in old(store) && ref !in store ==>
                ref != keep && PastGrace(old(store)[ref].notAfter, now, grace)
      ensures forall ref :: ref in store ==> ref in old(store) && store[ref] == old(store)[ref]
    {
      hide InCustody, PrunedLate, PastGrace;
      var i, deletes := 0, 0;
      while i < |records|
        invariant 0 <= i <= |records| && Valid()
        invariant forall ref :: ref in old(store) && ref !in store ==>
                    ref != keep && PastGrace(old(store)[ref].notAfter, now, grace)
        invariant forall ref :: ref in store ==> ref in old(store) && store[ref] == old(store)[ref]
      {
        var (ref, record) := records[i];
        assert records[i] in records;
        if ref != keep && PastGrace(record.notAfter, now, grace) {
          if deletes >= stops { return; }
          if ref in store {
            GivenUp(offered, store, ref, pruned, Reading(record.notAfter, now), grace);
            pruned := pruned[ref := Reading(record.notAfter, now)];
            store := store - {ref};
          }
          deletes := deletes + 1;
        }
        i := i + 1;
      }
    }

    /** Upload a recorded package and record that it was uploaded; on failure the record stays. */
    method Settle(script: Script, ref: Ref, record: Record,
        records: seq<(Ref, Record)>) returns (ended: Ended<(bool, Ref)>)
      requires Valid() && ref in store && store[ref].notAfter == record.notAfter
      requires forall r :: r in records && r.0 in store ==> store[r.0].notAfter == r.1.notAfter
      modifies this
      ensures Valid() && used == old(used)
      ensures offered == old(offered) + {ref} && ref in store
      ensures ended.Done? ==> ended.value == (true, ref) && store[ref] == Record(record.notAfter, Some(script.markedAt))
    {
      hide InCustody, PrunedLate, PastGrace;
      AlsoOffered(offered, store, ref, pruned);
      offered := offered + {ref};
      if script.dies == Some(1) { return Died; }
      if !script.answered {
        Prune(records, ref, script.pruneNow, script.pruneStops);
        return HubFailed;
      }
      if script.marks.Stored? || script.marks.landed {
        StillHeld(offered, store, ref, Record(record.notAfter, Some(script.markedAt)), pruned);
        store := store[ref := Record(record.notAfter, Some(script.markedAt))];
      }
      if script.marks.Refused? { return StoreFailed; }
      if script.dies == Some(2) { return Died; }
      Prune(records, ref, script.pruneNow, script.pruneStops);
      return Done((true, ref));
    }

    /** Bring the hub's slot up to date: resume, repair, or mint; prune on every path. */
    method Run(script: Script) returns (ended: Ended<(bool, Ref)>)
      requires Valid() && script.minted.0 !in used
      modifies this
      ensures Valid()
      // Every package this call offered, and the one it settled on, still has its record.
      ensures forall ref :: ref in offered && ref !in old(offered) ==> ref in store
      ensures ended.Done? ==> ended.value.1 in store
      // It mints only when no recorded package is worth keeping.
      ensures script.minted.0 in used ==>
                forall ref :: ref in old(store) ==> old(store)[ref].notAfter - script.now <= rotateWithin
      // It reports the slot untouched only when the hub said it holds the best recorded package.
      ensures ended.Done? && !ended.value.0 ==>
                && script.status == Some(Some(ended.value.1)) && offered == old(offered)
                && ended.value.1 in old(store)
                && old(store)[ended.value.1].notAfter - script.now > rotateWithin
    {
      hide InCustody, PrunedLate, PastGrace;
      var records := ListRecords();
      if script.dies == Some(0) { return Died; }
      var candidate := PickCandidate(records);
      if candidate.Some? && candidate.value.1.notAfter - script.now > rotateWithin {
        var (ref, record) := candidate.value;
        if record.uploadedAt.None? {
          ended := Settle(script, ref, record, records);
          return;
        }
        // The hub is the only authority on whether the package is still there.
        if script.status.None? {
          Prune(records, ref, script.pruneNow, script.pruneStops);
          return HubFailed;
        }
        if script.status.value != Some(ref) {
          ended := Settle(script, ref, record, records);
          return;
        }
        Prune(records, ref, script.pruneNow, script.pruneStops);
        return Done((false, ref));
      }
      NoneWorthKeeping(records, candidate, script.now, rotateWithin);
      assert forall ref :: ref in store ==> (ref, store[ref]) in records;
      var (ref, notAfter) := script.minted;
      used := used + {ref};
      // Durable before the upload.
      if script.stored.Stored? || script.stored.landed {
        StillHeld(offered, store, ref, Record(notAfter, None), pruned);
        store := store[ref := Record(notAfter, None)];
      }
      if script.stored.Refused? { return StoreFailed; }
      ended := Settle(script, ref, Record(notAfter, None), records + [(ref, Record(notAfter, None))]);
    }
  }

  lemma GivenUp(offered: set<Ref>, store: map<Ref, Record>, ref: Ref, pruned: map<Ref, Reading>,
      reading: Reading, grace: real)
    requires InCustody(offered, store.Keys, {}, pruned) && PrunedLate(pruned, grace)
    requires PastGrace(reading.notAfter, reading.now, grace)
    ensures InCustody(offered, (store - {ref}).Keys, {}, pruned[ref := reading])
    ensures PrunedLate(pruned[ref := reading], grace)
  {
  }

  lemma AlsoOffered(offered: set<Ref>, store: map<Ref, Record>, ref: Ref, pruned: map<Ref, Reading>)
    requires InCustody(offered, store.Keys, {}, pruned) && ref in store
    ensures InCustody(offered + {ref}, store.Keys, {}, pruned)
  {
  }

  lemma StillHeld(offered: set<Ref>, store: map<Ref, Record>, ref: Ref, record: Record, pruned: map<Ref, Reading>)
    requires InCustody(offered, store.Keys, {}, pruned)
    ensures InCustody(offered, store[ref := record].Keys, {}, pruned)
  {
  }

  /** When the best record is inside the rotation window, so are all. */
  lemma NoneWorthKeeping(records: seq<(Ref, Record)>, candidate: Option<(Ref, Record)>, now: int, within: int)
    requires candidate.None? ==> records == []
    requires candidate.Some? ==> IsCandidate(records, candidate.value) && candidate.value.1.notAfter - now <= within
    ensures forall r :: r in records ==> r.1.notAfter - now <= within
  {
  }
}
