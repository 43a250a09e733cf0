/** The ordinary key-package pool (`packages/mls-hub/src/pool.ts`). */
module Pool {
  import opened Wrappers
  import opened KeyPackages

  /** A host calling `release` while a run is awaiting. */
  datatype Event = Released(ref: Ref)

  /** What one run meets: clock, hub answers, store outcomes, and where the process dies, if it does. */
  datatype Script = Script(
    count: Option<nat>,                 // the depth the hub reports, unless the call fails
    minted: nat -> (Ref, int),          // fresh packages, with their expiry
    stored: set<Ref>,                   // which of the minted records reach the store
    answered: bool,                     // whether the upload is answered; it may land either way
    now: int,                           // the prune's own clock reading
    deleted: set<Ref>,                  // which of its deletes reach the store
    during: nat -> seq<Event>,
    dies: Option<nat>)

  datatype ConfigError = BadTarget | BadLowWater | BadGrace

  /** Create a pool, or say which bound the configuration breaks. */
  method CreatePool(target: int, lowWater: int, graceDays: real) returns (r: Result<Pool, ConfigError>)
    ensures r.Ok? <==> target > 0 && 1 <= lowWater <= target && graceDays >= 0.0
    ensures r.Ok? ==> fresh(r.value) && r.value.Valid() && r.value.offered == {}
                      && r.value.target == target && r.value.lowWater == lowWater
                      && r.value.grace == graceDays * DAY_SECONDS as real
  {
    if target <= 0 { return Err(BadTarget); }
    if lowWater < 1 || lowWater > target { return Err(BadLowWater); }
    if graceDays < 0.0 { return Err(BadGrace); }
    var pool := new Pool(target, lowWater, graceDays * DAY_SECONDS as real);
    return Ok(pool);
  }

  class Pool {
    const target: nat
    const lowWater: nat
    const grace: real
    var store: map<Ref, int>                 // each record's expiry
    ghost var offered: set<Ref>              // every package whose upload was ever started
    ghost var released: set<Ref>
    ghost var pruned: map<Ref, Reading>
    ghost var used: set<Ref>                 // every package ever minted

    ghost predicate Valid()
      reads this
    {
      && 1 <= lowWater <= target && grace >= 0.0
      && InCustody(offered, store.Keys, released, pruned)
      && PrunedLate(pruned, grace)
      && offered <= used && store.Keys <= used && pruned.Keys <= used
    }

    constructor (target: nat, lowWater: nat, grace: real)
      requires 1 <= lowWater <= target && grace >= 0.0
      ensures Valid() && offered == {} && this.target == target && this.lowWater == lowWater && this.grace == grace
    {
      this.target, this.lowWater, this.grace := target, lowWater, grace;
      store, offered, released, pruned, used := map[], {}, {}, map[], {};
    }

    /** Drop a record once its Welcome has been processed. */
    method Release(ref: Ref)
      requires Valid()
      modifies this`store, this`released
      ensures Valid()
      ensures store == old(store) - {ref} && released == old(released) + {ref}
    {
      store := store - {ref};
      released := released + {ref};
    }

    /** What may happen while a run awaits, and whether the process survives it. */
    method Await(script: Script, at: nat) returns (alive: bool)
      requires Valid()
      modifies this`store, this`released
      ensures Valid()
      ensures old(released) <= released
      ensures forall ref :: ref in old(store) ==> ref in store || ref in released
      ensures forall ref :: ref in store ==> ref in old(store) && store[ref] == old(store)[ref]
      ensures alive <==> script.dies != Some(at)
    {
      var events := script.during(at);
      var i := 0;
      while i < |events|
        invariant 0 <= i <= |events|
        invariant Valid() && old(released) <= released
        invariant forall ref :: ref in old(store) ==> ref in store || ref in released
        invariant forall ref :: ref in store ==> ref in old(store) && store[ref] == old(store)[ref]
      {
        Release(events[i].ref);
        i := i + 1;
      }
      return script.dies != Some(at);
    }

    /** Mint a batch, every record written before any is uploaded; some writes may not arrive. */
    method MintAll(script: Script, wanted: nat) returns (records: map<Ref, int>, settled: bool)
      requires Valid() && Fresh(script, wanted)
      modifies this`store, this`used
      ensures Valid()
      ensures records == Batch(script, wanted)
      ensures used == old(used) + records.Keys
      ensures settled <==> records.Keys <= script.stored
      ensures forall ref :: ref in store <==> ref in old(store) || (ref in records && ref in script.stored)
      ensures forall ref :: ref in store ==> store[ref] == if ref in records then records[ref] else old(store)[ref]
    {
      hide InCustody, PrunedLate;
      records, settled := map[], true;
      var i := 0;
      while i < wanted
        invariant 0 <= i <= wanted && Valid()
        invariant records == Batch(script, i) && used == old(used) + records.Keys
        invariant settled <==> records.Keys <= script.stored
        invariant forall ref :: ref in store <==> ref in old(store) || (ref in records && ref in script.stored)
        invariant forall ref :: ref in store ==> store[ref] == if ref in records then records[ref] else old(store)[ref]
      {
        var (ref, notAfter) := script.minted(i);
        if ref in script.stored {
          HeldGrows(offered, store, ref, notAfter, released, pruned);
          store := store[ref := notAfter];
        } else {
          settled := false;
        }
        used := used + {ref};
        records := records[ref := notAfter];
        i := i + 1;
      }
    }

    /** The packages of a run are new and distinct. */
    ghost predicate Fresh(script: Script, wanted: nat)
      reads this
    {
      && (forall i :: 0 <= i < wanted ==> script.minted(i).0 !in used)
      && (forall i, j :: 0 <= i < j < wanted ==> script.minted(i).0 != script.minted(j).0)
    }

    /** Drop records past their grace except those this call minted; deletes are concurrent and may fail. */
    method Prune(records: map<Ref, int>, keep: set<Ref>, now: int, deleted: set<Ref>)
      requires Valid() && forall ref :: ref in store && ref in records ==> store[ref] == records[ref]
      modifies this`store, this`pruned
      ensures Valid()
      ensures forall ref :: ref in old(store) && ref !in store ==>
                ref !in keep && PastGrace(old(store)[ref], now, grace)
      ensures forall ref :: ref in store ==> ref in old(store) && store[ref] == old(store)[ref]
      ensures forall ref :: ref in pruned ==> ref in old(pruned) || (ref in old(store) && ref !in keep)
    {
      var due := set ref | ref in records && ref !in keep && PastGrace(records[ref], now, grace);
      var gone := due * deleted * store.Keys;
      pruned := pruned + (map ref | ref in gone :: Reading(records[ref], now));
      store := store - gone;
    }

    /** Mint the whole deficit, then offer it; the records stay when the upload fails, for it may have landed. */
    method Offer(script: Script, wanted: nat) returns (ended: Ended<map<Ref, int>>)
      requires Valid() && Fresh(script, wanted)
      modifies this
      ensures Valid()
      ensures old(released) <= released
      ensures offered == old(offered) || offered == old(offered) + Batch(script, wanted).Keys
      ensures offered != old(offered) ==> Batch(script, wanted).Keys <= script.stored
      ensures Kept(old(offered))
      ensures ended.Done? ==> ended.value == Batch(script, wanted) && KeptAll(ended.value.Keys)
    {
      hide InCustody, PrunedLate, PastGrace;
      var minted, settled := MintAll(script, wanted);
      if !settled { return StoreFailed; }
      assert KeptAll(minted.Keys);
      var alive := Await(script, 1);
      if !alive { return Died; }
      Offered(offered, minted.Keys, store.Keys, released, pruned);
      offered := offered + minted.Keys;
      alive := Await(script, 2);
      if !alive { return Died; }
      if !script.answered {
        Prune(store, minted.Keys, script.now, script.deleted);
        return HubFailed;
      }
      return Done(minted);
    }

    /** These packages still have their records, unless the host released them. */
    ghost predicate KeptAll(refs: set<Ref>)
      reads this
    {
      forall ref :: ref in refs ==> ref in store || ref in released
    }

    /** What was offered since then is neither lost nor pruned. */
    ghost predicate Kept(before: set<Ref>)
      reads this
    {
      before <= offered && KeptAll(offered - before)
    }

    /** Stock back up when the hub reports fewer than the low-water mark; prune on every path. */
    method Run(script: Script) returns (ended: Ended<(nat, nat)>)
      requires Valid() && Fresh(script, target)
      modifies this
      ensures Valid()
      ensures Kept(old(offered))
      // It uploads only what it durably wrote first, and only below the low-water mark.
      ensures offered != old(offered) ==>
                && script.count.Some? && script.count.value < lowWater
                && offered == old(offered) + Batch(script, target - script.count.value).Keys
                && Batch(script, target - script.count.value).Keys <= script.stored
      ensures ended.Done? ==>
                && script.count.Some?
                && ended.value.1 == script.count.value + ended.value.0
                && ended.value.1 == if script.count.value < lowWater then target else script.count.value
    {
      hide InCustody, PrunedLate, PastGrace, Batch;
      var alive := Await(script, 0);
      if !alive { return Died; }
      if script.count.None? {
        Prune(store, {}, script.now, script.deleted);
        return HubFailed;
      }
      var count := script.count.value;
      var minted: map<Ref, int> := map[];
      if count < lowWater {
        var uploaded := Offer(script, target - count);
        match uploaded {
          case Done(batch) => minted := batch;
          case HubFailed => return HubFailed;
          case StoreFailed => return StoreFailed;
          case Died => return Died;
        }
        BatchSize(script, target - count);
      }
      Prune(store, minted.Keys, script.now, script.deleted);
      alive := Await(script, 3);
      if !alive { return Died; }
      return Done((|minted|, count + |minted|));
    }
  }

  lemma HeldGrows(offered: set<Ref>, store: map<Ref, int>, ref: Ref, notAfter: int, released: set<Ref>,
      pruned: map<Ref, Reading>)
    requires InCustody(offered, store.Keys, released, pruned)
    ensures InCustody(offered, store[ref := notAfter].Keys, released, pruned)
  {
  }

  lemma Offered(offered: set<Ref>, batch: set<Ref>, held: set<Ref>, released: set<Ref>, pruned: map<Ref, Reading>)
    requires InCustody(offered, held, released, pruned)
    requires forall ref :: ref in batch ==> ref in held || ref in released
    ensures InCustody(offered + batch, held, released, pruned)
  {
  }

  function Batch(script: Script, n: nat): map<Ref, int> {
    if n == 0 then map[] else Batch(script, n - 1)[script.minted(n - 1).0 := script.minted(n - 1).1]
  }

  /** Distinct packages make a batch of the wanted size. */
  lemma {:induction false} BatchSize(script: Script, n: nat)
    requires forall i, j :: 0 <= i < j < n ==> script.minted(i).0 != script.minted(j).0
    ensures |Batch(script, n)| == n
    ensures forall ref :: ref in Batch(script, n) ==> exists i :: 0 <= i < n && script.minted(i).0 == ref
  {
    if n > 0 {
      BatchSize(script, n - 1);
      var (ref, notAfter) := script.minted(n - 1);
      assert ref !in Batch(script, n - 1);
      assert Batch(script, n).Keys == Batch(script, n - 1).Keys + {ref};
      assert |Batch(script, n).Keys| == |Batch(script, n)|;
    }
  }
}
