/**
  The per-key token bucket with opportunistic pruning (`packages/hub-server/src/rateLimit.ts`), over
  real numbers: rounding is not modelled.

  Pruning drops full, idle buckets. Under a clock that never runs backward it changes no decision.
 */
module RateLimiter {

  datatype Bucket = Bucket(tokens: real, lastRefill: int)

  datatype Config = Config(rate: real, burst: real, ttlMs: int)

  type Buckets = map<string, Bucket>

  const PRUNE_AT := 1024

  /** Tokens refilled in this many milliseconds. */
  function Gain(ms: int, rate: real): real {
    ms as real / 1000.0 * rate
  }

  /** Tokens the bucket would hold now under continuous refill, capped at burst. */
  function Refilled(b: Bucket, now: int, c: Config): real {
    var tokens := b.tokens + Gain(now - b.lastRefill, c.rate);
    if tokens < c.burst then tokens else c.burst
  }

  predicate Evictable(b: Bucket, now: int, c: Config) {
    Refilled(b, now, c) >= c.burst && now - b.lastRefill >= c.ttlMs
  }

  function Pruned(buckets: Buckets, now: int, c: Config): Buckets {
    map key | key in buckets && !Evictable(buckets[key], now, c) :: buckets[key]
  }

  /** One call, on the buckets left after any pruning. */
  function Consume(buckets: Buckets, key: string, now: int, c: Config): (Buckets, bool) {
    var tokens := if key in buckets then Refilled(buckets[key], now, c) else c.burst;
    if tokens < 1.0 then (buckets[key := Bucket(tokens, now)], false)
    else (buckets[key := Bucket(tokens - 1.0, now)], true)
  }

  /** One call of the limiter: a new key may trigger a sweep first. */
  function Try(buckets: Buckets, key: string, now: int, c: Config): (Buckets, bool) {
    Consume(if key !in buckets && |buckets| >= PRUNE_AT then Pruned(buckets, now, c) else buckets, key, now, c)
  }

  class Limiter {
    const config: Config
    var buckets: Buckets

    constructor (config: Config)
      ensures this.config == config && buckets == map[]
    {
      this.config, buckets := config, map[];
    }

    /** Evict full and idle buckets; a partially spent one must never be dropped. */
    method Prune(now: int)
      modifies this
      ensures buckets == Pruned(old(buckets), now, config)
    {
      var todo := buckets.Keys;
      while todo != {}
        invariant todo <= old(buckets).Keys
        invariant buckets ==
          map key | key in old(buckets) && (key in todo || !Evictable(old(buckets)[key], now, config)) ::
            old(buckets)[key]
        decreases todo
      {
        var key :| key in todo;
        var bucket := buckets[key];
        if Refilled(bucket, now, config) >= config.burst && now - bucket.lastRefill >= config.ttlMs {
          buckets := buckets - {key};
        }
        todo := todo - {key};
      }
    }

    /** Consume a token if one is available. */
    method TryConsume(key: string, now: int) returns (allowed: bool)
      modifies this
      ensures (buckets, allowed) == Try(old(buckets), key, now, config)
    {
      var bucket;
      ghost var swept := if key !in buckets && |buckets| >= PRUNE_AT then Pruned(buckets, now, config) else buckets;
      if key !in buckets {
        if |buckets| >= PRUNE_AT { Prune(now); }
        bucket := Bucket(config.burst, now);
        buckets := buckets[key := bucket];
      } else {
        bucket := Bucket(Refilled(buckets[key], now, config), now);
        buckets := buckets[key := bucket];
      }
      if bucket.tokens < 1.0 { return false; }
      buckets := buckets[key := Bucket(bucket.tokens - 1.0, now)];
      assert buckets == swept[key := Bucket(bucket.tokens - 1.0, now)];
      return true;
    }
  }

  // ------------------------------------------------------------------------------------------
  // Runs.

  datatype Call = Call(key: string, now: int)

  /** One call of the limiter that prunes, or of one that never does. */
  function Serve(buckets: Buckets, call: Call, c: Config, prunes: bool): (Buckets, bool) {
    if prunes then Try(buckets, call.key, call.now, c) else Consume(buckets, call.key, call.now, c)
  }

  /** The buckets after some calls, and each call's answer, of the limiter that prunes or of one that never does. */
  function Run(buckets: Buckets, calls: seq<Call>, c: Config, prunes: bool): (Buckets, seq<bool>)
    decreases |calls|
  {
    if calls == [] then (buckets, [])
    else
      var (next, allowed) := Serve(buckets, calls[0], c, prunes);
      var (last, rest) := Run(next, calls[1..], c, prunes);
      (last, [allowed] + rest)
  }

  lemma RunNone(buckets: Buckets, c: Config, prunes: bool)
    ensures Run(buckets, [], c, prunes) == (buckets, [])
  {
  }

  lemma RunOne(buckets: Buckets, call: Call, c: Config, prunes: bool)
    ensures Run(buckets, [call], c, prunes) ==
            (Serve(buckets, call, c, prunes).0, [Serve(buckets, call, c, prunes).1])
  {
    var (next, allowed) := Serve(buckets, call, c, prunes);
    assert [call][1..] == [] && Run(next, [], c, prunes) == (next, []);
    assert [allowed] + [] == [allowed];
  }

  lemma {:induction false} RunSplits(buckets: Buckets, a: seq<Call>, b: seq<Call>, c: Config, prunes: bool)
    ensures var (middle, first) := Run(buckets, a, c, prunes);
            Run(buckets, a + b, c, prunes) == (Run(middle, b, c, prunes).0, first + Run(middle, b, c, prunes).1)
    decreases |a|
  {
    hide Serve;
    if a == [] {
      assert a + b == b;
      assert [] + Run(buckets, b, c, prunes).1 == Run(buckets, b, c, prunes).1;
    } else {
      assert (a + b)[1..] == a[1..] + b;
      var (next, allowed) := Serve(buckets, a[0], c, prunes);
      RunSplits(next, a[1..], b, c, prunes);
      var first := Run(next, a[1..], c, prunes);
      assert [allowed] + (first.1 + Run(first.0, b, c, prunes).1) == [allowed] + first.1 + Run(first.0, b, c, prunes).1;
    }
  }

  ghost predicate Forward(from: int, calls: seq<Call>) {
    && (calls != [] ==> from <= calls[0].now)
    && forall i, j :: 0 <= i < j < |calls| ==> calls[i].now <= calls[j].now
  }

  /** The pruned buckets are the unpruned ones, short of some that are full by now. */
  ghost predicate Refines(p: Buckets, u: Buckets, now: int, c: Config) {
    && (forall key :: key in p ==> key in u && p[key] == u[key])
    && (forall key :: key in u && key !in p ==> Refilled(u[key], now, c) >= c.burst)
    && (forall key :: key in u ==> u[key].lastRefill <= now)
  }

  /** Refill is additive, and never negative at a rate that is not. */
  lemma GainBasics(a: int, b: int, rate: real)
    ensures Gain(a + b, rate) == Gain(a, rate) + Gain(b, rate)
    ensures Gain(0, rate) == 0.0
    ensures rate >= 0.0 && b >= 0 ==> Gain(b, rate) >= 0.0
  {
    var x, y := a as real / 1000.0, b as real / 1000.0;
    assert (a + b) as real / 1000.0 == x + y;
    assert (x + y) * rate == x * rate + y * rate;
  }

  /** A full bucket stays full. */
  lemma RefillGrows(b: Bucket, from: int, to: int, c: Config)
    requires c.rate >= 0.0 && from <= to
    ensures Refilled(b, from, c) <= Refilled(b, to, c) <= Refilled(b, from, c) + Gain(to - from, c.rate)
    ensures Refilled(b, to, c) <= c.burst
  {
    hide Gain;
    GainBasics(from - b.lastRefill, to - from, c.rate);
  }

  // ------------------------------------------------------------------------------------------
  // When pruning is harmless.

  /** Every bucket the pruning limiter holds, the exact one holds too. */
  ghost predicate Agrees(p: Buckets, u: Buckets) {
    forall key :: key in p ==> key in u && p[key] == u[key]
  }

  /** If the call recreates an evicted bucket, the evicted one would be full by this call's clock. */
  predicate Harmless(p: Buckets, u: Buckets, call: Call, c: Config) {
    call.key !in p && call.key in u ==> Refilled(u[call.key], call.now, c) >= c.burst
  }

  lemma StepAgreesIff(p: Buckets, u: Buckets, call: Call, c: Config)
    requires Agrees(p, u)
    ensures var (p', a) := Try(p, call.key, call.now, c);
            var (u', b) := Consume(u, call.key, call.now, c);
            a == b && Agrees(p', u') <==> Harmless(p, u, call, c)
  {
    var (p', a) := Try(p, call.key, call.now, c);
    var (u', b) := Consume(u, call.key, call.now, c);
    assert call.key in p' && call.key in u';
  }

  /** After the first `n` calls the two limiters have answered alike and agree. */
  ghost predicate Alike(p: Buckets, u: Buckets, calls: seq<Call>, n: nat, c: Config)
    requires n <= |calls|
  {
    var (p', a) := Run(p, calls[..n], c, true);
    var (u', b) := Run(u, calls[..n], c, false);
    a == b && Agrees(p', u')
  }

  ghost predicate AlikeThrough(p: Buckets, u: Buckets, calls: seq<Call>, n: nat, c: Config)
    requires n <= |calls|
  {
    forall i :: 0 <= i <= n ==> Alike(p, u, calls, i, c)
  }

  /** Each of the first `n` calls is harmless in the states it finds. */
  ghost predicate HarmlessThrough(p: Buckets, u: Buckets, calls: seq<Call>, n: nat, c: Config)
    requires n <= |calls|
  {
    forall i :: 0 <= i < n ==>
      Harmless(Run(p, calls[..i], c, true).0, Run(u, calls[..i], c, false).0, calls[i], c)
  }

  /** One more call at the end of a run. */
  lemma RunExtends(buckets: Buckets, calls: seq<Call>, n: nat, c: Config, prunes: bool)
    requires n < |calls|
    ensures var (before, answers) := Run(buckets, calls[..n], c, prunes);
            var (next, allowed) := Serve(before, calls[n], c, prunes);
            Run(buckets, calls[..n + 1], c, prunes) == (next, answers + [allowed])
  {
    hide Run, Serve;
    assert calls[..n + 1] == calls[..n] + [calls[n]];
    RunSplits(buckets, calls[..n], [calls[n]], c, prunes);
    RunOne(Run(buckets, calls[..n], c, prunes).0, calls[n], c, prunes);
  }

  /**
    Whatever the clock does: the pruning limiter answers every call as one that never prunes, and
    agrees with it on every bucket it holds, exactly when each bucket recreated after an eviction
    would have been full by the clock of the call that recreates it.
   */
  lemma {:induction false} PruningIsInvisibleIff(p: Buckets, u: Buckets, calls: seq<Call>, n: nat, c: Config)
    requires Agrees(p, u) && n <= |calls|
    ensures AlikeThrough(p, u, calls, n, c) <==> HarmlessThrough(p, u, calls, n, c)
  {
    hide Run, Harmless, Agrees, Alike;
    if n == 0 {
      StartsAlike(p, u, calls, c);
    } else {
      PruningIsInvisibleIff(p, u, calls, n - 1, c);
      if AlikeThrough(p, u, calls, n - 1, c) {
        StaysAlikeIff(p, u, calls, n - 1, c);
      }
    }
  }

  lemma StartsAlike(p: Buckets, u: Buckets, calls: seq<Call>, c: Config)
    requires Agrees(p, u)
    ensures Alike(p, u, calls, 0, c)
  {
    assert calls[..0] == [];
  }

  lemma StaysAlikeIff(p: Buckets, u: Buckets, calls: seq<Call>, n: nat, c: Config)
    requires n < |calls| && Alike(p, u, calls, n, c)
    ensures Alike(p, u, calls, n + 1, c) <==>
            Harmless(Run(p, calls[..n], c, true).0, Run(u, calls[..n], c, false).0, calls[n], c)
  {
    hide Run, Harmless, Agrees;
    RunExtends(p, calls, n, c, true);
    RunExtends(u, calls, n, c, false);
    var (p', a) := Run(p, calls[..n], c, true);
    var (u', b) := Run(u, calls[..n], c, false);
    StepAgreesIff(p', u', calls[n], c);
    var x, y := Serve(p', calls[n], c, true).1, Serve(u', calls[n], c, false).1;
    assert a + [x] == b + [y] <==> x == y by {
      assert (a + [x])[|a|] == x && (b + [y])[|b|] == y;
    }
  }

  // ------------------------------------------------------------------------------------------
  // A clock that never runs backward.

  lemma TryRefines(p: Buckets, u: Buckets, from: int, key: string, now: int, c: Config)
    requires c.rate >= 0.0 && from <= now && Refines(p, u, from, c)
    ensures Refines(Try(p, key, now, c).0, Consume(u, key, now, c).0, now, c)
  {
    forall k | k in u {
      RefillGrows(u[k], from, now, c);
    }
  }

  lemma {:induction false} RunRefines(p: Buckets, u: Buckets, from: int, calls: seq<Call>, n: nat, c: Config)
    requires c.rate >= 0.0 && Refines(p, u, from, c) && Forward(from, calls) && n <= |calls|
    ensures Refines(Run(p, calls[..n], c, true).0, Run(u, calls[..n], c, false).0,
                    if n == 0 then from else calls[n - 1].now, c)
  {
    hide Refines, Run;
    if n == 0 {
      RunNone(p, c, true);
      RunNone(u, c, false);
      assert calls[..0] == [];
    } else {
      RunRefines(p, u, from, calls, n - 1, c);
      RunExtends(p, calls, n - 1, c, true);
      RunExtends(u, calls, n - 1, c, false);
      TryRefines(Run(p, calls[..n - 1], c, true).0, Run(u, calls[..n - 1], c, false).0,
                 if n == 1 then from else calls[n - 2].now, calls[n - 1].key, calls[n - 1].now, c);
    }
  }

  /** Pruning changes no decision, for all interleavings of keys, while the clock never runs backward. */
  lemma PruningIsInvisible(p: Buckets, u: Buckets, from: int, calls: seq<Call>, c: Config)
    requires c.rate >= 0.0 && Refines(p, u, from, c) && Forward(from, calls)
    ensures Run(p, calls, c, true).1 == Run(u, calls, c, false).1
  {
    hide Run;
    forall i | 0 <= i < |calls|
      ensures Harmless(Run(p, calls[..i], c, true).0, Run(u, calls[..i], c, false).0, calls[i], c)
    {
      RunRefines(p, u, from, calls, i, c);
      var u' := Run(u, calls[..i], c, false).0;
      var now := if i == 0 then from else calls[i - 1].now;
      if calls[i].key in u' {
        RefillGrows(u'[calls[i].key], now, calls[i].now, c);
      }
    }
    PruningIsInvisibleIff(p, u, calls, |calls|, c);
    assert calls[..|calls|] == calls;
    assert Alike(p, u, calls, |calls|, c);
  }

  // ------------------------------------------------------------------------------------------
  // The rate.

  /** How many of a key's calls were allowed. */
  function Allowed(calls: seq<Call>, answers: seq<bool>, key: string): nat
    requires |calls| == |answers|
    decreases |calls|
  {
    if calls == [] then 0
    else (if calls[0].key == key && answers[0] then 1 else 0) + Allowed(calls[1..], answers[1..], key)
  }

  lemma {:induction false} AnswersEachCall(buckets: Buckets, calls: seq<Call>, c: Config, prunes: bool)
    ensures |Run(buckets, calls, c, prunes).1| == |calls|
    decreases |calls|
  {
    if calls != [] {
      AnswersEachCall(Serve(buckets, calls[0], c, prunes).0, calls[1..], c, prunes);
    }
  }

  /** What a key could spend now. */
  function Balance(buckets: Buckets, key: string, now: int, c: Config): real {
    if key in buckets then Refilled(buckets[key], now, c) else c.burst
  }

  ghost predicate NoDebt(buckets: Buckets, from: int) {
    forall key :: key in buckets ==> buckets[key].tokens >= 0.0 && buckets[key].lastRefill <= from
  }

  lemma BalanceGrows(buckets: Buckets, key: string, from: int, to: int, c: Config)
    requires c.rate >= 0.0 && c.burst >= 0.0 && from <= to && NoDebt(buckets, from)
    ensures 0.0 <= Balance(buckets, key, to, c) <= Balance(buckets, key, from, c) + Gain(to - from, c.rate)
    ensures Balance(buckets, key, to, c) <= c.burst
  {
    hide Gain;
    GainBasics(0, to - from, c.rate);
    if key in buckets {
      RefillGrows(buckets[key], from, to, c);
      RefillGrows(buckets[key], buckets[key].lastRefill, to, c);
      GainBasics(0, 0, c.rate);
      assert Refilled(buckets[key], buckets[key].lastRefill, c) >= 0.0;
    }
  }

  lemma ConsumeSpends(buckets: Buckets, key: string, now: int, other: string, c: Config)
    requires c.rate >= 0.0 && c.burst >= 0.0 && NoDebt(buckets, now)
    ensures var (next, allowed) := Consume(buckets, key, now, c);
            && NoDebt(next, now)
            && Balance(next, other, now, c) ==
               Balance(buckets, other, now, c) - (if other == key && allowed then 1.0 else 0.0)
  {
    hide Gain;
    forall k | k in buckets {
      BalanceGrows(buckets, k, now, now, c);
    }
    var tokens := Balance(buckets, key, now, c);
    BalanceGrows(buckets, key, now, now, c);
    GainBasics(0, 0, c.rate);
  }

  /** What is spent from a balance is at most the balance and what was refilled meanwhile. */
  lemma {:induction false} SpentIsRefilled(buckets: Buckets, from: int, calls: seq<Call>, until: int,
      key: string, c: Config)
    requires c.rate >= 0.0 && c.burst >= 0.0 && NoDebt(buckets, from) && Forward(from, calls) && from <= until
    requires forall i :: 0 <= i < |calls| ==> calls[i].now <= until
    requires |Run(buckets, calls, c, false).1| == |calls|
    ensures Allowed(calls, Run(buckets, calls, c, false).1, key) as real
         <= Balance(buckets, key, from, c) + Gain(until - from, c.rate)
    decreases |calls|
  {
    hide Gain, Consume, Balance;
    if calls == [] {
      BalanceGrows(buckets, key, from, until, c);
    } else {
      var now := calls[0].now;
      var (next, allowed) := Consume(buckets, calls[0].key, now, c);
      BalanceGrows(buckets, key, from, now, c);
      ConsumeSpends(buckets, calls[0].key, now, key, c);
      assert Forward(now, calls[1..]) by {
        if |calls| > 1 { assert calls[1..][0] == calls[1]; }
      }
      AnswersEachCall(next, calls[1..], c, false);
      SpentIsRefilled(next, now, calls[1..], until, key, c);
      var all := Run(buckets, calls, c, false).1;
      assert all[1..] == Run(next, calls[1..], c, false).1 && all[0] == allowed;
      GainBasics(now - from, until - now, c.rate);
    }
  }

  /**
    In any stretch of a run, within `until - from` milliseconds, one key is allowed at most
    burst + rate * T calls; pruning included.
   */
  lemma RateIsBounded(before: seq<Call>, calls: seq<Call>, from: int, until: int, key: string, c: Config)
    requires c.rate >= 0.0 && c.burst >= 0.0
    requires before + calls != [] && Forward((before + calls)[0].now, before + calls)
    requires forall i :: 0 <= i < |before| ==> before[i].now <= from
    requires forall i :: 0 <= i < |calls| ==> from <= calls[i].now <= until
    requires from <= until
    ensures var answers := Run(map[], before + calls, c, true).1;
            && |answers| == |before| + |calls|
            && Allowed(calls, answers[|before|..], key) as real <= c.burst + Gain(until - from, c.rate)
  {
    var all := before + calls;
    var start := all[0].now;
    PruningIsInvisible(map[], map[], start, all, c);
    AnswersEachCall(map[], all, c, false);
    RunSplits(map[], before, calls, c, false);
    var middle := Run(map[], before, c, false).0;
    AnswersEachCall(map[], before, c, false);
    AnswersEachCall(middle, calls, c, false);
    assert Forward(start, before) by {
      forall i, j | 0 <= i < j < |before| ensures before[i].now <= before[j].now {
        assert all[i] == before[i] && all[j] == before[j];
      }
    }
    StaysOutOfDebt(map[], start, before, if start <= from then from else start, c);
    assert NoDebt(middle, from) by {
      if before == [] {
        assert middle == map[];
      } else {
        assert all[0] == before[0];
      }
    }
    assert Forward(from, calls) by {
      forall i, j | 0 <= i < j < |calls| ensures calls[i].now <= calls[j].now {
        assert all[|before| + i] == calls[i] && all[|before| + j] == calls[j];
      }
    }
    SpentIsRefilled(middle, from, calls, until, key, c);
    BalanceGrows(middle, key, from, from, c);
  }

  lemma {:induction false} StaysOutOfDebt(buckets: Buckets, from: int, calls: seq<Call>, until: int, c: Config)
    requires c.rate >= 0.0 && c.burst >= 0.0 && NoDebt(buckets, from) && Forward(from, calls) && from <= until
    requires forall i :: 0 <= i < |calls| ==> calls[i].now <= until
    ensures NoDebt(Run(buckets, calls, c, false).0, until)
    decreases |calls|
  {
    if calls != [] {
      var now := calls[0].now;
      ConsumeSpends(buckets, calls[0].key, now, calls[0].key, c);
      assert Forward(now, calls[1..]) by {
        if |calls| > 1 { assert calls[1..][0] == calls[1]; }
      }
      StaysOutOfDebt(Consume(buckets, calls[0].key, now, c).0, now, calls[1..], until, c);
    }
  }

  // ------------------------------------------------------------------------------------------
  // A clock that runs backward.

  const ONE_PER_SECOND := Config(1.0, 1.0, 0)

  /** Distinct keys. */
  function Key(i: nat): string {
    seq(i + 1, _ => 'k')
  }

  function Fill(n: nat): seq<Call> {
    if n == 0 then [] else Fill(n - 1) + [Call(Key(n - 1), 0)]
  }

  function Spent(n: nat): Buckets {
    if n == 0 then map[] else Spent(n - 1)[Key(n - 1) := Bucket(0.0, 0)]
  }

  lemma {:induction false} SpentIs(n: nat)
    ensures |Spent(n)| == n
    ensures forall key :: key in Spent(n) ==> Spent(n)[key] == Bucket(0.0, 0) && 1 <= |key| <= n
    ensures n > 0 ==> Key(0) in Spent(n)
  {
    if n > 0 {
      SpentIs(n - 1);
      assert |Key(n - 1)| == n;
      assert Key(n - 1) !in Spent(n - 1);
    }
  }

  lemma {:induction false} Filled(n: nat, prunes: bool)
    requires n <= PRUNE_AT
    ensures Run(map[], Fill(n), ONE_PER_SECOND, prunes).0 == Spent(n)
  {
    if n > 0 {
      Filled(n - 1, prunes);
      SpentIs(n - 1);
      assert |Key(n - 1)| == n;
      RunSplits(map[], Fill(n - 1), [Call(Key(n - 1), 0)], ONE_PER_SECOND, prunes);
      RunOne(Spent(n - 1), Call(Key(n - 1), 0), ONE_PER_SECOND, prunes);
    }
  }

  /** A full map, a sweep at one second, then half a second again: pruning hands a key its spent token back. */
  lemma BackwardClockIsVisible()
    ensures var calls := Fill(PRUNE_AT) + [Call(Key(PRUNE_AT), 1000)] + [Call(Key(0), 500)];
            var pruning, exact := Run(map[], calls, ONE_PER_SECOND, true).1, Run(map[], calls, ONE_PER_SECOND, false).1;
            && pruning != [] && exact != []
            && pruning[|pruning| - 1] && !exact[|exact| - 1]
  {
    hide Run, Fill, Key;
    var c := ONE_PER_SECOND;
    var full, key := Spent(PRUNE_AT), Key(PRUNE_AT);
    SpentIs(PRUNE_AT);
    KeyLength(PRUNE_AT);
    KeyLength(0);
    Filled(PRUNE_AT, true);
    Filled(PRUNE_AT, false);
    var fill, sweep, last := Fill(PRUNE_AT), [Call(key, 1000)], [Call(Key(0), 500)];
    RunSplits(map[], fill, sweep, c, true);
    RunSplits(map[], fill, sweep, c, false);
    RunSplits(map[], fill + sweep, last, c, true);
    RunSplits(map[], fill + sweep, last, c, false);
    RunOne(full, Call(key, 1000), c, true);
    RunOne(full, Call(key, 1000), c, false);
    assert Pruned(full, 1000, c) == map[];
    var swept, unswept := Try(full, key, 1000, c).0, Consume(full, key, 1000, c).0;
    assert Key(0) !in swept && |swept| == 1;
    assert unswept[Key(0)] == Bucket(0.0, 0);
    RunOne(swept, Call(Key(0), 500), c, true);
    RunOne(unswept, Call(Key(0), 500), c, false);
    assert Refilled(Bucket(0.0, 0), 500, c) == 0.5;
  }

  lemma KeyLength(i: nat)
    ensures |Key(i)| == i + 1
  {
  }
}
