/**
 The in-process token-bucket limiter (ratelimit/ratelimit.go).

 Times are seconds and tokens are exact reals. `Allow` on a limiter value is the
 specification of the class method; every theorem is about runs of it.
 */
module TokenBucket {
  import opened Wrappers

  const GC_INTERVAL := 60.0

  datatype Params = Params(rate: real, burst: real)

  datatype Bucket = Bucket(tokens: real, last: real)

  /** lastGC is None until the first sweep: the source starts from the zero time. */
  datatype LimiterState = LimiterState(buckets: map<string, Bucket>, lastGC: Option<real>)

  const EMPTY := LimiterState(map[], None)

  /** Tokens a clock that started at time 0 would have minted by time t. */
  function Minted(p: Params, t: real): real { t * p.rate }

  /** The bucket's tokens at a later time, before the cap. */
  function Refilled(p: Params, b: Bucket, now: real): (tokens: real)
    ensures tokens == b.tokens + (now - b.last) * p.rate
  {
    b.tokens + (Minted(p, now) - Minted(p, b.last))
  }

  predicate IsIdle(p: Params, b: Bucket, now: real) { Refilled(p, b, now) >= p.burst }

  function Swept(p: Params, buckets: map<string, Bucket>, now: real): map<string, Bucket> {
    map k | k in buckets && !IsIdle(p, buckets[k], now) :: buckets[k]
  }

  function Gc(p: Params, l: LimiterState, now: real): LimiterState {
    if l.lastGC.Some? && now - l.lastGC.value < GC_INTERVAL then l
    else LimiterState(Swept(p, l.buckets, now), Some(now))
  }

  function Min(a: real, b: real): real { if a > b then b else a }

  /** The part of Allow after the sweep. */
  function Take(p: Params, l: LimiterState, key: string, now: real): (LimiterState, bool) {
    if key !in l.buckets then
      (l.(buckets := l.buckets[key := Bucket(p.burst - 1.0, now)]), true)
    else
      var tokens := Min(Refilled(p, l.buckets[key], now), p.burst);
      if tokens >= 1.0 then (l.(buckets := l.buckets[key := Bucket(tokens - 1.0, now)]), true)
      else (l.(buckets := l.buckets[key := Bucket(tokens, now)]), false)
  }

  function Allow(p: Params, l: LimiterState, key: string, now: real): (LimiterState, bool) {
    Take(p, Gc(p, l, now), key, now)
  }

  // ---------------------------------------------------------------- runs

  datatype Call = Call(key: string, at: real)

  predicate Ordered(calls: seq<Call>, from: real) {
    calls != [] ==> from <= calls[0].at && Ordered(calls[1..], calls[0].at)
  }

  /** The limiter after some calls. */
  function After(p: Params, l: LimiterState, calls: seq<Call>): LimiterState
    decreases |calls|
  {
    if calls == [] then l else After(p, Allow(p, l, calls[0].key, calls[0].at).0, calls[1..])
  }

  function Answers(p: Params, l: LimiterState, calls: seq<Call>): (r: seq<bool>)
    ensures |r| == |calls|
    decreases |calls|
  {
    if calls == [] then []
    else
      var (l', ok) := Allow(p, l, calls[0].key, calls[0].at);
      [ok] + Answers(p, l', calls[1..])
  }

  /** The same calls on a limiter that never evicts. */
  function AnswersWithoutGc(p: Params, l: LimiterState, calls: seq<Call>): (r: seq<bool>)
    ensures |r| == |calls|
    decreases |calls|
  {
    if calls == [] then []
    else
      var (l', ok) := Take(p, l, calls[0].key, calls[0].at);
      [ok] + AnswersWithoutGc(p, l', calls[1..])
  }

  // ---------------------------------------------------------------- the budget of a key

  /** A key's tokens at a time: an absent key has a full bucket. */
  function Budget(p: Params, l: LimiterState, key: string, now: real): real {
    if key in l.buckets then Min(Refilled(p, l.buckets[key], now), p.burst) else p.burst
  }

  ghost predicate Sound(p: Params, l: LimiterState, now: real) {
    && p.rate >= 0.0 && p.burst >= 1.0
    && forall k | k in l.buckets ::
         l.buckets[k].tokens >= 0.0 && l.buckets[k].tokens <= p.burst && l.buckets[k].last <= now
  }

  lemma MintingIsMonotone(p: Params, a: real, b: real)
    requires p.rate >= 0.0 && a <= b
    ensures Minted(p, a) <= Minted(p, b)
  {
    assert Minted(p, b) - Minted(p, a) == (b - a) * p.rate;
  }

  /** The sweep does not change any key's budget, now or later. */
  lemma GcKeepsBudget(p: Params, l: LimiterState, now: real, key: string, later: real)
    requires Sound(p, l, now) && now <= later
    ensures Sound(p, Gc(p, l, now), now)
    ensures Budget(p, Gc(p, l, now), key, later) == Budget(p, l, key, later)
  {
    if key in l.buckets { MintingIsMonotone(p, now, later); }
  }

  lemma BudgetNonNegative(p: Params, l: LimiterState, now: real, key: string)
    requires Sound(p, l, now)
    ensures 0.0 <= Budget(p, l, key, now) <= p.burst
  {
    if key in l.buckets {
      var b := l.buckets[key];
      MintingIsMonotone(p, b.last, now);
      assert Refilled(p, b, now) >= 0.0;
    }
  }

  /** A call is allowed exactly when the key's budget holds a token, and takes just that token. */
  lemma AllowSpendsBudget(p: Params, l: LimiterState, key: string, now: real)
    requires Sound(p, l, now)
    ensures Sound(p, Allow(p, l, key, now).0, now)
    ensures Allow(p, l, key, now).1 <==> Budget(p, l, key, now) >= 1.0
    ensures Budget(p, Allow(p, l, key, now).0, key, now)
         == Budget(p, l, key, now) - if Allow(p, l, key, now).1 then 1.0 else 0.0
    ensures forall k | k != key ::
              Budget(p, Allow(p, l, key, now).0, k, now) == Budget(p, l, k, now)
  {
    var g := Gc(p, l, now);
    GcKeepsBudget(p, l, now, key, now);
    forall k | k != key
      ensures Budget(p, Allow(p, l, key, now).0, k, now) == Budget(p, l, k, now)
    {
      GcKeepsBudget(p, l, now, k, now);
    }
    BudgetNonNegative(p, g, now, key);
  }

  /** Waiting accrues at most rate tokens a second. */
  lemma BudgetGrowth(p: Params, l: LimiterState, key: string, now: real, later: real)
    requires Sound(p, l, now) && now <= later
    ensures Sound(p, l, later)
    ensures Budget(p, l, key, later) == Min(Budget(p, l, key, now) + Minted(p, later) - Minted(p, now), p.burst)
  {
    MintingIsMonotone(p, now, later);
  }

  // ---------------------------------------------------------------- collection is invisible

  /** full holds what swept holds, plus only buckets that are already idle. */
  ghost predicate Shadows(p: Params, swept: LimiterState, full: LimiterState, now: real) {
    && (forall k | k in swept.buckets :: k in full.buckets && full.buckets[k] == swept.buckets[k])
    && (forall k | k in full.buckets && k !in swept.buckets :: IsIdle(p, full.buckets[k], now))
    && (forall k | k in full.buckets :: full.buckets[k].last <= now)
  }

  lemma ShadowsLater(p: Params, swept: LimiterState, full: LimiterState, now: real, later: real)
    requires p.rate >= 0.0 && now <= later
    requires Shadows(p, swept, full, now)
    ensures Shadows(p, swept, full, later)
  {
    MintingIsMonotone(p, now, later);
  }

  lemma ShadowedCall(p: Params, swept: LimiterState, full: LimiterState, key: string, now: real)
    requires p.rate >= 0.0 && p.burst >= 1.0
    requires Shadows(p, swept, full, now)
    ensures Take(p, swept, key, now).1 == Take(p, full, key, now).1
    ensures Shadows(p, Take(p, swept, key, now).0, Take(p, full, key, now).0, now)
  {}

  lemma {:induction false} ShadowedAnswersAgree(p: Params, swept: LimiterState, full: LimiterState, calls: seq<Call>, now: real)
    requires p.rate >= 0.0 && p.burst >= 1.0
    requires Shadows(p, swept, full, now) && Ordered(calls, now)
    ensures Answers(p, swept, calls) == AnswersWithoutGc(p, full, calls)
    decreases |calls|
  {
    if calls != [] {
      var key, t := calls[0].key, calls[0].at;
      ShadowsLater(p, swept, full, now, t);
      var g := Gc(p, swept, t);
      assert Shadows(p, g, full, t);
      ShadowedCall(p, g, full, key, t);
      ShadowedAnswersAgree(p, Take(p, g, key, t).0, Take(p, full, key, t).0, calls[1..], t);
    }
  }

  ghost predicate GcIsInvisible(p: Params) {
    forall calls: seq<Call>, from: real | Ordered(calls, from) ::
      Answers(p, EMPTY, calls) == AnswersWithoutGc(p, EMPTY, calls)
  }

  /**
   Eviction never changes an answer precisely when the burst is at least one or nothing is ever
   minted. Below one the first call is still allowed, so evicting a "full" bucket hands out a
   call that the kept bucket would refuse; without minting no bucket ever fills.
   */
  lemma GcIsInvisibleIff(p: Params)
    ensures GcIsInvisible(p) <==> p.burst >= 1.0 || p.rate <= 0.0
  {
    if p.rate <= 0.0 {
      forall calls: seq<Call>, from: real | Ordered(calls, from)
        ensures Answers(p, EMPTY, calls) == AnswersWithoutGc(p, EMPTY, calls)
      {
        UnmintedAnswersAgree(p, EMPTY, EMPTY, calls, from);
      }
    } else if p.burst >= 1.0 {
      forall calls: seq<Call>, from: real | Ordered(calls, from)
        ensures Answers(p, EMPTY, calls) == AnswersWithoutGc(p, EMPTY, calls)
      {
        ShadowedAnswersAgree(p, EMPTY, EMPTY, calls, from);
      }
    } else {
      var calls := SmallBurstCalls(p);
      SmallBurstIsVisible(p);
      assert Ordered(calls, 0.0);
    }
  }

  /** No bucket is full, now or later. */
  ghost predicate NeverFull(p: Params, l: LimiterState, now: real) {
    forall k | k in l.buckets :: l.buckets[k].last <= now && l.buckets[k].tokens < p.burst
  }

  lemma MintsNothing(p: Params, a: real, b: real)
    requires p.rate <= 0.0 && a <= b
    ensures Minted(p, b) - Minted(p, a) <= 0.0
  {
    assert Minted(p, b) - Minted(p, a) == (b - a) * p.rate;
  }

  lemma UnmintedSweep(p: Params, l: LimiterState, now: real)
    requires p.rate <= 0.0 && NeverFull(p, l, now)
    ensures Gc(p, l, now).buckets == l.buckets
  {
    forall k | k in l.buckets
      ensures !IsIdle(p, l.buckets[k], now)
    {
      MintsNothing(p, l.buckets[k].last, now);
    }
  }

  lemma UnmintedCall(p: Params, l: LimiterState, key: string, now: real)
    requires p.rate <= 0.0 && NeverFull(p, l, now)
    ensures NeverFull(p, Take(p, l, key, now).0, now)
  {
    if key in l.buckets { MintsNothing(p, l.buckets[key].last, now); }
  }

  lemma {:induction false} UnmintedAnswersAgree(p: Params, swept: LimiterState, full: LimiterState, calls: seq<Call>, now: real)
    requires p.rate <= 0.0 && swept.buckets == full.buckets && NeverFull(p, full, now) && Ordered(calls, now)
    ensures Answers(p, swept, calls) == AnswersWithoutGc(p, full, calls)
    decreases |calls|
  {
    if calls != [] {
      var key, t := calls[0].key, calls[0].at;
      UnmintedSweep(p, swept, t);
      UnmintedCall(p, full, key, t);
      UnmintedAnswersAgree(p, Allow(p, swept, key, t).0, Take(p, full, key, t).0, calls[1..], t);
    }
  }

  /** One key called twice, a minute or one token's refill time apart, whichever is longer. */
  function SmallBurstCalls(p: Params): seq<Call>
    requires p.rate > 0.0
  {
    [Call("k", 0.0), Call("k", if 1.0 / p.rate > GC_INTERVAL then 1.0 / p.rate else GC_INTERVAL)]
  }

  lemma SmallBurstIsVisible(p: Params)
    requires p.rate > 0.0 && p.burst < 1.0
    ensures Ordered(SmallBurstCalls(p), 0.0)
    ensures Answers(p, EMPTY, SmallBurstCalls(p)) == [true, true]
    ensures AnswersWithoutGc(p, EMPTY, SmallBurstCalls(p)) == [true, false]
  {
    var calls := SmallBurstCalls(p);
    var t := calls[1].at;
    assert calls[1..] == [calls[1]] && calls[1..][1..] == [];
    assert t * p.rate >= 1.0 by {
      assert 1.0 / p.rate * p.rate == 1.0;
      assert (t - 1.0 / p.rate) * p.rate >= 0.0;
    }
    var b := Bucket(p.burst - 1.0, 0.0);
    assert (t - 0.0) * p.rate == t * p.rate;
    assert IsIdle(p, b, t);
    var l1 := Allow(p, EMPTY, "k", 0.0).0;
    assert l1 == LimiterState(map["k" := b], Some(0.0));
    assert "k" !in Gc(p, l1, t).buckets;
    var f1 := Take(p, EMPTY, "k", 0.0).0;
    assert f1.buckets["k"] == b;
    assert Answers(p, l1, calls[1..]) == [true];
    assert AnswersWithoutGc(p, f1, calls[1..]) == [false];
  }

  // ---------------------------------------------------------------- bounds

  /** Allowed calls on a key whose time lies in [a, b]. */
  function AllowedIn(p: Params, l: LimiterState, calls: seq<Call>, key: string, a: real, b: real): nat
    decreases |calls|
  {
    if calls == [] then 0
    else
      var c := calls[0];
      var (l', ok) := Allow(p, l, c.key, c.at);
      (if ok && c.key == key && a <= c.at <= b then 1 else 0) + AllowedIn(p, l', calls[1..], key, a, b)
  }

  lemma {:induction false} NoneAllowedAfter(p: Params, l: LimiterState, calls: seq<Call>, key: string, a: real, b: real, from: real)
    requires Ordered(calls, from) && b < from
    ensures AllowedIn(p, l, calls, key, a, b) == 0
    decreases |calls|
  {
    if calls != [] {
      NoneAllowedAfter(p, Allow(p, l, calls[0].key, calls[0].at).0, calls[1..], key, a, b, calls[0].at);
    }
  }

  /** What remains to be allowed up to b is bounded by the budget now plus what can still accrue. */
  lemma {:induction false} AllowedWithinBudget(p: Params, l: LimiterState, calls: seq<Call>, key: string, a: real, b: real, now: real)
    requires Sound(p, l, now) && Ordered(calls, now) && now <= b
    ensures AllowedIn(p, l, calls, key, a, b) as real <= Budget(p, l, key, now) + Minted(p, b) - Minted(p, now)
    decreases |calls|
  {
    BudgetNonNegative(p, l, now, key);
    MintingIsMonotone(p, now, b);
    if calls != [] {
      var c := calls[0];
      if c.at > b {
        NoneAllowedAfter(p, l, calls, key, a, b, c.at);
      } else {
        BudgetGrowth(p, l, key, now, c.at);
        var l' := Allow(p, l, c.key, c.at).0;
        assert Sound(p, l', c.at) by { AllowSpendsBudget(p, l, c.key, c.at); }
        AllowedWithinBudget(p, l', calls[1..], key, a, b, c.at);
        OneCallWithinBudget(p, l, calls, key, a, b, now);
      }
    } else {
      assert AllowedIn(p, l, calls, key, a, b) == 0;
    }
  }

  lemma OneCallWithinBudget(p: Params, l: LimiterState, calls: seq<Call>, key: string, a: real, b: real, now: real)
    requires calls != [] && Sound(p, l, calls[0].at) && now <= calls[0].at <= b
    requires Budget(p, l, key, calls[0].at) <= Budget(p, l, key, now) + Minted(p, calls[0].at) - Minted(p, now)
    requires var l' := Allow(p, l, calls[0].key, calls[0].at).0;
      AllowedIn(p, l', calls[1..], key, a, b) as real <= Budget(p, l', key, calls[0].at) + Minted(p, b) - Minted(p, calls[0].at)
    ensures AllowedIn(p, l, calls, key, a, b) as real <= Budget(p, l, key, now) + Minted(p, b) - Minted(p, now)
  {
    AllowSpendsBudget(p, l, calls[0].key, calls[0].at);
  }

  /** In any window of length b - a a key is allowed at most burst + rate * (b - a) times. */
  lemma WindowBound(p: Params, l: LimiterState, calls: seq<Call>, key: string, a: real, b: real, now: real)
    requires Sound(p, l, now) && Ordered(calls, now) && a <= b
    ensures AllowedIn(p, l, calls, key, a, b) as real <= p.burst + (b - a) * p.rate
  {
    WindowBoundMinted(p, l, calls, key, a, b, now);
    MintedBetween(p, a, b);
  }

  lemma MintedBetween(p: Params, a: real, b: real)
    ensures Minted(p, b) - Minted(p, a) == (b - a) * p.rate
  {}

  lemma {:induction false} WindowBoundMinted(p: Params, l: LimiterState, calls: seq<Call>, key: string, a: real, b: real, now: real)
    requires Sound(p, l, now) && Ordered(calls, now) && a <= b
    ensures AllowedIn(p, l, calls, key, a, b) as real <= p.burst + Minted(p, b) - Minted(p, a)
    decreases |calls|
  {
    MintingIsMonotone(p, a, b);
    if now > b {
      NoneAllowedAfter(p, l, calls, key, a, b, now);
    } else if a <= now {
      MintingIsMonotone(p, a, now);
      AllowedWithinBudget(p, l, calls, key, a, b, now);
    } else if calls != [] {
      var c := calls[0];
      BudgetGrowth(p, l, key, now, c.at);
      if c.at < a {
        AllowSpendsBudget(p, l, c.key, c.at);
        WindowBoundMinted(p, Allow(p, l, c.key, c.at).0, calls[1..], key, a, b, c.at);
      } else if c.at > b {
        NoneAllowedAfter(p, l, calls, key, a, b, c.at);
      } else {
        MintingIsMonotone(p, a, c.at);
        AllowedWithinBudget(p, l, calls, key, a, b, c.at);
      }
    }
  }

  /** Every call on the key comes at least gap after the one before it (prev, if there was one). */
  predicate Spaced(calls: seq<Call>, key: string, gap: real, prev: Option<real>) {
    calls != [] ==>
      if calls[0].key == key then
        && (prev.Some? ==> calls[0].at - prev.value >= gap)
        && Spaced(calls[1..], key, gap, Some(calls[0].at))
      else Spaced(calls[1..], key, gap, prev)
  }

  lemma SpacedCall(p: Params, l: LimiterState, c: Call, key: string, prev: Option<real>, now: real)
    requires Sound(p, l, now) && now <= c.at && p.rate > 0.0
    requires c.key == key && prev.Some? ==> c.at - prev.value >= 1.0 / p.rate
    requires prev.None? ==> key !in l.buckets
    requires prev.Some? ==> Budget(p, l, key, now) >= Min(Minted(p, now) - Minted(p, prev.value), p.burst)
    ensures var (l', ok) := Allow(p, l, c.key, c.at);
      && Sound(p, l', c.at)
      && (c.key == key ==> ok && Budget(p, l', key, c.at) >= 0.0)
      && (c.key != key && prev.None? ==> key !in l'.buckets)
      && (c.key != key && prev.Some? ==> Budget(p, l', key, c.at) >= Min(Minted(p, c.at) - Minted(p, prev.value), p.burst))
  {
    MintingIsMonotone(p, now, c.at);
    BudgetGrowth(p, l, key, now, c.at);
    AllowSpendsBudget(p, l, c.key, c.at);
    if c.key == key {
      if prev.Some? { OneTokenPerGap(p, prev.value, c.at); }
      BudgetNonNegative(p, Allow(p, l, c.key, c.at).0, c.at, key);
    }
  }

  /** A key that keeps 1/rate between its calls is never refused. */
  lemma {:induction false} SpacedKeyIsNeverRefused(p: Params, l: LimiterState, calls: seq<Call>, key: string, prev: Option<real>, now: real)
    requires Sound(p, l, now) && Ordered(calls, now) && p.rate > 0.0
    requires Spaced(calls, key, 1.0 / p.rate, prev)
    requires prev.None? ==> key !in l.buckets
    requires prev.Some? ==> Budget(p, l, key, now) >= Min(Minted(p, now) - Minted(p, prev.value), p.burst)
    ensures forall i | 0 <= i < |calls| && calls[i].key == key :: Answers(p, l, calls)[i]
    decreases |calls|
  {
    if calls != [] {
      var c := calls[0];
      var l' := Allow(p, l, c.key, c.at).0;
      SpacedCall(p, l, c, key, prev, now);
      if c.key == key {
        SpacedKeyIsNeverRefused(p, l', calls[1..], key, Some(c.at), c.at);
      } else {
        SpacedKeyIsNeverRefused(p, l', calls[1..], key, prev, c.at);
      }
      assert forall i | 1 <= i < |calls| :: Answers(p, l, calls)[i] == Answers(p, l', calls[1..])[i - 1];
    }
  }

  lemma OneTokenPerGap(p: Params, a: real, b: real)
    requires p.rate > 0.0 && b - a >= 1.0 / p.rate
    ensures Minted(p, b) - Minted(p, a) >= 1.0
  {
    MintingIsMonotone(p, a + 1.0 / p.rate, b);
    assert Minted(p, a + 1.0 / p.rate) == Minted(p, a) + 1.0 / p.rate * p.rate;
    assert 1.0 / p.rate * p.rate == 1.0;
  }

  // ---------------------------------------------------------------- memory

  /** Buckets kept since the last sweep were not idle then. */
  ghost predicate Lean(p: Params, l: LimiterState) {
    forall k | k in l.buckets ::
      && l.lastGC.Some?
      && (l.buckets[k].last >= l.lastGC.value || !IsIdle(p, l.buckets[k], l.lastGC.value))
  }

  lemma LeanStep(p: Params, l: LimiterState, key: string, now: real)
    requires Lean(p, l) && Sound(p, l, now)
    requires l.lastGC.Some? ==> l.lastGC.value <= now
    ensures Lean(p, Allow(p, l, key, now).0)
    ensures Allow(p, l, key, now).0.lastGC.Some?
    ensures now - GC_INTERVAL < Allow(p, l, key, now).0.lastGC.value <= now
  {}

  lemma {:induction false} RecentBuckets(p: Params, calls: seq<Call>, from: real)
    requires p.rate > 0.0 && p.burst >= 1.0
    requires Ordered(calls, from) && calls != []
    ensures var l := After(p, EMPTY, calls);
      var now := calls[|calls| - 1].at;
      forall k | k in l.buckets :: now - l.buckets[k].last < 60.0 + p.burst / p.rate
  {
    RecentBucketsFrom(p, EMPTY, calls, from);
  }

  /** After any call every live bucket was touched less than gcInterval + burst / rate ago. */
  lemma {:induction false} RecentBucketsFrom(p: Params, l: LimiterState, calls: seq<Call>, from: real)
    requires p.rate > 0.0 && Sound(p, l, from) && Lean(p, l)
    requires l.lastGC.Some? ==> l.lastGC.value <= from
    requires Ordered(calls, from) && calls != []
    ensures var l' := After(p, l, calls);
      var now := calls[|calls| - 1].at;
      forall k | k in l'.buckets :: now - l'.buckets[k].last < GC_INTERVAL + p.burst / p.rate
    decreases |calls|
  {
    var c := calls[0];
    var l1 := Allow(p, l, c.key, c.at).0;
    BudgetGrowth(p, l, c.key, from, c.at);
    AllowSpendsBudget(p, l, c.key, c.at);
    LeanStep(p, l, c.key, c.at);
    if |calls| > 1 {
      RecentBucketsFrom(p, l1, calls[1..], c.at);
      assert calls[1..][|calls| - 2] == calls[|calls| - 1];
      assert After(p, l, calls) == After(p, l1, calls[1..]);
    } else {
      assert After(p, l, calls) == l1;
      forall k | k in l1.buckets
        ensures c.at - l1.buckets[k].last < GC_INTERVAL + p.burst / p.rate
      {
        NotIdleIsRecent(p, l1.buckets[k], l1.lastGC.value);
      }
    }
  }

  lemma NotIdleIsRecent(p: Params, b: Bucket, at: real)
    requires p.rate > 0.0 && p.burst >= 1.0 && b.tokens >= 0.0
    requires b.last >= at || !IsIdle(p, b, at)
    ensures at - b.last < p.burst / p.rate
  {
    var full := p.burst / p.rate;
    assert full * p.rate == p.burst;
    assert Minted(p, b.last + full) == Minted(p, b.last) + full * p.rate;
    if at - b.last >= full {
      MintingIsMonotone(p, b.last + full, at);
    }
  }

  // ---------------------------------------------------------------- the limiter object

  class Limiter {
    const p: Params
    var buckets: map<string, Bucket>
    var lastGC: Option<real>

    ghost function State(): LimiterState
      reads this
    {
      LimiterState(buckets, lastGC)
    }

    constructor (ratePerMinute: int, burst: int)
      ensures State() == EMPTY
      ensures p == Params(ratePerMinute as real / 60.0, burst as real)
    {
      p := Params(ratePerMinute as real / 60.0, burst as real);
      buckets := map[];
      lastGC := None;
    }

    method AllowKey(key: string, now: real) returns (ok: bool)
      modifies this
      ensures (State(), ok) == Allow(p, old(State()), key, now)
    {
      Collect(now);
      if key !in buckets {
        buckets := buckets[key := Bucket(p.burst - 1.0, now)];
        return true;
      }
      var tokens := Refilled(p, buckets[key], now);
      if tokens > p.burst {
        tokens := p.burst;
      }
      ok := tokens >= 1.0;
      if ok {
        tokens := tokens - 1.0;
      }
      buckets := buckets[key := Bucket(tokens, now)];
    }

    method Collect(now: real)
      modifies this
      ensures State() == Gc(p, old(State()), now)
    {
      if lastGC.Some? && now - lastGC.value < GC_INTERVAL {
        return;
      }
      lastGC := Some(now);
      var todo := buckets.Keys;
      while todo != {}
        invariant todo <= old(buckets).Keys
        invariant forall k ::
          k in buckets <==> k in old(buckets) && (k in todo || !IsIdle(p, old(buckets)[k], now))
        invariant forall k | k in buckets :: buckets[k] == old(buckets)[k]
        invariant lastGC == Some(now)
        decreases todo
      {
        var k :| k in todo;
        if Refilled(p, buckets[k], now) >= p.burst {
          buckets := buckets - {k};
        }
        todo := todo - {k};
      }
    }
  }
}
