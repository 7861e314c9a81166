/**
 The shared fixed-window limiter (ratelimit/redis.go). One counter per key and minute lives in
 Redis; the first increment asks for its expiry, and an unreachable Redis lets requests through.

 Times are milliseconds. A call says what Redis did: whether the increment reached it and
 whether the expiry was set.
 */
module RedisWindow {
  import opened Wrappers

  const WINDOW := 60_000
  const EXPIRY := 70_000

  datatype Counter = Counter(n: nat, expiry: Option<nat>)

  datatype Slot = Slot(key: string, window: nat)

  datatype Call = Call(key: string, now: nat, reachable: bool, expiryKept: bool)

  datatype Notice = Degraded | Recovered

  datatype Redis = Redis(counters: map<Slot, Counter>, degraded: bool, notices: seq<Notice>)

  const EMPTY := Redis(map[], false, [])

  function WindowOf(now: nat): nat { now / WINDOW }

  function SlotOf(c: Call): Slot { Slot(c.key, WindowOf(c.now)) }

  predicate Live(c: Counter, now: nat) { c.expiry.Some? ==> now < c.expiry.value }

  /** What Redis still holds. */
  function Unexpired(counters: map<Slot, Counter>, now: nat): map<Slot, Counter> {
    map slot | slot in counters && Live(counters[slot], now) :: counters[slot]
  }

  /** INCR, then EXPIRE on a new counter. */
  function Increment(counters: map<Slot, Counter>, c: Call): Counter {
    var slot := SlotOf(c);
    var was := if slot in counters then counters[slot] else Counter(0, None);
    Counter(was.n + 1, if was.n == 0 && c.expiryKept then Some(c.now + EXPIRY) else was.expiry)
  }

  function Take(rate: int, s: Redis, c: Call): (Redis, bool) {
    var counters := Unexpired(s.counters, c.now);
    if !c.reachable then (Redis(counters, true, if s.degraded then s.notices else s.notices + [Degraded]), true)
    else
      var counter := Increment(counters, c);
      (Redis(counters[SlotOf(c) := counter], false, if s.degraded then s.notices + [Recovered] else s.notices),
       counter.n <= rate)
  }

  function After(rate: int, calls: seq<Call>): Redis {
    if calls == [] then EMPTY else Take(rate, After(rate, calls[..|calls| - 1]), calls[|calls| - 1]).0
  }

  function Answer(rate: int, calls: seq<Call>): bool
    requires calls != []
  {
    Take(rate, After(rate, calls[..|calls| - 1]), calls[|calls| - 1]).1
  }

  predicate Ordered(calls: seq<Call>) {
    forall i, j | 0 <= i < j < |calls| :: calls[i].now <= calls[j].now
  }

  // ---------------------------------------------------------------- expiry is invisible

  predicate Falls(c: Call, key: string, from: nat, to: nat) { c.reachable && c.key == key && from <= c.now < to }

  /** How many of the key's calls in [from, to) reached Redis. */
  function Counted(calls: seq<Call>, key: string, from: nat, to: nat): nat {
    if calls == [] then 0
    else
      Counted(calls[..|calls| - 1], key, from, to) + if Falls(calls[|calls| - 1], key, from, to) then 1 else 0
  }

  function InWindow(calls: seq<Call>, slot: Slot): nat {
    Counted(calls, slot.key, slot.window * WINDOW, slot.window * WINDOW + WINDOW)
  }

  /** A counter of a window that is not over holds exactly the window's calls, and will outlive it. */
  ghost predicate Exact(s: Redis, calls: seq<Call>, now: nat) {
    forall slot: Slot | slot.window * WINDOW + WINDOW > now ::
      && (slot !in s.counters ==> InWindow(calls, slot) == 0)
      && (slot in s.counters ==>
            s.counters[slot].n == InWindow(calls, slot) && Live(s.counters[slot], slot.window * WINDOW + WINDOW))
  }

  lemma {:induction false} CountersAreExact(rate: int, calls: seq<Call>, now: nat)
    requires Ordered(calls) && (calls != [] ==> calls[|calls| - 1].now <= now)
    ensures Exact(After(rate, calls), calls, now)
  {
    if calls != [] {
      var before, c := calls[..|calls| - 1], calls[|calls| - 1];
      CountersAreExact(rate, before, c.now);
      forall slot: Slot | slot.window * WINDOW + WINDOW > now
        ensures InWindow(calls, slot) == InWindow(before, slot) + if c.reachable && slot == SlotOf(c) then 1 else 0
      {
        assert slot.window * WINDOW <= c.now < slot.window * WINDOW + WINDOW <==> slot.window == WindowOf(c.now);
      }
    }
  }

  /**
   A call is refused exactly if it reaches Redis when its window already holds rate calls of
   its key, whether or not expiries were set: the expiry shows in no answer.
   */
  lemma RefusedIffWindowFull(rate: int, calls: seq<Call>, c: Call)
    requires Ordered(calls + [c])
    ensures !Answer(rate, calls + [c]) <==> c.reachable && InWindow(calls, SlotOf(c)) >= rate
  {
    var all := calls + [c];
    assert all[..|calls|] == calls;
    assert calls != [] ==> calls[|calls| - 1].now <= c.now by {
      assert calls != [] ==> all[|calls| - 1].now <= all[|calls|].now;
    }
    assert Ordered(calls) by {
      assert forall i | 0 <= i < |calls| :: calls[i] == all[i];
    }
    CountersAreExact(rate, calls, c.now);
    assert SlotOf(c).window * WINDOW + WINDOW > c.now;
  }

  /** Counters whose expiry was kept are gone within 70 seconds of their window's end. */
  lemma {:induction false} CountersAreRecent(rate: int, calls: seq<Call>, slot: Slot)
    requires calls != [] && forall i | 0 <= i < |calls| :: calls[i].expiryKept
    requires slot in After(rate, calls).counters
    ensures After(rate, calls).counters[slot].expiry.Some?
    ensures calls[|calls| - 1].now < After(rate, calls).counters[slot].expiry.value < slot.window * 60_000 + 130_000
    ensures After(rate, calls).counters[slot].expiry.value >= slot.window * 60_000 + 70_000
  {
    var before, c := calls[..|calls| - 1], calls[|calls| - 1];
    if slot in After(rate, before).counters {
      if before != [] { CountersAreRecent(rate, before, slot); }
    } else {
      assert slot == SlotOf(c);
    }
  }

  // ---------------------------------------------------------------- how many are allowed

  /** How many of the key's calls in [from, to) reached Redis and were allowed. */
  function Allowed(rate: int, calls: seq<Call>, key: string, from: nat, to: nat): nat {
    if calls == [] then 0
    else
      Allowed(rate, calls[..|calls| - 1], key, from, to)
      + if Falls(calls[|calls| - 1], key, from, to) && Answer(rate, calls) then 1 else 0
  }

  function Min(a: int, b: int): int { if a < b then a else b }

  /** A window allows the first rate of its calls and no more. */
  lemma {:induction false} WindowAllowsExactly(rate: nat, calls: seq<Call>, slot: Slot)
    requires Ordered(calls)
    ensures Allowed(rate, calls, slot.key, slot.window * WINDOW, slot.window * WINDOW + WINDOW) == Min(rate, InWindow(calls, slot))
  {
    if calls != [] {
      var before, c := calls[..|calls| - 1], calls[|calls| - 1];
      assert calls == before + [c];
      WindowAllowsExactly(rate, before, slot);
      RefusedIffWindowFull(rate, before, c);
      assert slot.window * WINDOW <= c.now < slot.window * WINDOW + WINDOW <==> slot.window == WindowOf(c.now);
    }
  }

  lemma {:induction false} AllowedAdds(rate: int, calls: seq<Call>, key: string, a: nat, b: nat, c: nat)
    requires a <= b <= c
    ensures Allowed(rate, calls, key, a, c) == Allowed(rate, calls, key, a, b) + Allowed(rate, calls, key, b, c)
  {
    if calls != [] { AllowedAdds(rate, calls[..|calls| - 1], key, a, b, c); }
  }

  /** k whole windows allow k times the rate. */
  lemma {:induction false} WindowsBound(rate: nat, calls: seq<Call>, key: string, w: nat, k: nat)
    requires Ordered(calls)
    ensures Allowed(rate, calls, key, w * WINDOW, (w + k) * WINDOW) <= k * rate
  {
    if k == 0 {
      EmptySpan(rate, calls, key, w * WINDOW);
    } else {
      WindowsBound(rate, calls, key, w, k - 1);
      WindowAllowsExactly(rate, calls, Slot(key, w + k - 1));
      AllowedAdds(rate, calls, key, w * WINDOW, (w + k - 1) * WINDOW, (w + k) * WINDOW);
      assert k * rate == (k - 1) * rate + rate;
    }
  }

  lemma {:induction false} EmptySpan(rate: int, calls: seq<Call>, key: string, a: nat)
    ensures Allowed(rate, calls, key, a, a) == 0
  {
    if calls != [] { EmptySpan(rate, calls[..|calls| - 1], key, a); }
  }

  /** Any k minutes, wherever they begin, allow a key at most k + 1 times the rate while Redis answers. */
  lemma SpanBound(rate: nat, calls: seq<Call>, key: string, from: nat, k: nat)
    requires Ordered(calls)
    ensures Allowed(rate, calls, key, from, from + k * 60_000) <= (k + 1) * rate
  {
    var w := WindowOf(from);
    WindowsBound(rate, calls, key, w, k + 1);
    AllowedAdds(rate, calls, key, w * WINDOW, from, (w + k + 1) * WINDOW);
    AllowedAdds(rate, calls, key, from, from + k * WINDOW, (w + k + 1) * WINDOW);
  }

  // ---------------------------------------------------------------- the span bound is reached

  function Burst(key: string, now: nat, n: nat): seq<Call> {
    if n == 0 then [] else Burst(key, now, n - 1) + [Call(key, now, true, true)]
  }

  /** The last millisecond of window w, and then the first of window w + k. */
  function LastBurst(w: nat, k: nat): nat { if k == 0 then w * WINDOW + WINDOW - 1 else (w + k) * WINDOW }

  predicate Between(calls: seq<Call>, first: nat, last: nat) { forall i | 0 <= i < |calls| :: first <= calls[i].now <= last }

  lemma CountedAppend(calls: seq<Call>, c: Call, key: string, from: nat, to: nat)
    ensures Counted(calls + [c], key, from, to) == Counted(calls, key, from, to) + if Falls(c, key, from, to) then 1 else 0
  {
    assert (calls + [c])[..|calls|] == calls;
  }

  lemma {:induction false} BurstCounts(calls: seq<Call>, key: string, now: nat, n: nat, from: nat, to: nat)
    ensures Counted(calls + Burst(key, now, n), key, from, to) == Counted(calls, key, from, to) + if from <= now < to then n else 0
  {
    if n == 0 {
      assert calls + Burst(key, now, 0) == calls;
    } else {
      var c := Call(key, now, true, true);
      BurstCounts(calls, key, now, n - 1, from, to);
      CountedAppend(calls + Burst(key, now, n - 1), c, key, from, to);
      assert calls + Burst(key, now, n) == calls + Burst(key, now, n - 1) + [c];
    }
  }

  lemma {:induction false} BurstInOrder(calls: seq<Call>, key: string, first: nat, now: nat, n: nat)
    requires Ordered(calls) && Between(calls, first, now) && first <= now
    ensures Ordered(calls + Burst(key, now, n)) && Between(calls + Burst(key, now, n), first, now)
  {
    if n == 0 {
      assert calls + [] == calls;
    } else {
      BurstInOrder(calls, key, first, now, n - 1);
      assert calls + Burst(key, now, n) == calls + Burst(key, now, n - 1) + [Call(key, now, true, true)];
    }
  }

  lemma LastBurstWindow(w: nat, k: nat, v: nat)
    ensures v * WINDOW <= LastBurst(w, k) < v * WINDOW + WINDOW <==> v == w + k
  {
    if v < w + k { assert v * WINDOW + WINDOW <= (w + k) * WINDOW; }
    if v > w + k { assert v * WINDOW >= (w + k) * WINDOW + WINDOW; }
  }

  /** Each of the windows w to w + k gets rate calls, and no other gets any. */
  ghost predicate AreFull(calls: seq<Call>, key: string, rate: nat, w: nat, k: nat) {
    forall v: nat :: InWindow(calls, Slot(key, v)) == if w <= v <= w + k then rate else 0
  }

  /** rate calls in the last millisecond of window w, and rate more in the first of each of the next k. */
  lemma {:induction false} Bursts(key: string, rate: nat, w: nat, k: nat) returns (calls: seq<Call>)
    ensures Ordered(calls) && Between(calls, LastBurst(w, 0), LastBurst(w, k)) && AreFull(calls, key, rate, w, k)
  {
    var before, last := [], LastBurst(w, k);
    if k > 0 { before := Bursts(key, rate, w, k - 1); }
    calls := before + Burst(key, last, rate);
    BurstInOrder(before, key, LastBurst(w, 0), last, rate);
    forall v: nat
      ensures InWindow(calls, Slot(key, v)) == InWindow(before, Slot(key, v)) + if v == w + k then rate else 0
    {
      BurstCounts(before, key, last, rate, v * WINDOW, v * WINDOW + WINDOW);
      LastBurstWindow(w, k, v);
    }
  }

  lemma {:induction false} NoneOutside(calls: seq<Call>, key: string, first: nat, last: nat, from: nat, to: nat)
    requires Between(calls, first, last) && (to <= first || last < from)
    ensures Counted(calls, key, from, to) == 0
  {
    if calls != [] { NoneOutside(calls[..|calls| - 1], key, first, last, from, to); }
  }

  lemma {:induction false} AllowedAreCounted(rate: int, calls: seq<Call>, key: string, from: nat, to: nat)
    ensures Allowed(rate, calls, key, from, to) <= Counted(calls, key, from, to)
  {
    if calls != [] { AllowedAreCounted(rate, calls[..|calls| - 1], key, from, to); }
  }

  /** Windows that each hold rate calls allow them all. */
  lemma {:induction false} FullWindows(key: string, rate: nat, calls: seq<Call>, w: nat, j: nat)
    requires Ordered(calls) && forall v: nat | w <= v < w + j :: InWindow(calls, Slot(key, v)) == rate
    ensures Allowed(rate, calls, key, w * WINDOW, (w + j) * WINDOW) == j * rate
  {
    if j == 0 {
      EmptySpan(rate, calls, key, w * WINDOW);
    } else {
      FullWindows(key, rate, calls, w, j - 1);
      assert InWindow(calls, Slot(key, w + (j - 1))) == rate;
      OneMoreWindow(key, rate, calls, w, j - 1);
      OneMore(j, rate);
    }
  }

  lemma OneMore(j: nat, rate: nat)
    requires j > 0
    ensures j * rate == (j - 1) * rate + rate
  {}

  lemma OneMoreWindow(key: string, rate: nat, calls: seq<Call>, w: nat, j: nat)
    requires Ordered(calls) && InWindow(calls, Slot(key, w + j)) == rate
    ensures Allowed(rate, calls, key, w * WINDOW, (w + (j + 1)) * WINDOW) == Allowed(rate, calls, key, w * WINDOW, (w + j) * WINDOW) + rate
  {
    WindowAllowsExactly(rate, calls, Slot(key, w + j));
    AllowedAdds(rate, calls, key, w * WINDOW, (w + j) * WINDOW, (w + (j + 1)) * WINDOW);
  }

  /** For every rate and every k >= 1 there are k minutes that allow a key k + 1 times the rate. */
  lemma SpanBoundIsReached(key: string, rate: nat, w: nat, k: nat) returns (calls: seq<Call>)
    requires k >= 1
    ensures Ordered(calls)
    ensures var from := LastBurst(w, 0); Allowed(rate, calls, key, from, from + k * 60_000) == (k + 1) * rate
  {
    calls := Bursts(key, rate, w, k);
    FullWindows(key, rate, calls, w, k + 1);
    BurstsInside(rate, calls, key, w, k);
  }

  lemma BurstsInside(rate: nat, calls: seq<Call>, key: string, w: nat, k: nat)
    requires k >= 1 && Between(calls, LastBurst(w, 0), LastBurst(w, k))
    ensures var from := LastBurst(w, 0);
      Allowed(rate, calls, key, from, from + k * WINDOW) == Allowed(rate, calls, key, w * WINDOW, (w + (k + 1)) * WINDOW)
  {
    var from := LastBurst(w, 0);
    AllowedInside(rate, calls, key, from, LastBurst(w, k), w * WINDOW, from, from + k * WINDOW, (w + (k + 1)) * WINDOW);
  }

  /** A span that covers all the calls misses none that a longer one allows. */
  lemma AllowedInside(rate: int, calls: seq<Call>, key: string, first: nat, last: nat, a: nat, b: nat, c: nat, d: nat)
    requires Between(calls, first, last) && a <= b <= first <= last < c <= d
    ensures Allowed(rate, calls, key, b, c) == Allowed(rate, calls, key, a, d)
  {
    AllowedAdds(rate, calls, key, a, b, d);
    AllowedAdds(rate, calls, key, b, c, d);
    NoneOutside(calls, key, first, last, a, b);
    NoneOutside(calls, key, first, last, c, d);
    AllowedAreCounted(rate, calls, key, a, b);
    AllowedAreCounted(rate, calls, key, c, d);
  }

  // ---------------------------------------------------------------- notices of an outage

  /** Degraded, Recovered, Degraded, ... */
  predicate Alternate(notices: seq<Notice>) {
    forall i | 0 <= i < |notices| :: notices[i] == if i % 2 == 0 then Degraded else Recovered
  }

  /** How often reachability changed, starting from reachable. */
  function Changes(calls: seq<Call>): nat {
    if calls == [] then 0
    else
      var n := |calls| - 1;
      Changes(calls[..n]) + if calls[n].reachable != (n == 0 || calls[n - 1].reachable) then 1 else 0
  }

  /** Each outage and each recovery is noticed exactly once. */
  lemma {:induction false} OneNoticePerChange(rate: int, calls: seq<Call>)
    ensures var s := After(rate, calls);
      && Alternate(s.notices) && |s.notices| == Changes(calls)
      && s.degraded == (calls != [] && !calls[|calls| - 1].reachable) == (|s.notices| % 2 == 1)
  {
    if calls != [] { OneNoticePerChange(rate, calls[..|calls| - 1]); }
  }

  // ---------------------------------------------------------------- the limiter

  class RedisLimiter {
    const rate: int
    var counters: map<Slot, Counter>
    var degraded: bool
    var notices: seq<Notice>

    ghost function View(): Redis reads this { Redis(counters, degraded, notices) }

    constructor (rate: int)
      ensures this.rate == rate && View() == EMPTY
    {
      this.rate := rate;
      counters, degraded, notices := map[], false, [];
    }

    method Allow(key: string, now: nat, reachable: bool, expiryKept: bool) returns (ok: bool)
      modifies this
      ensures (View(), ok) == Take(rate, old(View()), Call(key, now, reachable, expiryKept))
    {
      var slot := Slot(key, now / WINDOW);
      counters := Unexpired(counters, now);
      ghost var was := counters;
      if !reachable {
        if !degraded { degraded, notices := true, notices + [Degraded]; }
        return true;
      }
      var n := if slot in counters then counters[slot].n + 1 else 1;
      counters := counters[slot := Counter(n, if slot in counters then counters[slot].expiry else None)];
      if degraded { degraded, notices := false, notices + [Recovered]; }
      if n == 1 && expiryKept {
        counters := counters[slot := Counter(n, Some(now + EXPIRY))];
      }
      assert counters == was[slot := Increment(was, Call(key, now, reachable, expiryKept))];
      return n <= rate;
    }
  }
}
