/**
 The in-process replay cache (auth/auth.go). Times are nanoseconds.

 `Seen` on a cache value specifies the class method, which evicts stale nonces at most
 once per TTL. Eviction is shown to be invisible and memory bounded.
 */
module NonceCache {
  import opened Wrappers

  /** lastGC is None until the first collection: the source starts from the zero time. */
  datatype CacheState = CacheState(seen: map<string, int>, lastGC: Option<int>)

  const EMPTY := CacheState(map[], None)

  function Evicted(ttl: int, seen: map<string, int>, now: int): map<string, int> {
    map k | k in seen && now - seen[k] <= ttl :: seen[k]
  }

  function Collected(ttl: int, c: CacheState, now: int): CacheState {
    if c.lastGC.None? || now - c.lastGC.value > ttl then CacheState(Evicted(ttl, c.seen, now), Some(now)) else c
  }

  /** Records the nonce unless it was used within the TTL, and says whether it was. */
  function Record(ttl: int, seen: map<string, int>, nonce: string, now: int): (map<string, int>, bool) {
    if nonce in seen && now - seen[nonce] <= ttl then (seen, true) else (seen[nonce := now], false)
  }

  function Seen(ttl: int, c: CacheState, nonce: string, now: int): (CacheState, bool) {
    var g := Collected(ttl, c, now);
    var (seen, replay) := Record(ttl, g.seen, nonce, now);
    (CacheState(seen, g.lastGC), replay)
  }

  // ---------------------------------------------------------------- runs

  datatype Use = Use(nonce: string, at: int)

  predicate Ordered(uses: seq<Use>, from: int) {
    uses != [] ==> from <= uses[0].at && Ordered(uses[1..], uses[0].at)
  }

  function Replays(ttl: int, c: CacheState, uses: seq<Use>): (r: seq<bool>)
    decreases |uses|
  {
    if uses == [] then []
    else
      var (c', replay) := Seen(ttl, c, uses[0].nonce, uses[0].at);
      [replay] + Replays(ttl, c', uses[1..])
  }

  /** The same uses against a cache that never evicts. */
  function ReplaysForever(ttl: int, seen: map<string, int>, uses: seq<Use>): (r: seq<bool>)
    decreases |uses|
  {
    if uses == [] then []
    else
      var (seen', replay) := Record(ttl, seen, uses[0].nonce, uses[0].at);
      [replay] + ReplaysForever(ttl, seen', uses[1..])
  }

  /** full keeps everything live keeps; whatever else it keeps is already stale. */
  ghost predicate OnlyStaleMissing(ttl: int, live: map<string, int>, full: map<string, int>, now: int) {
    && (forall k | k in live :: k in full && full[k] == live[k])
    && (forall k | k in full && k !in live :: now - full[k] > ttl)
  }

  /** Collecting once per TTL never changes an answer. */
  lemma {:induction false} EvictionIsInvisible(ttl: int, c: CacheState, full: map<string, int>, uses: seq<Use>, now: int)
    requires OnlyStaleMissing(ttl, c.seen, full, now) && Ordered(uses, now)
    ensures Replays(ttl, c, uses) == ReplaysForever(ttl, full, uses)
    decreases |uses|
  {
    if uses != [] {
      var u := uses[0];
      var c' := Seen(ttl, c, u.nonce, u.at).0;
      var full' := Record(ttl, full, u.nonce, u.at).0;
      assert OnlyStaleMissing(ttl, c'.seen, full', u.at);
      EvictionIsInvisible(ttl, c', full', uses[1..], u.at);
    }
  }

  function After(ttl: int, c: CacheState, uses: seq<Use>): CacheState
    decreases |uses|
  {
    if uses == [] then c else After(ttl, Seen(ttl, c, uses[0].nonce, uses[0].at).0, uses[1..])
  }

  /** Every entry was fresh at the last collection or was recorded since. */
  ghost predicate Tidy(ttl: int, c: CacheState) {
    c.seen != map[] ==> c.lastGC.Some? && forall k | k in c.seen :: c.lastGC.value - c.seen[k] <= ttl
  }

  ghost predicate NoneOlderThan(c: CacheState, age: int, now: int) {
    forall k | k in c.seen :: now - c.seen[k] <= age
  }

  /** After any use no entry is older than twice the TTL. */
  lemma {:induction false} EntriesAreRecent(ttl: int, c: CacheState, uses: seq<Use>, from: int)
    requires ttl >= 0 && Tidy(ttl, c) && Ordered(uses, from) && uses != []
    requires c.lastGC.Some? ==> c.lastGC.value <= from
    ensures NoneOlderThan(After(ttl, c, uses), 2 * ttl, uses[|uses| - 1].at)
    decreases |uses|
  {
    var u := uses[0];
    var c' := Seen(ttl, c, u.nonce, u.at).0;
    assert Tidy(ttl, c');
    if |uses| > 1 {
      EntriesAreRecent(ttl, c', uses[1..], u.at);
      assert uses[1..][|uses| - 2] == uses[|uses| - 1];
    } else {
      assert After(ttl, c, uses) == After(ttl, c', []) == c';
    }
  }

  // ---------------------------------------------------------------- the cache object

  class Cache {
    const ttl: int
    var seen: map<string, int>
    var lastGC: Option<int>

    ghost function State(): CacheState
      reads this
    {
      CacheState(seen, lastGC)
    }

    constructor (ttl: int)
      ensures this.ttl == ttl && State() == EMPTY
    {
      this.ttl := ttl;
      seen := map[];
      lastGC := None;
    }

    method SeenBefore(nonce: string, now: int) returns (replay: bool)
      modifies this
      ensures (State(), replay) == Seen(ttl, old(State()), nonce, now)
    {
      if lastGC.None? || now - lastGC.value > ttl {
        var todo := seen.Keys;
        while todo != {}
          invariant todo <= old(seen).Keys
          invariant forall k :: k in seen <==> k in old(seen) && (k in todo || now - old(seen)[k] <= ttl)
          invariant forall k | k in seen :: seen[k] == old(seen)[k]
          decreases todo
        {
          var k :| k in todo;
          if now - seen[k] > ttl {
            seen := seen - {k};
          }
          todo := todo - {k};
        }
        lastGC := Some(now);
        assert seen == Evicted(ttl, old(seen), now);
      }
      if nonce in seen && now - seen[nonce] <= ttl {
        return true;
      }
      seen := seen[nonce := now];
      return false;
    }
  }
}
