/**
 Device request authentication (deviceapi/deviceapi.go, auth/auth.go): header presence,
 timestamp skew, per-source throttle, signature, and only then the nonce.

 Requests overlap. Each reads the clock when it arrives, and hands that reading to the nonce
 cache only after its body and its device row have been read; other requests may do anything
 in between. The theorems bound that delay by d, and d = 0 is the handler that never stalls.

 The MAC is a parameter: any function of secret and message. Clock readings are
 nanoseconds since the Unix epoch and `UnixSeconds` floors them as the source does.
 */
module DeviceAuth {
  import opened Wrappers
  import NonceCache
  import TokenBucket

  const NANOS_PER_SECOND := 1_000_000_000
  const SKEW_SECONDS := 300
  const NONCE_TTL := 600 * NANOS_PER_SECOND
  const INT64_MAX := 0x7fff_ffff_ffff_ffff
  const TWO_64 := 0x1_0000_0000_0000_0000

  type Mac = (string, string) -> string

  // ---------------------------------------------------------------- signature framing

  function Frame(ts: string, nonce: string, body: string): string { ts + "\n" + nonce + "\n" + body }

  ghost predicate OneLine(s: string) { '\n' !in s }

  lemma {:induction false} FirstLineIsUnique(a: string, b: string, a': string, b': string)
    requires OneLine(a) && OneLine(a') && a + "\n" + b == a' + "\n" + b'
    ensures a == a' && b == b'
  {
    var s := a + "\n" + b;
    assert forall k | 0 <= k < |a| :: s[k] == a[k] && a[k] != '\n';
    assert forall k | 0 <= k < |a'| :: s[k] == a'[k] && a'[k] != '\n';
    assert s[|a|] == '\n' && s[|a'|] == '\n';
    assert s[..|a|] == a && s[..|a'|] == a';
    assert s[|a| + 1..] == b && s[|a'| + 1..] == b';
  }

  /** Two signed messages coincide only if all three parts do: header values hold no newline. */
  lemma FramingIsUnambiguous(ts: string, nonce: string, body: string, ts': string, nonce': string, body': string)
    requires OneLine(ts) && OneLine(ts') && OneLine(nonce) && OneLine(nonce')
    requires Frame(ts, nonce, body) == Frame(ts', nonce', body')
    ensures ts == ts' && nonce == nonce' && body == body'
  {
    assert Frame(ts, nonce, body) == ts + "\n" + (nonce + "\n" + body);
    assert Frame(ts', nonce', body') == ts' + "\n" + (nonce' + "\n" + body');
    FirstLineIsUnique(ts, nonce + "\n" + body, ts', nonce' + "\n" + body');
    FirstLineIsUnique(nonce, body, nonce', body');
  }

  // ---------------------------------------------------------------- timestamps

  function UnixSeconds(now: int): int { now / NANOS_PER_SECOND }

  /** Go's int64 subtraction. */
  function Wrap64(x: int): int {
    var m := x % TWO_64;
    if m > INT64_MAX then m - TWO_64 else m
  }

  predicate IsInt64(x: int) { -INT64_MAX - 1 <= x <= INT64_MAX }

  predicate AllDigits(s: string) { s != "" && forall i | 0 <= i < |s| :: '0' <= s[i] <= '9' }

  /** strconv.ParseInt(ts, 10, 64): an optional sign and at least one digit, in range. */
  function ParseInt(ts: string): (r: Option<int>)
    ensures r.Some? ==> IsInt64(r.value)
  {
    var (neg, digits) :=
      if ts != [] && (ts[0] == '-' || ts[0] == '+') then (ts[0] == '-', ts[1..]) else (false, ts);
    if !AllDigits(digits) then None
    else
      var v := if neg then -Magnitude(digits) else Magnitude(digits);
      if IsInt64(v) then Some(v) else None
  }

  function Magnitude(digits: string): int {
    if digits == [] then 0 else 10 * Magnitude(digits[..|digits| - 1]) + (digits[|digits| - 1] as int - '0' as int)
  }

  predicate WithinSkew(now: int, ts: int) { -SKEW_SECONDS <= Wrap64(UnixSeconds(now) - ts) <= SKEW_SECONDS }

  /** Clock readings that the seconds counter holds with room for the skew. */
  predicate SaneClock(now: int) { 0 <= UnixSeconds(now) < INT64_MAX - SKEW_SECONDS }

  /** Wrap-around cannot let a far timestamp through. */
  lemma SkewIsExact(now: int, ts: int)
    requires SaneClock(now) && IsInt64(ts)
    ensures WithinSkew(now, ts) <==> -SKEW_SECONDS <= UnixSeconds(now) - ts <= SKEW_SECONDS
  {}

  // ---------------------------------------------------------------- authentication

  /** body is None when reading it fails (it exceeds the size limit). */
  datatype Request = Request(id: string, ts: string, nonce: string, sig: string, body: Option<string>, source: string)

  datatype Outcome = Passed | MissingHeaders | BadTimestamp | Skewed | RateLimited | TooLarge | BadCredentials | Replayed

  datatype Stage = Arrived | Admitted | Answered(out: Outcome)

  /** One request in the handler: now is the clock reading of its arrival. Visits stay when answered. */
  datatype Visit = Visit(request: Request, now: int, stage: Stage)

  datatype GateState = GateState(preauth: TokenBucket.LimiterState, nonces: NonceCache.CacheState, visits: map<nat, Visit>)

  datatype Config = Config(mac: Mac, preauth: TokenBucket.Params, ttl: int)

  /**
   The atomic steps of one visit: reading the clock, the limiter's own later reading, and the
   nonce cache. secrets are the device rows as the visit's lookup saw them.
   */
  datatype Event =
    | Arrive(v: nat, request: Request, now: int)
    | Throttle(v: nat, at: int)
    | Finish(v: nat, secrets: map<string, string>, at: int)

  function TimeOf(e: Event): int { if e.Arrive? then e.now else e.at }

  function SourceKey(source: string): string { "devauth:" + source }

  function Seconds(now: int): real { now as real / NANOS_PER_SECOND as real }

  /** The checks before the throttle. */
  function Opening(r: Request, now: int): Stage {
    if r.id == "" || r.ts == "" || r.nonce == "" || r.sig == "" then Answered(MissingHeaders)
    else if ParseInt(r.ts).None? then Answered(BadTimestamp)
    else if !WithinSkew(now, ParseInt(r.ts).value) then Answered(Skewed)
    else Arrived
  }

  predicate HasCredentials(mac: Mac, secrets: map<string, string>, r: Request) {
    r.body.Some? && r.id in secrets && r.sig == mac(secrets[r.id], Frame(r.ts, r.nonce, r.body.value))
  }

  function Put(g: GateState, v: nat, visit: Visit): GateState { g.(visits := g.visits[v := visit]) }

  function Step(c: Config, g: GateState, e: Event): GateState {
    match e
    case Arrive(v, r, now) => if v in g.visits then g else Put(g, v, Visit(r, now, Opening(r, now)))
    case Throttle(v, at) =>
      if v !in g.visits || !g.visits[v].stage.Arrived? then g
      else
        var (preauth, ok) := TokenBucket.Allow(c.preauth, g.preauth, SourceKey(g.visits[v].request.source), Seconds(at));
        Put(g.(preauth := preauth), v, g.visits[v].(stage := if ok then Admitted else Answered(RateLimited)))
    case Finish(v, secrets, _) =>
      if v !in g.visits || !g.visits[v].stage.Admitted? then g
      else
        var r := g.visits[v].request;
        if r.body.None? then Put(g, v, g.visits[v].(stage := Answered(TooLarge)))
        else if !HasCredentials(c.mac, secrets, r) then Put(g, v, g.visits[v].(stage := Answered(BadCredentials)))
        else
          var (nonces, replay) := NonceCache.Seen(c.ttl, g.nonces, r.nonce, g.visits[v].now);
          Put(g.(nonces := nonces), v, g.visits[v].(stage := Answered(if replay then Replayed else Passed)))
  }

  function After(c: Config, g: GateState, events: seq<Event>): GateState {
    if events == [] then g else Step(c, After(c, g, events[..|events| - 1]), events[|events| - 1])
  }

  lemma AfterOneMore(c: Config, g: GateState, events: seq<Event>, e: Event)
    ensures After(c, g, events + [e]) == Step(c, After(c, g, events), e)
  {
    assert (events + [e])[..|events|] == events;
  }

  lemma {:induction false} AfterConcat(c: Config, g: GateState, a: seq<Event>, b: seq<Event>)
    ensures After(c, g, a + b) == After(c, After(c, g, a), b)
  {
    if b == [] {
      assert a + b == a;
    } else {
      assert (a + b)[..|a + b| - 1] == a + b[..|b| - 1];
      AfterConcat(c, g, a, b[..|b| - 1]);
    }
  }

  // ---------------------------------------------------------------- the handler object

  class Handler {
    const mac: Mac
    const preauth: TokenBucket.Limiter
    const nonces: NonceCache.Cache
    var visits: map<nat, Visit>

    ghost function State(): GateState
      reads this, preauth, nonces
    {
      GateState(preauth.State(), nonces.State(), visits)
    }

    ghost function Settings(): Config { Config(mac, preauth.p, nonces.ttl) }

    constructor (mac: Mac)
      ensures this.mac == mac && fresh(preauth) && fresh(nonces)
      ensures nonces.ttl == NONCE_TTL && preauth.p == TokenBucket.Params(10.0, 100.0)
      ensures State() == GateState(TokenBucket.EMPTY, NonceCache.EMPTY, map[])
    {
      this.mac := mac;
      var l := new TokenBucket.Limiter(600, 100);
      var n := new NonceCache.Cache(NONCE_TTL);
      preauth := l;
      nonces := n;
      visits := map[];
    }

    method Open(v: nat, r: Request, now: int)
      modifies this
      ensures State() == Step(Settings(), old(State()), Arrive(v, r, now))
    {
      if v in visits { return; }
      var stage := Arrived;
      var ts := ParseInt(r.ts);
      if r.id == "" || r.ts == "" || r.nonce == "" || r.sig == "" {
        stage := Answered(MissingHeaders);
      } else if ts.None? {
        stage := Answered(BadTimestamp);
      } else {
        var d := Wrap64(UnixSeconds(now) - ts.value);
        if d > SKEW_SECONDS || d < -SKEW_SECONDS { stage := Answered(Skewed); }
      }
      visits := visits[v := Visit(r, now, stage)];
    }

    method Admit(v: nat, at: int)
      modifies this, preauth
      ensures State() == Step(Settings(), old(State()), Throttle(v, at))
    {
      if v !in visits || !visits[v].stage.Arrived? { return; }
      var ok := preauth.AllowKey(SourceKey(visits[v].request.source), Seconds(at));
      visits := visits[v := visits[v].(stage := if ok then Admitted else Answered(RateLimited))];
    }

    method Conclude(v: nat, secrets: map<string, string>, at: int)
      modifies this, nonces
      ensures State() == Step(Settings(), old(State()), Finish(v, secrets, at))
    {
      if v !in visits || !visits[v].stage.Admitted? { return; }
      var r, out := visits[v].request, Passed;
      if r.body.None? {
        out := TooLarge;
      } else if r.id !in secrets || r.sig != mac(secrets[r.id], Frame(r.ts, r.nonce, r.body.value)) {
        out := BadCredentials;
      } else {
        var replay := nonces.SeenBefore(r.nonce, visits[v].now);
        if replay { out := Replayed; }
      }
      visits := visits[v := visits[v].(stage := Answered(out))];
    }

    /** What other visits do meanwhile. */
    method Others(events: seq<Event>)
      modifies this, preauth, nonces
      ensures State() == After(Settings(), old(State()), events)
    {
      for i := 0 to |events|
        invariant State() == After(Settings(), old(State()), events[..i])
      {
        AfterOneMore(Settings(), old(State()), events[..i], events[i]);
        assert events[..i + 1] == events[..i] + [events[i]];
        match events[i] {
          case Arrive(v, r, now) => Open(v, r, now);
          case Throttle(v, at) => Admit(v, at);
          case Finish(v, secrets, at) => Conclude(v, secrets, at);
        }
      }
      assert events[..|events|] == events;
    }

    /**
     One request from arrival to answer, with other visits' events before its throttle and
     while its body and device row are read. It ends with the first check that answers it.
     */
    method Auth(v: nat, r: Request, now: int, first: seq<Event>, throttledAt: int, second: seq<Event>,
                secrets: map<string, string>, at: int)
      returns (out: Outcome, ghost run: seq<Event>)
      requires v !in visits && AllOthers(v, first) && AllOthers(v, second)
      modifies this, preauth, nonces
      ensures State() == After(Settings(), old(State()), run)
      ensures run <= [Arrive(v, r, now)] + first + [Throttle(v, throttledAt)] + second + [Finish(v, secrets, at)]
      ensures v in visits && visits[v] == Visit(r, now, Answered(out))
    {
      ghost var c, g := Settings(), State();
      Open(v, r, now);
      run := [Arrive(v, r, now)];
      AfterOneMore(c, g, [], Arrive(v, r, now));
      assert [] + run == run;
      if visits[v].stage.Answered? { return visits[v].stage.out, run; }
      run := MeanwhileThen(v, first, Throttle(v, throttledAt), g, run);
      if visits[v].stage.Answered? { return visits[v].stage.out, run; }
      run := MeanwhileThen(v, second, Finish(v, secrets, at), g, run);
      out := visits[v].stage.out;
    }

    /** Other visits' events, then this visit's next one. */
    method MeanwhileThen(v: nat, events: seq<Event>, e: Event, ghost g: GateState, ghost before: seq<Event>) returns (ghost run: seq<Event>)
      requires v in visits && AllOthers(v, events) && e.v == v && !e.Arrive?
      requires State() == After(Settings(), g, before)
      modifies this, preauth, nonces
      ensures run == before + events + [e] && State() == After(Settings(), g, run)
      ensures v in visits && visits[v].request == old(visits)[v].request && visits[v].now == old(visits)[v].now
      ensures old(visits)[v].stage.Arrived? && e.Throttle? ==> visits[v].stage.Admitted? || visits[v].stage.Answered?
      ensures old(visits)[v].stage.Admitted? && e.Finish? ==> visits[v].stage.Answered?
    {
      ghost var c := Settings();
      OthersKeep(c, State(), events, v);
      Others(events);
      AfterThen(c, g, before, events, e);
      OwnStep(c, State(), v, e);
      if e.Throttle? { Admit(v, e.at); } else { Conclude(v, e.secrets, e.at); }
      run := before + events + [e];
    }
  }

  lemma AfterThen(c: Config, g: GateState, before: seq<Event>, events: seq<Event>, e: Event)
    ensures After(c, g, before + events + [e]) == Step(c, After(c, After(c, g, before), events), e)
  {
    AfterConcat(c, g, before, events);
    AfterOneMore(c, g, before + events, e);
  }

  /** A visit's own throttle or nonce check moves it on, and changes neither its request nor its reading. */
  lemma OwnStep(c: Config, g: GateState, v: nat, e: Event)
    requires v in g.visits && e.v == v && !e.Arrive?
    ensures var g' := Step(c, g, e);
      && v in g'.visits && g'.visits[v].request == g.visits[v].request && g'.visits[v].now == g.visits[v].now
      && (g.visits[v].stage.Arrived? && e.Throttle? ==> g'.visits[v].stage.Admitted? || g'.visits[v].stage.Answered?)
      && (g.visits[v].stage.Admitted? && e.Finish? ==> g'.visits[v].stage.Answered?)
  {}

  predicate AllOthers(v: nat, events: seq<Event>) { forall i | 0 <= i < |events| :: events[i].v != v }

  /** Other visits leave this one's record alone. */
  lemma {:induction false} OthersKeep(c: Config, g: GateState, events: seq<Event>, v: nat)
    requires v in g.visits && AllOthers(v, events)
    ensures v in After(c, g, events).visits && After(c, g, events).visits[v] == g.visits[v]
  {
    if events != [] { OthersKeep(c, g, events[..|events| - 1], v); }
  }

  // ---------------------------------------------------------------- timed runs

  /** Clock readings are whole multiples of tick, and a nonce check comes at most d after its visit's reading. */
  predicate InTime(g: GateState, e: Event, tick: int, d: int)
    requires tick > 0
  {
    && (e.Arrive? ==> SaneClock(e.now) && e.now % tick == 0)
    && (e.Finish? && e.v in g.visits ==> e.at <= g.visits[e.v].now + d)
  }

  ghost predicate WellTimed(c: Config, g: GateState, events: seq<Event>, tick: int, d: int)
    requires tick > 0
  {
    events != [] ==>
      var n := |events| - 1;
      && WellTimed(c, g, events[..n], tick, d)
      && (n > 0 ==> TimeOf(events[n - 1]) <= TimeOf(events[n]))
      && InTime(After(c, g, events[..n]), events[n], tick, d)
  }

  predicate HasPassed(g: GateState, v: nat) { v in g.visits && g.visits[v].stage == Answered(Passed) }

  /** Until the TTL after its reading is over, a pass is in the cache. */
  ghost predicate Remembers(c: Config, g: GateState, time: int) {
    forall v | HasPassed(g, v) && time <= g.visits[v].now + c.ttl ::
      g.visits[v].request.nonce in g.nonces.seen && g.nonces.seen[g.visits[v].request.nonce] == g.visits[v].now
  }

  /** Two passes of one nonce have readings more than ttl - d apart. */
  ghost predicate PassesApart(c: Config, g: GateState, d: int) {
    forall v, w | HasPassed(g, v) && HasPassed(g, w) && v != w && g.visits[v].request.nonce == g.visits[w].request.nonce ::
      Distance(g.visits[v].now, g.visits[w].now) > c.ttl - d
  }

  function Distance(a: int, b: int): int { if a < b then b - a else a - b }

  /** Visits past the first checks have a fitting timestamp and an honest reading, not after the time. */
  ghost predicate VisitsFit(g: GateState, tick: int, time: int)
    requires tick > 0
  {
    forall v | v in g.visits ::
      var x := g.visits[v];
      && x.now <= time && x.now % tick == 0 && SaneClock(x.now)
      && (HasPassed(g, v) || x.stage.Arrived? || x.stage.Admitted? ==>
            ParseInt(x.request.ts).Some? && WithinSkew(x.now, ParseInt(x.request.ts).value))
  }

  ghost predicate Inv(c: Config, g: GateState, tick: int, d: int, time: int)
    requires tick > 0
  {
    Remembers(c, g, time) && PassesApart(c, g, d) && VisitsFit(g, tick, time)
  }

  lemma InvLater(c: Config, g: GateState, tick: int, d: int, time: int, later: int)
    requires tick > 0 && Inv(c, g, tick, d, time) && time <= later
    ensures Inv(c, g, tick, d, later)
  {}

  /** A nonce check by reading now, at a moment not before it. */
  lemma CheckKeepsInv(c: Config, g: GateState, tick: int, d: int, v: nat, time: int)
    requires tick > 0 && Inv(c, g, tick, d, time) && v in g.visits && g.visits[v].stage.Admitted?
    requires time <= g.visits[v].now + d
    ensures var x := g.visits[v];
      var (nonces, replay) := NonceCache.Seen(c.ttl, g.nonces, x.request.nonce, x.now);
      Inv(c, Put(g.(nonces := nonces), v, x.(stage := Answered(if replay then Replayed else Passed))), tick, d, time)
  {
    var x := g.visits[v];
    var (nonces, replay) := NonceCache.Seen(c.ttl, g.nonces, x.request.nonce, x.now);
    var g' := Put(g.(nonces := nonces), v, x.(stage := Answered(if replay then Replayed else Passed)));
    forall u | HasPassed(g', u) && u != v
      ensures HasPassed(g, u) && g'.visits[u] == g.visits[u]
    {}
    if HasPassed(g', v) {
      forall u | HasPassed(g, u) && g.visits[u].request.nonce == x.request.nonce
        ensures time > g.visits[u].now + c.ttl
      {}
    }
  }

  lemma StepKeepsInv(c: Config, g: GateState, e: Event, tick: int, d: int)
    requires tick > 0 && Inv(c, g, tick, d, TimeOf(e)) && InTime(g, e, tick, d)
    ensures Inv(c, Step(c, g, e), tick, d, TimeOf(e))
  {
    if e.Finish? && e.v in g.visits && g.visits[e.v].stage.Admitted? && HasCredentials(c.mac, e.secrets, g.visits[e.v].request) {
      CheckKeepsInv(c, g, tick, d, e.v, e.at);
    } else {
      OtherStep(c, g, e, tick);
      NoPassKeepsInv(c, g, Step(c, g, e), tick, d, TimeOf(e));
    }
  }

  /** No visit passes, the cache stands, and a visit that goes on had its timestamp checked. */
  ghost predicate NoPass(g: GateState, g': GateState, tick: int, time: int)
    requires tick > 0
  {
    && g'.nonces == g.nonces && VisitsFit(g', tick, time)
    && forall v :: (HasPassed(g', v) <==> HasPassed(g, v)) && (HasPassed(g, v) ==> g'.visits[v] == g.visits[v])
  }

  lemma OtherStep(c: Config, g: GateState, e: Event, tick: int)
    requires tick > 0 && VisitsFit(g, tick, TimeOf(e))
    requires e.Arrive? ==> SaneClock(e.now) && e.now % tick == 0
    requires !(e.Finish? && e.v in g.visits && g.visits[e.v].stage.Admitted? && HasCredentials(c.mac, e.secrets, g.visits[e.v].request))
    ensures NoPass(g, Step(c, g, e), tick, TimeOf(e))
  {}

  lemma NoPassKeepsInv(c: Config, g: GateState, g': GateState, tick: int, d: int, time: int)
    requires tick > 0 && Inv(c, g, tick, d, time) && NoPass(g, g', tick, time)
    ensures Inv(c, g', tick, d, time)
  {}

  lemma {:induction false} RunKeepsInv(c: Config, g: GateState, events: seq<Event>, tick: int, d: int, time: int)
    requires tick > 0 && g.visits == map[] && WellTimed(c, g, events, tick, d)
    requires events != [] ==> TimeOf(events[|events| - 1]) <= time
    ensures Inv(c, After(c, g, events), tick, d, time)
  {
    if events != [] {
      var n := |events| - 1;
      var e := events[n];
      RunKeepsInv(c, g, events[..n], tick, d, TimeOf(e));
      StepKeepsInv(c, After(c, g, events[..n]), e, tick, d);
      InvLater(c, After(c, g, events), tick, d, TimeOf(e), time);
    }
  }

  // ---------------------------------------------------------------- replay

  ghost predicate SamePair(g: GateState, v: nat, w: nat) {
    && v in g.visits && w in g.visits
    && g.visits[v].request.ts == g.visits[w].request.ts && g.visits[v].request.nonce == g.visits[w].request.nonce
  }

  /** The longest time between two clock readings that accept one timestamp: 601 s less one tick. */
  function LongestGap(tick: int): int { 601 * NANOS_PER_SECOND - tick }

  lemma MultiplesGap(a: int, b: int, bound: int, tick: int)
    requires tick > 0 && a % tick == 0 && b % tick == 0 && bound % tick == 0 && b - a < bound
    ensures b - a <= bound - tick
  {
    var i, j, k := a / tick, b / tick, bound / tick;
    assert a == i * tick && b == j * tick && bound == k * tick;
    assert (j - i) * tick == b - a;
    LessFromProduct(j - i, k, tick);
    ProductMonotone(j - i, k - 1, tick);
  }

  lemma LessFromProduct(a: int, b: int, tick: int)
    requires tick > 0 && a * tick < b * tick
    ensures a < b
  {}

  lemma ProductMonotone(a: int, b: int, tick: int)
    requires tick > 0 && a <= b
    ensures a * tick <= b * tick
  {}

  /** Two readings that accept the same timestamp. */
  lemma AcceptedGap(a: int, b: int, ts: int, tick: int)
    requires tick > 0 && NANOS_PER_SECOND % tick == 0 && a % tick == 0 && b % tick == 0
    requires SaneClock(a) && SaneClock(b) && IsInt64(ts) && WithinSkew(a, ts) && WithinSkew(b, ts)
    ensures Distance(a, b) <= LongestGap(tick)
  {
    SkewIsExact(a, ts);
    SkewIsExact(b, ts);
    SecondsDivide(tick, 601);
    if a < b { MultiplesGap(a, b, 601 * NANOS_PER_SECOND, tick); } else { MultiplesGap(b, a, 601 * NANOS_PER_SECOND, tick); }
  }

  lemma SecondsDivide(tick: int, k: nat)
    requires tick > 0 && NANOS_PER_SECOND % tick == 0
    ensures (k * NANOS_PER_SECOND) % tick == 0
  {
    var q := NANOS_PER_SECOND / tick;
    assert k * NANOS_PER_SECOND == (k * q) * tick;
    MultipleMod(k * q, tick);
  }

  lemma MultipleMod(k: int, tick: int)
    requires tick > 0
    ensures (k * tick) % tick == 0
  {
    var r := (k * tick) % tick;
    var q := (k * tick) / tick;
    assert k * tick == q * tick + r && 0 <= r < tick;
    assert (k - q) * tick == r;
    LessFromProduct(k - q, 1, tick);
    LessFromProduct(-1, k - q, tick);
  }

  /** Two passes of one (timestamp, nonce) pair: readings more than ttl - d and less than 601 s apart. */
  lemma PassesFarApart(c: Config, g: GateState, events: seq<Event>, tick: int, d: int, v: nat, w: nat)
    requires tick > 0 && NANOS_PER_SECOND % tick == 0 && g.visits == map[] && WellTimed(c, g, events, tick, d)
    requires var h := After(c, g, events); HasPassed(h, v) && HasPassed(h, w) && v != w && SamePair(h, v, w)
    ensures var h := After(c, g, events);
      c.ttl - d < Distance(h.visits[v].now, h.visits[w].now) <= LongestGap(tick)
  {
    var h := After(c, g, events);
    RunKeepsInv(c, g, events, tick, d, if events == [] then 0 else TimeOf(events[|events| - 1]));
    AcceptedGap(h.visits[v].now, h.visits[w].now, ParseInt(h.visits[v].request.ts).value, tick);
  }

  /** As long as the delay leaves the TTL half of the window, a pair passes at most twice. */
  lemma AtMostTwoPasses(c: Config, g: GateState, events: seq<Event>, tick: int, d: int, u: nat, v: nat, w: nat)
    requires tick > 0 && NANOS_PER_SECOND % tick == 0 && g.visits == map[] && WellTimed(c, g, events, tick, d)
    requires 2 * (c.ttl - d + 1) > LongestGap(tick)
    requires u != v && v != w && u != w && SamePair(After(c, g, events), u, v) && SamePair(After(c, g, events), v, w)
    ensures var h := After(c, g, events); !(HasPassed(h, u) && HasPassed(h, v) && HasPassed(h, w))
  {
    var h := After(c, g, events);
    if HasPassed(h, u) && HasPassed(h, v) && HasPassed(h, w) {
      PassesFarApart(c, g, events, tick, d, u, v);
      PassesFarApart(c, g, events, tick, d, v, w);
      PassesFarApart(c, g, events, tick, d, u, w);
    }
  }

  // ---------------------------------------------------------------- exactly when a pair is single-use

  /** However visits overlap, no signed pair ever passes twice. */
  ghost predicate SingleUse(c: Config, tick: int, d: int)
    requires tick > 0
  {
    forall g: GateState, events: seq<Event>, v: nat, w: nat |
      g.visits == map[] && WellTimed(c, g, events, tick, d) && v != w && SamePair(After(c, g, events), v, w) ::
      !(HasPassed(After(c, g, events), v) && HasPassed(After(c, g, events), w))
  }

  /**
   A pair is single-use exactly when the TTL covers the span in which its timestamp is accepted
   and the longest delay between a visit's clock reading and its nonce check.
   */
  lemma SingleUseIffTtlCovers(c: Config, tick: int, d: nat)
    requires tick > 0 && NANOS_PER_SECOND % tick == 0 && d % tick == 0
    requires forall secret, message :: c.mac(secret, message) != ""
    requires SaneClock(LATE_TIME + LongestGap(tick) + d)
    ensures SingleUse(c, tick, d) <==> c.ttl >= LongestGap(tick) + d
  {
    if c.ttl >= LongestGap(tick) + d {
      forall g: GateState, events: seq<Event>, v: nat, w: nat |
        g.visits == map[] && WellTimed(c, g, events, tick, d) && v != w && SamePair(After(c, g, events), v, w)
        ensures !(HasPassed(After(c, g, events), v) && HasPassed(After(c, g, events), w))
      {
        if HasPassed(After(c, g, events), v) && HasPassed(After(c, g, events), w) {
          PassesFarApart(c, g, events, tick, d, v, w);
        }
      }
    } else {
      LatePairPassesTwice(c, tick, d);
    }
  }

  /**
   The shipped 600 s suffices on whole-second clocks for visits that never stall, but not on
   finer clocks, and not once a visit may stall for a second.
   */
  lemma ShippedTtl(c: Config)
    requires c.ttl == 600_000_000_000 && forall secret, message :: c.mac(secret, message) != ""
    ensures SingleUse(c, NANOS_PER_SECOND, 0)
    ensures !SingleUse(c, 1, 0)
    ensures !SingleUse(c, NANOS_PER_SECOND, NANOS_PER_SECOND)
  {
    SingleUseIffTtlCovers(c, NANOS_PER_SECOND, 0);
    SingleUseIffTtlCovers(c, 1, 0);
    SingleUseIffTtlCovers(c, NANOS_PER_SECOND, NANOS_PER_SECOND);
  }

  // ---------------------------------------------------------------- a pair that passes twice

  const LATE_TIME := 1_000_000 * NANOS_PER_SECOND

  function Decimal(n: nat): (s: string)
    ensures s != [] && forall i | 0 <= i < |s| :: '0' <= s[i] <= '9'
  {
    (if n < 10 then [] else Decimal(n / 10)) + [('0' as int + n % 10) as char]
  }

  lemma {:induction false} DecimalMagnitude(n: nat)
    ensures Magnitude(Decimal(n)) == n
  {
    if n >= 10 { DecimalMagnitude(n / 10); }
    var rest := if n < 10 then [] else Decimal(n / 10);
    assert Decimal(n)[..|Decimal(n)| - 1] == rest;
  }

  lemma DecimalParses(n: nat)
    requires n <= INT64_MAX
    ensures ParseInt(Decimal(n)) == Some(n)
  {
    DecimalMagnitude(n);
    DigitsParse(Decimal(n));
  }

  lemma Stamp(n: nat) returns (ts: string)
    requires n <= INT64_MAX
    ensures ts != "" && ParseInt(ts) == Some(n)
  {
    DecimalParses(n);
    ts := Decimal(n);
  }

  lemma DigitsParse(digits: string)
    requires digits != [] && (forall i | 0 <= i < |digits| :: '0' <= digits[i] <= '9') && IsInt64(Magnitude(digits))
    ensures ParseInt(digits) == Some(Magnitude(digits))
  {
    assert '0' <= digits[0] <= '9';
  }

  function Signed64(v: int): Option<int> { if -0x8000_0000_0000_0000 <= v <= 0x7fff_ffff_ffff_ffff then Some(v) else None }

  /** A timestamp is a run of digits with at most one sign before it, and its value fits 64 bits. */
  lemma ParseIntMeans(ts: string)
    ensures ParseInt(ts) ==
      if AllDigits(ts) then Signed64(Magnitude(ts))
      else if ts != "" && ts[0] == '+' && AllDigits(ts[1..]) then Signed64(Magnitude(ts[1..]))
      else if ts != "" && ts[0] == '-' && AllDigits(ts[1..]) then Signed64(-Magnitude(ts[1..]))
      else None
  {}

  /** The value of n's decimal digits is n. */
  lemma {:induction false} DigitsMean(n: nat)
    ensures Magnitude(Decimal(n)) == n && AllDigits(Decimal(n))
  {
    DecimalMagnitude(n);
  }

  /** A request of device "d" that signs ts and nonce properly. */
  function Signed(c: Config, ts: string, nonce: string, source: string): Request {
    Request("d", ts, nonce, c.mac("k", Frame(ts, nonce, "")), Some(""), source)
  }

  const SECRETS := map["d" := "k"]

  /** The limiter has not seen the source. */
  predicate NewSource(g: GateState, source: string) { SourceKey(source) !in g.preauth.buckets }

  /** A visit from a new source, with a fitting timestamp, gets as far as its nonce check. */
  lemma Enters(c: Config, g: GateState, v: nat, ts: string, nonce: string, source: string, now: int)
    requires v !in g.visits && NewSource(g, source) && ts != "" && nonce != "" && c.mac("k", Frame(ts, nonce, "")) != ""
    requires ParseInt(ts).Some? && WithinSkew(now, ParseInt(ts).value)
    ensures var r := Signed(c, ts, nonce, source);
      var g' := Step(c, Step(c, g, Arrive(v, r, now)), Throttle(v, now));
      && g'.visits == g.visits[v := Visit(r, now, Admitted)] && g'.nonces == g.nonces
      && g'.preauth.buckets.Keys <= g.preauth.buckets.Keys + {SourceKey(source)}
  {
    var r := Signed(c, ts, nonce, source);
    var g1 := Step(c, g, Arrive(v, r, now));
    assert g1 == Put(g, v, Visit(r, now, Arrived));
    var g2 := Step(c, g1, Throttle(v, now));
    assert g2.visits == g.visits[v := Visit(r, now, Admitted)];
  }

  /** Its check against a cache that does not hold the nonce. */
  lemma Concludes(c: Config, g: GateState, v: nat, ts: string, nonce: string, source: string, now: int, at: int)
    requires v in g.visits && g.visits[v] == Visit(Signed(c, ts, nonce, source), now, Admitted)
    requires nonce !in NonceCache.Collected(c.ttl, g.nonces, now).seen
    ensures var g' := Step(c, g, Finish(v, SECRETS, at));
      && g'.visits == g.visits[v := Visit(Signed(c, ts, nonce, source), now, Answered(Passed))]
      && g'.nonces == NonceCache.Seen(c.ttl, g.nonces, nonce, now).0 && g'.preauth == g.preauth
  {}

  lemma TimedOneMore(c: Config, g: GateState, events: seq<Event>, e: Event, tick: int, d: int)
    requires tick > 0 && WellTimed(c, g, events, tick, d) && InTime(After(c, g, events), e, tick, d)
    requires events != [] ==> TimeOf(events[|events| - 1]) <= TimeOf(e)
    ensures WellTimed(c, g, events + [e], tick, d) && After(c, g, events + [e]) == Step(c, After(c, g, events), e)
  {
    var all := events + [e];
    assert all[..|events|] == events;
    assert events != [] ==> all[|events| - 1] == events[|events| - 1];
  }

  predicate EndsBy(events: seq<Event>, time: int) { events != [] ==> TimeOf(events[|events| - 1]) <= time }

  lemma ThenEnter(c: Config, g: GateState, events: seq<Event>, v: nat, ts: string, nonce: string, source: string, now: int, tick: int, d: int)
    returns (next: seq<Event>)
    requires tick > 0 && WellTimed(c, g, events, tick, d) && EndsBy(events, now) && SaneClock(now) && now % tick == 0
    requires v !in After(c, g, events).visits && NewSource(After(c, g, events), source)
    requires ts != "" && nonce != "" && c.mac("k", Frame(ts, nonce, "")) != ""
    requires ParseInt(ts).Some? && WithinSkew(now, ParseInt(ts).value)
    ensures WellTimed(c, g, next, tick, d) && EndsBy(next, now)
    ensures var h, h' := After(c, g, events), After(c, g, next);
      && h'.visits == h.visits[v := Visit(Signed(c, ts, nonce, source), now, Admitted)] && h'.nonces == h.nonces
      && h'.preauth.buckets.Keys <= h.preauth.buckets.Keys + {SourceKey(source)}
  {
    var r := Signed(c, ts, nonce, source);
    TimedOneMore(c, g, events, Arrive(v, r, now), tick, d);
    next := events + [Arrive(v, r, now)];
    TimedOneMore(c, g, next, Throttle(v, now), tick, d);
    next := next + [Throttle(v, now)];
    Enters(c, After(c, g, events), v, ts, nonce, source, now);
  }

  lemma ThenConclude(c: Config, g: GateState, events: seq<Event>, v: nat, ts: string, nonce: string, source: string, now: int, at: int, tick: int, d: int)
    returns (next: seq<Event>)
    requires tick > 0 && WellTimed(c, g, events, tick, d) && EndsBy(events, at) && at <= now + d
    requires var h := After(c, g, events);
      && v in h.visits && h.visits[v] == Visit(Signed(c, ts, nonce, source), now, Admitted)
      && nonce !in NonceCache.Collected(c.ttl, h.nonces, now).seen
    ensures WellTimed(c, g, next, tick, d) && EndsBy(next, at)
    ensures var h, h' := After(c, g, events), After(c, g, next);
      && h'.visits == h.visits[v := Visit(Signed(c, ts, nonce, source), now, Answered(Passed))]
      && h'.nonces == NonceCache.Seen(c.ttl, h.nonces, nonce, now).0 && h'.preauth == h.preauth
  {
    TimedOneMore(c, g, events, Finish(v, SECRETS, at), tick, d);
    next := events + [Finish(v, SECRETS, at)];
    Concludes(c, After(c, g, events), v, ts, nonce, source, now, at);
  }

  lemma SumMod(a: int, b: int, tick: int)
    requires tick > 0 && a % tick == 0 && b % tick == 0
    ensures (a + b) % tick == 0 && (a - b) % tick == 0
  {
    var i, j := a / tick, b / tick;
    assert a + b == (i + j) * tick && a - b == (i - j) * tick;
    MultipleMod(i + j, tick);
    MultipleMod(i - j, tick);
  }

  /** The three clock readings of the late pair and the visit between them. */
  lemma LateTimes(tick: int, d: nat)
    requires tick > 0 && NANOS_PER_SECOND % tick == 0 && d % tick == 0
    requires SaneClock(LATE_TIME + LongestGap(tick) + d)
    ensures var t2 := LATE_TIME + LongestGap(tick);
      && LATE_TIME % tick == 0 && t2 % tick == 0 && (t2 + d) % tick == 0
      && LATE_TIME <= t2 && SaneClock(LATE_TIME) && SaneClock(t2)
      && UnixSeconds(LATE_TIME) == 1_000_000 && UnixSeconds(t2) == 1_000_600
  {
    SecondsDivide(tick, 1_000_000);
    SecondsDivide(tick, 601);
    SumMod(601 * NANOS_PER_SECOND, tick, tick);
    SumMod(LATE_TIME, LongestGap(tick), tick);
    SumMod(LATE_TIME + LongestGap(tick), d, tick);
    assert tick <= NANOS_PER_SECOND;
  }

  const EMPTY_GATE := GateState(TokenBucket.EMPTY, NonceCache.EMPTY, map[])

  /**
   The first copy passes; a second copy reads its clock at the last accepting moment and then
   stalls for d; a third visit, reading its clock at the end of the stall, collects the nonce;
   and the second copy passes.
   */
  lemma LatePairPassesTwice(c: Config, tick: int, d: nat)
    requires tick > 0 && NANOS_PER_SECOND % tick == 0 && d % tick == 0
    requires forall secret, message :: c.mac(secret, message) != ""
    requires SaneClock(LATE_TIME + LongestGap(tick) + d) && c.ttl < LongestGap(tick) + d
    ensures !SingleUse(c, tick, d)
  {
    LateTimes(tick, d);
    var t2 := LATE_TIME + LongestGap(tick);
    var ts := Stamp(1_000_300);
    var ts3 := Stamp(UnixSeconds(t2 + d));
    SkewIsExact(LATE_TIME, 1_000_300);
    SkewIsExact(t2, 1_000_300);
    SkewIsExact(t2 + d, UnixSeconds(t2 + d));
    var events := LateRun(c, tick, d, t2, ts, ts3);
    TwoPasses(c, tick, d, events);
  }

  lemma TwoPasses(c: Config, tick: int, d: nat, events: seq<Event>)
    requires tick > 0 && WellTimed(c, EMPTY_GATE, events, tick, d)
    requires var h := After(c, EMPTY_GATE, events); HasPassed(h, 0) && HasPassed(h, 1) && SamePair(h, 0, 1)
    ensures !SingleUse(c, tick, d)
  {}

  lemma LateRun(c: Config, tick: int, d: nat, t2: int, ts: string, ts3: string) returns (events: seq<Event>)
    requires tick > 0 && LATE_TIME % tick == 0 && t2 % tick == 0 && (t2 + d) % tick == 0
    requires LATE_TIME <= t2 && SaneClock(LATE_TIME) && SaneClock(t2) && SaneClock(t2 + d)
    requires forall secret, message :: c.mac(secret, message) != ""
    requires ts != "" && ParseInt(ts).Some? && WithinSkew(LATE_TIME, ParseInt(ts).value) && WithinSkew(t2, ParseInt(ts).value)
    requires ts3 != "" && ParseInt(ts3).Some? && WithinSkew(t2 + d, ParseInt(ts3).value)
    requires c.ttl < t2 + d - LATE_TIME
    ensures WellTimed(c, EMPTY_GATE, events, tick, d)
    ensures var h := After(c, EMPTY_GATE, events);
      && 0 in h.visits && h.visits[0] == Visit(Signed(c, ts, "n", "a"), LATE_TIME, Answered(Passed))
      && 1 in h.visits && h.visits[1] == Visit(Signed(c, ts, "n", "b"), t2, Answered(Passed))
  {
    var g := EMPTY_GATE;
    events := FirstPass(c, tick, d, ts);
    SourcesDiffer();
    events := ThenEnter(c, g, events, 1, ts, "n", "b", t2, tick, d);
    events := ThenEnter(c, g, events, 2, ts3, "x", "c", t2 + d, tick, d);
    events := LateFinish(c, tick, d, t2, ts, ts3, events);
  }

  /** The third visit collects the nonce, and the second copy passes. */
  lemma LateFinish(c: Config, tick: int, d: nat, t2: int, ts: string, ts3: string, entered: seq<Event>) returns (events: seq<Event>)
    requires tick > 0 && WellTimed(c, EMPTY_GATE, entered, tick, d) && EndsBy(entered, t2 + d) && c.ttl < t2 + d - LATE_TIME
    requires After(c, EMPTY_GATE, entered).nonces == NonceCache.CacheState(map["n" := LATE_TIME], Some(LATE_TIME))
    requires After(c, EMPTY_GATE, entered).visits == map[
      0 := Visit(Signed(c, ts, "n", "a"), LATE_TIME, Answered(Passed)),
      1 := Visit(Signed(c, ts, "n", "b"), t2, Admitted),
      2 := Visit(Signed(c, ts3, "x", "c"), t2 + d, Admitted)]
    ensures WellTimed(c, EMPTY_GATE, events, tick, d)
    ensures var h := After(c, EMPTY_GATE, events);
      && 0 in h.visits && h.visits[0] == Visit(Signed(c, ts, "n", "a"), LATE_TIME, Answered(Passed))
      && 1 in h.visits && h.visits[1] == Visit(Signed(c, ts, "n", "b"), t2, Answered(Passed))
  {
    CollectsStale(c.ttl, "n", LATE_TIME, "x", t2 + d);
    events := ThenConclude(c, EMPTY_GATE, entered, 2, ts3, "x", "c", t2 + d, t2 + d, tick, d);
    events := ThenConclude(c, EMPTY_GATE, events, 1, ts, "n", "b", t2, t2 + d, tick, d);
  }

  lemma FirstPass(c: Config, tick: int, d: nat, ts: string) returns (events: seq<Event>)
    requires tick > 0 && LATE_TIME % tick == 0 && SaneClock(LATE_TIME)
    requires forall secret, message :: c.mac(secret, message) != ""
    requires ts != "" && ParseInt(ts).Some? && WithinSkew(LATE_TIME, ParseInt(ts).value)
    ensures WellTimed(c, EMPTY_GATE, events, tick, d) && EndsBy(events, LATE_TIME)
    ensures var h := After(c, EMPTY_GATE, events);
      && h.visits == map[0 := Visit(Signed(c, ts, "n", "a"), LATE_TIME, Answered(Passed))]
      && h.nonces == NonceCache.CacheState(map["n" := LATE_TIME], Some(LATE_TIME))
      && h.preauth.buckets.Keys <= {SourceKey("a")}
  {
    events := ThenEnter(c, EMPTY_GATE, [], 0, ts, "n", "a", LATE_TIME, tick, d);
    events := ThenConclude(c, EMPTY_GATE, events, 0, ts, "n", "a", LATE_TIME, LATE_TIME, tick, d);
  }

  /** A use long enough after another collects it. */
  lemma CollectsStale(ttl: int, nonce: string, t: int, other: string, now: int)
    requires now - t > ttl && other != nonce
    ensures var cache := NonceCache.CacheState(map[nonce := t], Some(t));
      && NonceCache.Collected(ttl, cache, now).seen == map[]
      && NonceCache.Seen(ttl, cache, other, now).0 == NonceCache.CacheState(map[other := now], Some(now))
  {}

  lemma SourcesDiffer()
    ensures SourceKey("a") != SourceKey("b") && SourceKey("a") != SourceKey("c") && SourceKey("b") != SourceKey("c")
  {
    assert SourceKey("a")[8] == 'a' && SourceKey("b")[8] == 'b' && SourceKey("c")[8] == 'c';
  }
}
