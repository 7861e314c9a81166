/**
 Who gets past device authentication (deviceapi/deviceapi.go Auth): a visit passes exactly if its
 headers are there, its timestamp is within five minutes, the throttle admits it, its signature
 is the MAC of the device's secret over timestamp, nonce and body, and its nonce has not passed
 within the TTL. Every other answer names the first of these that fails.
 */
module DevicePass {
  import opened Wrappers
  import opened DeviceAuth
  import NonceCache
  import TokenBucket

  function At(c: Config, g: GateState, events: seq<Event>, i: nat): GateState
    requires i <= |events|
  {
    After(c, g, events[..i])
  }

  // ---------------------------------------------------------------- what a visit shows

  predicate HasHeaders(r: Request) { r.id != "" && r.ts != "" && r.nonce != "" && r.sig != "" }

  /** The timestamp is a number of seconds at most five minutes from the clock reading. */
  predicate IsTimely(r: Request, now: int) {
    ParseInt(r.ts).Some? && -300 <= now / 1_000_000_000 - ParseInt(r.ts).value <= 300
  }

  /** The signature is the device's own over exactly this timestamp, nonce and body. */
  predicate IsSigned(mac: Mac, secrets: map<string, string>, r: Request) {
    && r.body.Some? && r.id in secrets
    && r.sig == mac(secrets[r.id], r.ts + "\n" + r.nonce + "\n" + r.body.value)
  }

  /** In step i visit v asks the throttle. */
  ghost predicate ThrottledAt(c: Config, g: GateState, events: seq<Event>, v: nat, i: nat, ok: bool) {
    && i < |events| && events[i].Throttle? && events[i].v == v
    && var s := At(c, g, events, i);
       && v in s.visits && s.visits[v].stage.Arrived?
       && ok == TokenBucket.Allow(c.preauth, s.preauth, "devauth:" + s.visits[v].request.source, events[i].at as real / 1_000_000_000.0).1
  }

  /** In step i visit v, admitted, comes to its credentials. */
  ghost predicate ConcludesAt(c: Config, g: GateState, events: seq<Event>, v: nat, i: nat) {
    && i < |events| && events[i].Finish? && events[i].v == v
    && v in At(c, g, events, i).visits && At(c, g, events, i).visits[v].stage.Admitted?
  }

  /** The cache holds a use of the visit's nonce that is not older than the TTL. */
  ghost predicate NonceUsed(c: Config, s: GateState, x: Visit) {
    x.request.nonce in s.nonces.seen && x.now - s.nonces.seen[x.request.nonce] <= c.ttl
  }

  /** The answer at the last step, by what the visit shows there. */
  ghost function Verdict(c: Config, s: GateState, x: Visit, secrets: map<string, string>): Outcome {
    if x.request.body.None? then TooLarge
    else if !IsSigned(c.mac, secrets, x.request) then BadCredentials
    else if NonceUsed(c, s, x) then Replayed
    else Passed
  }

  ghost predicate Throttled(c: Config, g: GateState, events: seq<Event>, v: nat, ok: bool) {
    exists i: nat :: ThrottledAt(c, g, events, v, i, ok)
  }

  /** Some step of the visit comes to its credentials and finds the answer o. */
  ghost predicate Concluded(c: Config, g: GateState, events: seq<Event>, v: nat, o: Outcome) {
    exists i: nat :: ConcludesAt(c, g, events, v, i)
      && o == Verdict(c, At(c, g, events, i), At(c, g, events, i).visits[v], events[i].secrets)
  }

  predicate OpensWell(x: Visit) { HasHeaders(x.request) && IsTimely(x.request, x.now) }

  predicate IsConclusion(o: Outcome) { o == TooLarge || o == BadCredentials || o == Replayed || o == Passed }

  /** What has brought a visit where it is. */
  ghost predicate Explained(c: Config, g: GateState, events: seq<Event>, v: nat, x: Visit) {
    SaneClock(x.now) ==>
      match x.stage
      case Arrived => OpensWell(x)
      case Admitted => OpensWell(x) && Throttled(c, g, events, v, true)
      case Answered(o) =>
        && (o == MissingHeaders <==> !HasHeaders(x.request))
        && (o == BadTimestamp <==> HasHeaders(x.request) && ParseInt(x.request.ts).None?)
        && (o == Skewed <==> HasHeaders(x.request) && ParseInt(x.request.ts).Some? && !IsTimely(x.request, x.now))
        && (o == DeviceAuth.RateLimited ==> Throttled(c, g, events, v, false))
        && (IsConclusion(o) ==> Throttled(c, g, events, v, true) && Concluded(c, g, events, v, o))
  }

  ghost predicate AllExplained(c: Config, g: GateState, events: seq<Event>) {
    var s := After(c, g, events);
    forall v | v in s.visits :: Explained(c, g, events, v, s.visits[v])
  }

  // ---------------------------------------------------------------- steps

  lemma Ends(c: Config, g: GateState, events: seq<Event>, e: Event)
    ensures After(c, g, events + [e]) == Step(c, After(c, g, events), e)
    ensures At(c, g, events + [e], |events|) == After(c, g, events)
    ensures forall i: nat | i < |events| :: At(c, g, events + [e], i) == At(c, g, events, i)
  {
    AfterOneMore(c, g, events, e);
    assert (events + [e])[..|events|] == events;
    forall i: nat | i < |events|
      ensures At(c, g, events + [e], i) == At(c, g, events, i)
    {
      assert (events + [e])[..i] == events[..i];
    }
  }

  lemma ExplainedLater(c: Config, g: GateState, events: seq<Event>, e: Event, v: nat, x: Visit)
    requires Explained(c, g, events, v, x)
    ensures Explained(c, g, events + [e], v, x)
  {
    Ends(c, g, events, e);
    forall ok | Throttled(c, g, events, v, ok)
      ensures Throttled(c, g, events + [e], v, ok)
    {
      var i: nat :| ThrottledAt(c, g, events, v, i, ok);
      assert ThrottledAt(c, g, events + [e], v, i, ok);
    }
    forall o | Concluded(c, g, events, v, o)
      ensures Concluded(c, g, events + [e], v, o)
    {
      var i: nat :| ConcludesAt(c, g, events, v, i)
        && o == Verdict(c, At(c, g, events, i), At(c, g, events, i).visits[v], events[i].secrets);
      assert ConcludesAt(c, g, events + [e], v, i);
    }
  }

  /** The checks before the throttle. */
  lemma OpeningMeans(r: Request, now: int)
    requires SaneClock(now)
    ensures Opening(r, now) ==
      if !HasHeaders(r) then Answered(MissingHeaders)
      else if ParseInt(r.ts).None? then Answered(BadTimestamp)
      else if !IsTimely(r, now) then Answered(Skewed)
      else Arrived
  {
    if ParseInt(r.ts).Some? { SkewIsExact(now, ParseInt(r.ts).value); }
  }

  /** The cache's collection drops only uses that no longer count. */
  lemma FinishMeans(c: Config, s: GateState, v: nat, secrets: map<string, string>, at: int)
    requires v in s.visits && s.visits[v].stage.Admitted?
    ensures var s' := Step(c, s, Finish(v, secrets, at));
      v in s'.visits && s'.visits[v] == s.visits[v].(stage := Answered(Verdict(c, s, s.visits[v], secrets)))
  {
    var r := s.visits[v].request;
    if r.body.Some? { assert Frame(r.ts, r.nonce, r.body.value) == r.ts + "\n" + r.nonce + "\n" + r.body.value; }
  }

  lemma OwnMove(c: Config, g: GateState, events: seq<Event>, e: Event)
    requires AllExplained(c, g, events)
    ensures e.v in After(c, g, events + [e]).visits ==> Explained(c, g, events + [e], e.v, After(c, g, events + [e]).visits[e.v])
  {
    var s, now := After(c, g, events), events + [e];
    Ends(c, g, events, e);
    if e.v in s.visits { ExplainedLater(c, g, events, e, e.v, s.visits[e.v]); }
    match e {
      case Arrive(v, r, reading) => if v !in s.visits && SaneClock(reading) { OpeningMeans(r, reading); }
      case Throttle(v, at) =>
        if v in s.visits && s.visits[v].stage.Arrived? {
          assert ThrottledAt(c, g, now, v, |events|, TokenBucket.Allow(c.preauth, s.preauth, SourceKey(s.visits[v].request.source), Seconds(at)).1);
        }
      case Finish(v, secrets, at) =>
        if v in s.visits && s.visits[v].stage.Admitted? {
          FinishMeans(c, s, v, secrets, at);
          assert ConcludesAt(c, g, now, v, |events|);
        }
    }
  }

  lemma OthersStay(c: Config, s: GateState, e: Event, v: nat)
    requires v != e.v
    ensures v in Step(c, s, e).visits <==> v in s.visits
    ensures v in s.visits ==> Step(c, s, e).visits[v] == s.visits[v]
  {}

  lemma {:induction false} RunsAreExplained(c: Config, g: GateState, events: seq<Event>)
    requires g.visits == map[]
    ensures AllExplained(c, g, events)
  {
    if events != [] {
      var before, e := events[..|events| - 1], events[|events| - 1];
      assert before + [e] == events;
      RunsAreExplained(c, g, before);
      Ends(c, g, before, e);
      OwnMove(c, g, before, e);
      forall v | v in After(c, g, events).visits && v != e.v
        ensures Explained(c, g, events, v, After(c, g, events).visits[v])
      {
        OthersStay(c, After(c, g, before), e, v);
        ExplainedLater(c, g, before, e, v, After(c, g, before).visits[v]);
      }
    }
  }

  // ---------------------------------------------------------------- answers are final

  /** A visit keeps its request and reading, and an answer is the last word. */
  ghost predicate Keeps(x: Visit, x': Visit) {
    x'.request == x.request && x'.now == x.now && (x.stage.Answered? ==> x' == x) && (x.stage.Admitted? ==> !x'.stage.Arrived?)
  }

  lemma {:induction false} KeptSince(c: Config, g: GateState, events: seq<Event>, i: nat, v: nat)
    requires i <= |events| && v in At(c, g, events, i).visits
    ensures v in After(c, g, events).visits && Keeps(At(c, g, events, i).visits[v], After(c, g, events).visits[v])
    decreases |events|
  {
    assert events[..|events|] == events;
    if i < |events| {
      var before, e := events[..|events| - 1], events[|events| - 1];
      assert before + [e] == events && before[..i] == events[..i];
      KeptSince(c, g, before, i, v);
      Ends(c, g, before, e);
      if e.v != v { OthersStay(c, After(c, g, before), e, v); }
    }
  }

  lemma Next(c: Config, g: GateState, events: seq<Event>, i: nat)
    requires i < |events|
    ensures At(c, g, events, i + 1) == Step(c, At(c, g, events, i), events[i])
  {
    assert events[..i + 1][..i] == events[..i];
  }

  lemma ConclusionIsFinal(c: Config, g: GateState, events: seq<Event>, v: nat, o: Outcome)
    requires Concluded(c, g, events, v, o)
    ensures v in After(c, g, events).visits && After(c, g, events).visits[v].stage == Answered(o)
  {
    var i: nat :| ConcludesAt(c, g, events, v, i)
      && o == Verdict(c, At(c, g, events, i), At(c, g, events, i).visits[v], events[i].secrets);
    Next(c, g, events, i);
    FinishMeans(c, At(c, g, events, i), v, events[i].secrets, events[i].at);
    KeptSince(c, g, events, i + 1, v);
  }

  lemma ThrottleLeads(c: Config, g: GateState, events: seq<Event>, v: nat, i: nat, ok: bool)
    requires ThrottledAt(c, g, events, v, i, ok)
    ensures v in At(c, g, events, i + 1).visits
    ensures At(c, g, events, i + 1).visits[v].stage == if ok then Admitted else Answered(DeviceAuth.RateLimited)
  {
    Next(c, g, events, i);
    assert SourceKey(At(c, g, events, i).visits[v].request.source) == "devauth:" + At(c, g, events, i).visits[v].request.source;
  }

  lemma RefusalIsFinal(c: Config, g: GateState, events: seq<Event>, v: nat)
    requires Throttled(c, g, events, v, false)
    ensures v in After(c, g, events).visits && After(c, g, events).visits[v].stage == Answered(DeviceAuth.RateLimited)
  {
    var i: nat :| ThrottledAt(c, g, events, v, i, false);
    ThrottleLeads(c, g, events, v, i, false);
    KeptSince(c, g, events, i + 1, v);
  }

  // ---------------------------------------------------------------- main results

  ghost predicate IsAnswered(c: Config, g: GateState, events: seq<Event>, v: nat, o: Outcome) {
    v in After(c, g, events).visits && After(c, g, events).visits[v].stage == Answered(o)
  }

  /**
   Each answer is given exactly for its reason: the three refusals at the door by the headers and
   the clock reading, the fourth by the throttle's bucket, and the rest by what the body, the
   signature and the nonce cache showed at the visit's last step.
   */
  lemma AnswersExactly(c: Config, g: GateState, events: seq<Event>, v: nat, o: Outcome)
    requires g.visits == map[] && IsAnswered(c, g, events, v, o) && SaneClock(After(c, g, events).visits[v].now)
    ensures var x := After(c, g, events).visits[v];
      && (o == MissingHeaders <==> !HasHeaders(x.request))
      && (o == BadTimestamp <==> HasHeaders(x.request) && ParseInt(x.request.ts).None?)
      && (o == Skewed <==> HasHeaders(x.request) && ParseInt(x.request.ts).Some? && !IsTimely(x.request, x.now))
      && (o == DeviceAuth.RateLimited <==> Throttled(c, g, events, v, false))
      && (IsConclusion(o) <==> Throttled(c, g, events, v, true))
    ensures forall u | IsConclusion(u) :: o == u <==> Concluded(c, g, events, v, u)
  {
    RunsAreExplained(c, g, events);
    if Throttled(c, g, events, v, false) { RefusalIsFinal(c, g, events, v); }
    if Throttled(c, g, events, v, true) { AdmissionConcludes(c, g, events, v); }
    forall u | Concluded(c, g, events, v, u)
      ensures u == o
    {
      ConclusionIsFinal(c, g, events, v, u);
    }
  }

  /** Once admitted, a visit is answered by its conclusion. */
  lemma AdmissionConcludes(c: Config, g: GateState, events: seq<Event>, v: nat)
    requires Throttled(c, g, events, v, true)
    ensures v in After(c, g, events).visits
    ensures After(c, g, events).visits[v].stage.Answered? ==> IsConclusion(After(c, g, events).visits[v].stage.out)
  {
    var i: nat :| ThrottledAt(c, g, events, v, i, true);
    ThrottleLeads(c, g, events, v, i, true);
    AdmittedSince(c, g, events, i + 1, v);
  }

  lemma {:induction false} AdmittedSince(c: Config, g: GateState, events: seq<Event>, i: nat, v: nat)
    requires i <= |events| && v in At(c, g, events, i).visits && At(c, g, events, i).visits[v].stage.Admitted?
    ensures v in After(c, g, events).visits
    ensures var x := After(c, g, events).visits[v]; x.stage.Admitted? || (x.stage.Answered? && IsConclusion(x.stage.out))
    decreases |events|
  {
    assert events[..|events|] == events;
    if i < |events| {
      var before, e := events[..|events| - 1], events[|events| - 1];
      assert before + [e] == events && before[..i] == events[..i];
      AdmittedSince(c, g, before, i, v);
      Ends(c, g, before, e);
      if e.v != v { OthersStay(c, After(c, g, before), e, v); }
    }
  }

  /**
   A pass proves possession of the secret: the visit showed all four headers, a timestamp within
   300 seconds of its clock reading, and the device's own signature on it, as the row looked up
   after the throttle had admitted it says.
   */
  lemma PassedMeansSigned(c: Config, g: GateState, events: seq<Event>, v: nat)
    requires g.visits == map[] && HasPassed(After(c, g, events), v) && SaneClock(After(c, g, events).visits[v].now)
    ensures var x := After(c, g, events).visits[v];
      && HasHeaders(x.request) && IsTimely(x.request, x.now) && Throttled(c, g, events, v, true)
      && exists i: nat :: ConcludesAt(c, g, events, v, i) && IsSigned(c.mac, events[i].secrets, x.request)
  {
    AnswersExactly(c, g, events, v, Passed);
    var i: nat :| ConcludesAt(c, g, events, v, i)
      && Passed == Verdict(c, At(c, g, events, i), At(c, g, events, i).visits[v], events[i].secrets);
    KeptSince(c, g, events, i, v);
    assert IsSigned(c.mac, events[i].secrets, After(c, g, events).visits[v].request);
  }

  /** What the cache remembers are passes. */
  ghost predicate CacheHoldsPasses(s: GateState) {
    forall n | n in s.nonces.seen ::
      exists w :: HasPassed(s, w) && s.visits[w].request.nonce == n && s.visits[w].now == s.nonces.seen[n]
  }

  lemma CacheStep(c: Config, s: GateState, e: Event)
    requires CacheHoldsPasses(s)
    ensures CacheHoldsPasses(Step(c, s, e))
  {
    var s' := Step(c, s, e);
    forall n | n in s'.nonces.seen
      ensures exists w :: HasPassed(s', w) && s'.visits[w].request.nonce == n && s'.visits[w].now == s'.nonces.seen[n]
    {
      if n in s.nonces.seen && s'.nonces.seen[n] == s.nonces.seen[n] {
        var w :| HasPassed(s, w) && s.visits[w].request.nonce == n && s.visits[w].now == s.nonces.seen[n];
        assert HasPassed(s', w);
      } else {
        assert HasPassed(s', e.v);
      }
    }
  }

  lemma {:induction false} CacheIsPasses(c: Config, g: GateState, events: seq<Event>)
    requires g.nonces == NonceCache.EMPTY
    ensures CacheHoldsPasses(After(c, g, events))
  {
    if events != [] {
      CacheIsPasses(c, g, events[..|events| - 1]);
      CacheStep(c, After(c, g, events[..|events| - 1]), events[|events| - 1]);
    }
  }

  /** No visit that has passed with this nonce did so with a reading less than the TTL before this one's. */
  ghost predicate NonceIsFree(c: Config, s: GateState, x: Visit) {
    forall w | HasPassed(s, w) && s.visits[w].request.nonce == x.request.nonce :: x.now - s.visits[w].now > c.ttl
  }

  /** An admitted visit with its own signature and a free nonce is never turned away. */
  lemma SignedPasses(c: Config, g: GateState, events: seq<Event>, v: nat, i: nat)
    requires g.visits == map[] && g.nonces == NonceCache.EMPTY
    requires ConcludesAt(c, g, events, v, i)
    requires var s := At(c, g, events, i);
      IsSigned(c.mac, events[i].secrets, s.visits[v].request) && NonceIsFree(c, s, s.visits[v])
    ensures HasPassed(After(c, g, events), v)
  {
    CacheIsPasses(c, g, events[..i]);
    var s := At(c, g, events, i);
    assert Verdict(c, s, s.visits[v], events[i].secrets) == Passed;
    ConclusionIsFinal(c, g, events, v, Passed);
  }

  /** Headers and a fitting timestamp are all that the door asks: such a visit arrives at the throttle. */
  lemma TimelyArrives(c: Config, g: GateState, v: nat, r: Request, now: int)
    requires v !in g.visits && SaneClock(now) && HasHeaders(r) && IsTimely(r, now)
    ensures Step(c, g, Arrive(v, r, now)).visits[v] == Visit(r, now, Arrived)
  {
    OpeningMeans(r, now);
  }
}
