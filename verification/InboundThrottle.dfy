/**
 The three-key throttle in front of matching (verify/service.go): an inbound has to be
 allowed on its device, on its number and on its sender, in that order.
 */
module InboundThrottle {
  import opened Wrappers
  import opened TokenBucket

  function DeviceKey(device: string): string { "inbound-dev:" + device }

  function NumberKey(number: string): string { "inbound-num:" + number }

  function SenderKey(sender: string): string { "inbound:" + sender }

  /** The key families never meet, and within one family the identity can be read back. */
  lemma KeyFamiliesAreDisjoint(x: string, y: string)
    ensures DeviceKey(x) != NumberKey(y) && DeviceKey(x) != SenderKey(y) && NumberKey(x) != SenderKey(y)
    ensures DeviceKey(x) == DeviceKey(y) ==> x == y
    ensures NumberKey(x) == NumberKey(y) ==> x == y
    ensures SenderKey(x) == SenderKey(y) ==> x == y
  {
    assert DeviceKey(x)[8] == 'd' && NumberKey(y)[8] == 'n' && NumberKey(x)[8] == 'n';
    assert DeviceKey(x)[7] == '-' && NumberKey(x)[7] == '-' && SenderKey(y)[7] == ':';
    assert DeviceKey(x)[12..] == x && DeviceKey(y)[12..] == y;
    assert NumberKey(x)[12..] == x && NumberKey(y)[12..] == y;
    assert SenderKey(x)[8..] == x && SenderKey(y)[8..] == y;
  }

  datatype Request = Request(device: string, number: string, sender: string)

  /** The short-circuit guard of Inbound: later keys are charged only if the earlier ones allow. */
  method Admit(limiter: Limiter, r: Request, now: real) returns (ok: bool)
    modifies limiter
    ensures
      var p := limiter.p;
      var (l1, ok1) := Allow(p, old(limiter.State()), DeviceKey(r.device), now);
      var (l2, ok2) := Allow(p, l1, NumberKey(r.number), now);
      var (l3, ok3) := Allow(p, l2, SenderKey(r.sender), now);
      && ok == (ok1 && ok2 && ok3)
      && limiter.State() == if !ok1 then l1 else if !ok2 then l2 else l3
  {
    ok := limiter.AllowKey(DeviceKey(r.device), now);
    if ok {
      ok := limiter.AllowKey(NumberKey(r.number), now);
      if ok {
        ok := limiter.AllowKey(SenderKey(r.sender), now);
      }
    }
  }

  // ---------------------------------------------------------------- interleaved requests

  /** One Allow call of one request; probes of different requests interleave freely. */
  datatype Probe = Probe(request: nat, call: Call)

  function Calls(probes: seq<Probe>): (calls: seq<Call>)
    ensures |calls| == |probes|
    ensures forall i | 0 <= i < |probes| :: calls[i] == probes[i].call
  {
    if probes == [] then [] else [probes[0].call] + Calls(probes[1..])
  }

  ghost predicate Allowed(p: Params, l: LimiterState, probes: seq<Probe>, i: nat, request: nat, key: string) {
    && i < |probes|
    && probes[i].request == request && probes[i].call.key == key
    && Answers(p, l, Calls(probes))[i]
  }

  /** The request was allowed on all three of its keys, the first two at times in [a, b]. */
  ghost predicate ReachesMatching(p: Params, l: LimiterState, probes: seq<Probe>, request: nat, r: Request, a: real, b: real) {
    && (exists i: nat :: Allowed(p, l, probes, i, request, DeviceKey(r.device)) && a <= probes[i].call.at <= b)
    && (exists i: nat :: Allowed(p, l, probes, i, request, NumberKey(r.number)) && a <= probes[i].call.at <= b)
    && (exists i: nat :: Allowed(p, l, probes, i, request, SenderKey(r.sender)))
  }

  ghost function AllowedAt(p: Params, l: LimiterState, calls: seq<Call>, key: string, a: real, b: real): set<nat> {
    set i: nat | i < |calls| && Answers(p, l, calls)[i] && calls[i].key == key && a <= calls[i].at <= b
  }

  lemma AllowedAtTail(p: Params, l: LimiterState, calls: seq<Call>, key: string, a: real, b: real)
    requires calls != []
    ensures
      var (l', ok) := Allow(p, l, calls[0].key, calls[0].at);
      var rest := AllowedAt(p, l', calls[1..], key, a, b);
      var whole := AllowedAt(p, l, calls, key, a, b);
      && (0 in whole <==> ok && calls[0].key == key && a <= calls[0].at <= b)
      && forall i: nat | i > 0 :: i in whole <==> i - 1 in rest
  {
    var l' := Allow(p, l, calls[0].key, calls[0].at).0;
    assert forall i | 0 < i < |calls| :: Answers(p, l, calls)[i] == Answers(p, l', calls[1..])[i - 1];
  }

  lemma ShiftedSetSize(whole: set<nat>, rest: set<nat>)
    requires forall i: nat | i > 0 :: i in whole <==> i - 1 in rest
    ensures |whole| == |rest| + if 0 in whole then 1 else 0
  {
    var shifted := whole - {0};
    assert forall i | i in rest :: i + 1 in shifted by {
      forall i | i in rest ensures i + 1 in shifted { assert (i + 1) - 1 in rest; }
    }
    InjectionBound(shifted, rest, (i: nat) requires i > 0 => i - 1);
    InjectionBound(rest, shifted, (i: nat) => i + 1);
  }

  lemma {:induction false} CountAllowed(p: Params, l: LimiterState, calls: seq<Call>, key: string, a: real, b: real)
    ensures |AllowedAt(p, l, calls, key, a, b)| == AllowedIn(p, l, calls, key, a, b)
    decreases |calls|
  {
    if calls != [] {
      var l' := Allow(p, l, calls[0].key, calls[0].at).0;
      CountAllowed(p, l', calls[1..], key, a, b);
      AllowedAtTail(p, l, calls, key, a, b);
      ShiftedSetSize(AllowedAt(p, l, calls, key, a, b), AllowedAt(p, l', calls[1..], key, a, b));
    }
  }

  /** However senders vary, one device gets at most burst + rate * (b - a) inbounds through to matching. */
  lemma DeviceThroughput(p: Params, l: LimiterState, probes: seq<Probe>, requests: map<nat, Request>, device: string,
                         admitted: set<nat>, a: real, b: real, now: real)
    requires Sound(p, l, now) && Ordered(Calls(probes), now) && a <= b
    requires admitted <= requests.Keys
    requires forall id | id in admitted ::
               requests[id].device == device && ReachesMatching(p, l, probes, id, requests[id], a, b)
    ensures |admitted| as real <= p.burst + (b - a) * p.rate
  {
    KeyThroughput(p, l, probes, DeviceKey(device), admitted, a, b, now);
  }

  /** The same for one receiving number, whatever devices or senders report it. */
  lemma NumberThroughput(p: Params, l: LimiterState, probes: seq<Probe>, requests: map<nat, Request>, number: string,
                         admitted: set<nat>, a: real, b: real, now: real)
    requires Sound(p, l, now) && Ordered(Calls(probes), now) && a <= b
    requires admitted <= requests.Keys
    requires forall id | id in admitted ::
               requests[id].number == number && ReachesMatching(p, l, probes, id, requests[id], a, b)
    ensures |admitted| as real <= p.burst + (b - a) * p.rate
  {
    KeyThroughput(p, l, probes, NumberKey(number), admitted, a, b, now);
  }

  lemma KeyThroughput(p: Params, l: LimiterState, probes: seq<Probe>, key: string, admitted: set<nat>, a: real, b: real, now: real)
    requires Sound(p, l, now) && Ordered(Calls(probes), now) && a <= b
    requires forall id | id in admitted ::
               exists i: nat :: Allowed(p, l, probes, i, id, key) && a <= probes[i].call.at <= b
    ensures |admitted| as real <= p.burst + (b - a) * p.rate
  {
    var slots := AllowedAt(p, l, Calls(probes), key, a, b);
    var slot: map<nat, nat> := map id | id in admitted ::
      var i: nat :| Allowed(p, l, probes, i, id, key) && a <= probes[i].call.at <= b; i;
    assert forall id | id in admitted :: probes[slot[id]].request == id;
    InjectionBound(admitted, slots, id requires id in slot => slot[id]);
    CountAllowed(p, l, Calls(probes), key, a, b);
    WindowBound(p, l, Calls(probes), key, a, b, now);
  }
}
