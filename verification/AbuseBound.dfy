/**
 The brute-force bound of Abuse is exact (verify/service.go maybeBlock): for every overlap k
 there is a run in which one sender, with at most k inbounds under way, fails 3 + 2k times
 within ten minutes.

 Three attempts fail one after the other. Then k overlap: all are counted before any of them has
 its row, so each sees three rows and none blocks. Then k more overlap: all pass the block check
 and are counted before any of them places its block.
 */
module AbuseBound {
  import opened Wrappers
  import opened Store
  import opened Protocol
  import Abuse
  import Codes

  const SENDER := "x"
  const REPORT := InboundRequest(0, "+100", "sms", SENDER, "")
  const NUMBER := Number(0, "+100", {Sms}, true)
  const ROW := Event(Some(0), "sms", SENDER, "", None, 0)
  const BASE := State(0, Db(map[0 := Device(false)], map[0 := NUMBER], map[], [], []), map[], map[], [], [], {0})

  function Rows(n: nat): seq<Event> { if n == 0 then [] else Rows(n - 1) + [ROW] }

  /** The records are inbounds, and the sender has n rows. */
  function World(n: nat, inbounds: map<Id, InboundThread>): State {
    BASE.(db := BASE.db.(events := Rows(n)), inbounds := inbounds, log := Rows(n))
  }

  // ---------------------------------------------------------------- the records of a batch

  function At(pc: InboundPc): InboundThread { InboundThread(REPORT, 0, None, pc) }

  function Failing(pc: InboundPc): InboundThread { InboundThread(REPORT, 0, Some(0), pc) }

  function Finished(): InboundThread { Failing(InboundDone(Unmatched(NoMatch))) }

  predicate InRange(t: Id, first: nat, count: nat) { first <= t < first + count }

  function Ids(first: nat, count: nat): set<Id> { set t: Id | 0 <= t < first + count && InRange(t, first, count) }

  lemma {:induction false} IdsCount(first: nat, count: nat)
    ensures |Ids(first, count)| == count
  {
    if count > 0 {
      IdsCount(first, count - 1);
      assert Ids(first, count) == Ids(first, count - 1) + {first + count - 1};
    } else {
      assert Ids(first, 0) == {};
    }
  }

  /** done finished requests, then i that have moved on to th', then m - i still at th. */
  function Batch(done: nat, m: nat, i: nat, th: InboundThread, th': InboundThread): map<Id, InboundThread> {
    map t | t in Ids(0, done + m) :: Place(t, done, i, th, th')
  }

  function Place(t: Id, done: nat, i: nat, th: InboundThread, th': InboundThread): InboundThread {
    if t < done then Finished() else if t < done + i then th' else th
  }

  // ---------------------------------------------------------------- one step of one request

  lemma {:induction false} RowsCount(n: nat, since: Millis, unmatchedOnly: bool)
    requires since < 0
    ensures CountBySender(Rows(n), SENDER, since, unmatchedOnly) == n
  {
    if n > 0 {
      RowsCount(n - 1, since, unmatchedOnly);
      Abuse.CountAppend(Rows(n - 1), ROW, SENDER, since, unmatchedOnly);
    }
  }

  /** The step takes any request at th to th', and leaves the rest alone. */
  ghost predicate Takes(cfg: Config, n: nat, th: InboundThread, th': InboundThread, yes: bool, pick: Option<Id>) {
    forall inbounds: map<Id, InboundThread>, t {:trigger Apply(cfg, World(n, inbounds), InboundStep(t, yes, pick))} |
      t in inbounds && inbounds[t] == th ::
      Apply(cfg, World(n, inbounds), InboundStep(t, yes, pick)) == World(n, inbounds[t := th'])
  }

  lemma LooksUp(cfg: Config, n: nat)
    ensures Takes(cfg, n, At(Lookup), At(BlockCheck), true, Some(0))
  {}

  lemma PassesBlockCheck(cfg: Config, n: nat)
    ensures Takes(cfg, n, At(BlockCheck), At(Throttle), true, None)
  {}

  lemma PassesThrottle(cfg: Config, n: nat)
    ensures Takes(cfg, n, At(Throttle), At(Matching), true, None)
  {}

  lemma FindsNothing(cfg: Config, n: nat)
    ensures Takes(cfg, n, At(Matching), At(FailCount(NoMatch)), true, None)
  {
    assert Codes.Strip("") == "" && Codes.ExtractCode("") == "";
    assert TargetOf(0, REPORT).None?;
  }

  lemma IsCounted(cfg: Config, n: nat)
    ensures Takes(cfg, n, At(FailCount(NoMatch)),
                  Failing(if n + 1 >= ABUSE_FAIL_THRESHOLD then AddBlock(NoMatch, 0) else FloodCount(NoMatch, 0)), true, None)
  {
    RowsCount(n, -ABUSE_FAIL_WINDOW, true);
  }

  lemma IsNoFlood(cfg: Config, n: nat)
    requires n + 1 < ABUSE_FLOOD_THRESHOLD
    ensures Takes(cfg, n, Failing(FloodCount(NoMatch, 0)), Failing(Auditing(Unmatched(NoMatch))), true, None)
  {
    RowsCount(n, -ABUSE_FLOOD_WINDOW, false);
  }

  lemma WritesRow(cfg: Config, n: nat, inbounds: map<Id, InboundThread>, t: Id)
    requires t in inbounds && inbounds[t] == Failing(Auditing(Unmatched(NoMatch)))
    ensures Apply(cfg, World(n, inbounds), InboundStep(t, true, None)) == World(n + 1, inbounds[t := Finished()])
  {}

  // ---------------------------------------------------------------- what runs of little overlap preserve

  ghost predicate Preserved(cfg: Config, k: nat, r: State -> bool) {
    && r(INIT)
    && forall s, a {:trigger Apply(cfg, s, a)} |
         r(s) && Abuse.Permitted(cfg, s, a, SENDER) && |Abuse.InFlight(Apply(cfg, s, a), SENDER)| <= k :: r(Apply(cfg, s, a))
  }

  /** All but m requests from done on are finished. */
  ghost predicate FewOpen(inbounds: map<Id, InboundThread>, done: nat, m: nat) {
    forall t | t in inbounds && InboundInFlight(inbounds[t]) :: done <= t < done + m
  }

  lemma BatchOpen(done: nat, m: nat, i: nat, th: InboundThread, th': InboundThread)
    ensures FewOpen(Batch(done, m, i, th, th'), done, m)
  {
    var batch := Batch(done, m, i, th, th');
    assert forall t | t in batch && t < done :: !InboundInFlight(batch[t]);
  }

  lemma Then(cfg: Config, k: nat, r: State -> bool, s: State, a: Action, n: nat, inbounds: map<Id, InboundThread>, done: nat, m: nat)
    requires Preserved(cfg, k, r) && r(s) && Abuse.Permitted(cfg, s, a, SENDER) && Apply(cfg, s, a) == World(n, inbounds)
    requires FewOpen(inbounds, done, m) && m <= k
    ensures r(World(n, inbounds))
  {
    SubsetBound(Abuse.InFlight(World(n, inbounds), SENDER), Ids(done, m));
    IdsCount(done, m);
  }

  lemma ThenTakes(cfg: Config, k: nat, r: State -> bool, n: nat, inbounds: map<Id, InboundThread>, t: Id, done: nat, m: nat,
                  th: InboundThread, th': InboundThread, yes: bool, pick: Option<Id>)
    requires Preserved(cfg, k, r) && r(World(n, inbounds)) && m <= k && Takes(cfg, n, th, th', yes, pick) && !th.pc.Auditing?
    requires t in inbounds && inbounds[t] == th && FewOpen(inbounds[t := th'], done, m)
    ensures r(World(n, inbounds[t := th']))
  {
    assert Apply(cfg, World(n, inbounds), InboundStep(t, yes, pick)) == World(n, inbounds[t := th']);
    Then(cfg, k, r, World(n, inbounds), InboundStep(t, yes, pick), n, inbounds[t := th'], done, m);
  }

  lemma ThenBegins(cfg: Config, k: nat, r: State -> bool, n: nat, inbounds: map<Id, InboundThread>, t: Id, done: nat, m: nat)
    requires Preserved(cfg, k, r) && r(World(n, inbounds)) && m <= k
    requires t !in inbounds && FewOpen(inbounds[t := At(Lookup)], done, m)
    ensures r(World(n, inbounds[t := At(Lookup)]))
  {
    Then(cfg, k, r, World(n, inbounds), BeginInbound(t, REPORT), n, inbounds[t := At(Lookup)], done, m);
  }

  lemma ThenAudits(cfg: Config, k: nat, r: State -> bool, n: nat, inbounds: map<Id, InboundThread>, t: Id, done: nat, m: nat)
    requires Preserved(cfg, k, r) && r(World(n, inbounds)) && m <= k
    requires t in inbounds && inbounds[t] == Failing(Auditing(Unmatched(NoMatch))) && FewOpen(inbounds[t := Finished()], done, m)
    ensures r(World(n + 1, inbounds[t := Finished()]))
  {
    WritesRow(cfg, n, inbounds, t);
    Then(cfg, k, r, World(n, inbounds), InboundStep(t, true, None), n + 1, inbounds[t := Finished()], done, m);
  }

  lemma BatchMoves(done: nat, m: nat, i: nat, th: InboundThread, th': InboundThread)
    requires 0 < i <= m
    ensures var before, t := Batch(done, m, i - 1, th, th'), done + i - 1;
      t in before && before[t] == th && before[t := th'] == Batch(done, m, i, th, th')
  {}

  lemma BatchGrows(done: nat, m: nat, th: InboundThread, th': InboundThread)
    requires 0 < m
    ensures done + m - 1 !in Batch(done, m - 1, 0, th, th')
    ensures Batch(done, m - 1, 0, th, th')[done + m - 1 := th] == Batch(done, m, 0, th, th')
  {
    var before, after, t: Id := Batch(done, m - 1, 0, th, th'), Batch(done, m, 0, th, th'), done + m - 1;
    forall u: Id
      ensures u in after <==> u in before || u == t
    {
      assert u in after <==> u in Ids(0, done + m);
      assert u in before <==> u in Ids(0, done + (m - 1));
    }
    assert forall u | u in before :: before[t := th][u] == after[u];
    assert before[t := th][t] == after[t];
  }

  lemma NextTakes(cfg: Config, k: nat, r: State -> bool, n: nat, done: nat, m: nat, i: nat,
                  th: InboundThread, th': InboundThread, yes: bool, pick: Option<Id>)
    requires Preserved(cfg, k, r) && m <= k && i < m && Takes(cfg, n, th, th', yes, pick) && !th.pc.Auditing?
    requires r(World(n, Batch(done, m, i, th, th')))
    ensures r(World(n, Batch(done, m, i + 1, th, th')))
  {
    BatchOpen(done, m, i + 1, th, th');
    BatchMoves(done, m, i + 1, th, th');
    ThenTakes(cfg, k, r, n, Batch(done, m, i, th, th'), done + i, done, m, th, th', yes, pick);
  }

  /** A whole batch takes the same step, one request after the other. */
  lemma {:induction false} Phase(cfg: Config, k: nat, r: State -> bool, n: nat, done: nat, m: nat, i: nat,
                                 th: InboundThread, th': InboundThread, yes: bool, pick: Option<Id>)
    requires Preserved(cfg, k, r) && m <= k && i <= m && Takes(cfg, n, th, th', yes, pick) && !th.pc.Auditing?
    requires r(World(n, Batch(done, m, 0, th, th')))
    ensures r(World(n, Batch(done, m, i, th, th')))
  {
    if i > 0 {
      Phase(cfg, k, r, n, done, m, i - 1, th, th', yes, pick);
      NextTakes(cfg, k, r, n, done, m, i - 1, th, th', yes, pick);
    }
  }

  lemma FullPhase(cfg: Config, k: nat, r: State -> bool, n: nat, done: nat, m: nat,
                  th: InboundThread, th': InboundThread, next: InboundThread, yes: bool, pick: Option<Id>)
    requires Preserved(cfg, k, r) && m <= k && Takes(cfg, n, th, th', yes, pick) && !th.pc.Auditing?
    requires r(World(n, Batch(done, m, 0, th, th')))
    ensures r(World(n, Batch(done, m, 0, th', next)))
  {
    Phase(cfg, k, r, n, done, m, m, th, th', yes, pick);
    assert Batch(done, m, m, th, th') == Batch(done, m, 0, th', next);
  }

  lemma {:induction false} BeginAll(cfg: Config, k: nat, r: State -> bool, n: nat, done: nat, m: nat, th: InboundThread, th': InboundThread)
    requires Preserved(cfg, k, r) && m <= k && th == At(Lookup)
    requires r(World(n, Batch(done, 0, 0, th, th')))
    ensures r(World(n, Batch(done, m, 0, th, th')))
  {
    if m > 0 {
      BeginAll(cfg, k, r, n, done, m - 1, th, th');
      BeginOne(cfg, k, r, n, done, m - 1, th, th');
    }
  }

  lemma BeginOne(cfg: Config, k: nat, r: State -> bool, n: nat, done: nat, i: nat, th: InboundThread, th': InboundThread)
    requires Preserved(cfg, k, r) && i < k && th == At(Lookup) && r(World(n, Batch(done, i, 0, th, th')))
    ensures r(World(n, Batch(done, i + 1, 0, th, th')))
  {
    BatchGrows(done, i + 1, th, th');
    BeginNext(cfg, k, r, n, Batch(done, i, 0, th, th'), done + i, done, i + 1, th, th');
  }

  lemma BeginNext(cfg: Config, k: nat, r: State -> bool, n: nat, before: map<Id, InboundThread>, t: Id, done: nat, m: nat,
                  th: InboundThread, th': InboundThread)
    requires Preserved(cfg, k, r) && m <= k && th == At(Lookup) && r(World(n, before))
    requires t !in before && before[t := th] == Batch(done, m, 0, th, th')
    ensures r(World(n, Batch(done, m, 0, th, th')))
  {
    BatchOpen(done, m, 0, th, th');
    ThenBegins(cfg, k, r, n, before, t, done, m);
  }

  /** A batch gets as far as its failure count. */
  lemma ReachesCount(cfg: Config, k: nat, r: State -> bool, n: nat, done: nat, m: nat, next: InboundThread)
    requires Preserved(cfg, k, r) && m <= k
    requires r(World(n, Batch(done, 0, 0, At(Lookup), At(BlockCheck))))
    ensures r(World(n, Batch(done, m, 0, At(FailCount(NoMatch)), next)))
  {
    BeginAll(cfg, k, r, n, done, m, At(Lookup), At(BlockCheck));
    LooksUp(cfg, n);
    FullPhase(cfg, k, r, n, done, m, At(Lookup), At(BlockCheck), At(Throttle), true, Some(0));
    PassesBlockCheck(cfg, n);
    FullPhase(cfg, k, r, n, done, m, At(BlockCheck), At(Throttle), At(Matching), true, None);
    PassesThrottle(cfg, n);
    FullPhase(cfg, k, r, n, done, m, At(Throttle), At(Matching), At(FailCount(NoMatch)), true, None);
    FindsNothing(cfg, n);
    FullPhase(cfg, k, r, n, done, m, At(Matching), At(FailCount(NoMatch)), next, true, None);
  }

  lemma NextAudit(cfg: Config, k: nat, r: State -> bool, n: nat, done: nat, m: nat, i: nat, th: InboundThread)
    requires Preserved(cfg, k, r) && m <= k && i < m && th == Failing(Auditing(Unmatched(NoMatch)))
    requires r(World(n + i, Batch(done, m, i, th, Finished())))
    ensures r(World(n + (i + 1), Batch(done, m, i + 1, th, Finished())))
  {
    BatchOpen(done, m, i + 1, th, Finished());
    BatchMoves(done, m, i + 1, th, Finished());
    ThenAudits(cfg, k, r, n + i, Batch(done, m, i, th, Finished()), done + i, done, m);
  }

  lemma {:induction false} AuditAll(cfg: Config, k: nat, r: State -> bool, n: nat, done: nat, m: nat, i: nat, th: InboundThread)
    requires Preserved(cfg, k, r) && m <= k && i <= m && th == Failing(Auditing(Unmatched(NoMatch)))
    requires r(World(n, Batch(done, m, 0, th, Finished())))
    ensures r(World(n + i, Batch(done, m, i, th, Finished())))
  {
    if i > 0 {
      AuditAll(cfg, k, r, n, done, m, i - 1, th);
      NextAudit(cfg, k, r, n, done, m, i - 1, th);
    }
  }

  /** With three rows or fewer, a whole batch fails unblocked and leaves its rows. */
  lemma QuietBatch(cfg: Config, k: nat, r: State -> bool, n: nat, done: nat, m: nat)
    requires Preserved(cfg, k, r) && m <= k && n + 1 < ABUSE_FAIL_THRESHOLD
    requires r(World(n, Batch(done, 0, 0, At(Lookup), At(BlockCheck))))
    ensures r(World(n + m, Batch(done + m, 0, 0, At(Lookup), At(BlockCheck))))
  {
    var flooding, auditing := Failing(FloodCount(NoMatch, 0)), Failing(Auditing(Unmatched(NoMatch)));
    ReachesCount(cfg, k, r, n, done, m, flooding);
    IsCounted(cfg, n);
    FullPhase(cfg, k, r, n, done, m, At(FailCount(NoMatch)), flooding, auditing, true, None);
    IsNoFlood(cfg, n);
    FullPhase(cfg, k, r, n, done, m, flooding, auditing, Finished(), true, None);
    AuditAll(cfg, k, r, n, done, m, m, auditing);
    assert Batch(done, m, m, auditing, Finished()) == Batch(done + m, 0, 0, At(Lookup), At(BlockCheck));
  }

  lemma SetupReaches(cfg: Config, k: nat, r: State -> bool)
    requires Preserved(cfg, k, r)
    ensures r(World(0, Batch(0, 0, 0, At(Lookup), At(BlockCheck))))
  {
    var s1 := INIT.(db := EMPTY.(devices := map[0 := Device(false)]));
    assert Apply(cfg, INIT, AddDevice(0)) == s1;
    assert Abuse.InFlight(s1, SENDER) == {} && r(s1);
    assert Batch(0, 0, 0, At(Lookup), At(BlockCheck)) == map[];
    assert Apply(cfg, s1, AddNumber(0, NUMBER)) == World(0, map[]);
    Then(cfg, k, r, s1, AddNumber(0, NUMBER), 0, map[], 0, 0);
  }

  /** The state in which 3 + k requests have failed and settled and k more have failed. */
  function Last(k: nat): State { World(3 + k, Batch(3 + k, k, 0, Failing(AddBlock(NoMatch, 0)), Finished())) }

  lemma LastIsReached(cfg: Config, k: nat, r: State -> bool)
    requires Preserved(cfg, k, r) && k >= 1
    ensures r(Last(k))
  {
    Quiets(cfg, k, r, 3);
    QuietBatch(cfg, k, r, 3, 3, k);
    BlockingBatch(cfg, k, r, 3 + k, 3 + k, k);
  }

  /** Up to four requests fail one by one. */
  lemma {:induction false} Quiets(cfg: Config, k: nat, r: State -> bool, n: nat)
    requires Preserved(cfg, k, r) && k >= 1 && n < ABUSE_FAIL_THRESHOLD
    ensures r(World(n, Batch(n, 0, 0, At(Lookup), At(BlockCheck))))
  {
    if n == 0 {
      SetupReaches(cfg, k, r);
    } else {
      Quiets(cfg, k, r, n - 1);
      QuietBatch(cfg, k, r, n - 1, n - 1, 1);
    }
  }

  /** With four rows or more, a whole batch fails before any of it blocks. */
  lemma BlockingBatch(cfg: Config, k: nat, r: State -> bool, n: nat, done: nat, m: nat)
    requires Preserved(cfg, k, r) && m <= k && n + 1 >= ABUSE_FAIL_THRESHOLD
    requires r(World(n, Batch(done, 0, 0, At(Lookup), At(BlockCheck))))
    ensures r(World(n, Batch(done, m, 0, Failing(AddBlock(NoMatch, 0)), Finished())))
  {
    ReachesCount(cfg, k, r, n, done, m, Failing(AddBlock(NoMatch, 0)));
    IsCounted(cfg, n);
    FullPhase(cfg, k, r, n, done, m, At(FailCount(NoMatch)), Failing(AddBlock(NoMatch, 0)), Finished(), true, None);
  }

  lemma LastFailures(k: nat)
    ensures |Abuse.FailuresFrom(Last(k), SENDER, 0)| == 3 + 2 * k
  {
    assert Abuse.FailuresFrom(Last(k), SENDER, 0) == Ids(0, 3 + 2 * k);
    IdsCount(0, 3 + 2 * k);
  }

  // ---------------------------------------------------------------- main result

  ghost predicate ReachedBy(cfg: Config, k: nat, acts: seq<Action>, s: State) {
    Exec(cfg, acts) == s && Abuse.AllPermitted(cfg, acts, SENDER) && Abuse.OverlapWithin(cfg, acts, SENDER, k)
  }

  lemma OneMore(cfg: Config, k: nat, acts: seq<Action>, s: State, a: Action)
    requires ReachedBy(cfg, k, acts, s) && Abuse.Permitted(cfg, s, a, SENDER) && |Abuse.InFlight(Apply(cfg, s, a), SENDER)| <= k
    ensures ReachedBy(cfg, k, acts + [a], Apply(cfg, s, a))
  {
    var next := acts + [a];
    assert next[..|acts|] == acts;
    forall i | 0 <= i <= |next|
      ensures |Abuse.InFlight(Exec(cfg, next[..i]), SENDER)| <= k
    {
      if i <= |acts| { assert next[..i] == acts[..i]; } else { assert next[..i] == next; }
    }
    forall i | 0 <= i < |next|
      ensures Abuse.Permitted(cfg, Exec(cfg, next[..i]), next[i], SENDER)
    {
      assert next[..i] == acts[..i];
      if i == |acts| { assert acts[..i] == acts; }
    }
  }

  lemma BoundIsReached(cfg: Config, k: nat) returns (acts: seq<Action>)
    requires k >= 1
    ensures Abuse.AllPermitted(cfg, acts, SENDER) && Abuse.OverlapWithin(cfg, acts, SENDER, k)
    ensures |Abuse.FailuresFrom(Exec(cfg, acts), SENDER, 0)| == 3 + 2 * k
  {
    var r: State -> bool := s => exists run: seq<Action> :: ReachedBy(cfg, k, run, s);
    assert r(INIT) by {
      assert Abuse.InFlight(INIT, SENDER) == {};
      assert ReachedBy(cfg, k, [], INIT);
    }
    forall s, a | r(s) && Abuse.Permitted(cfg, s, a, SENDER) && |Abuse.InFlight(Apply(cfg, s, a), SENDER)| <= k
      ensures r(Apply(cfg, s, a))
    {
      var run: seq<Action> :| ReachedBy(cfg, k, run, s);
      OneMore(cfg, k, run, s, a);
    }
    LastIsReached(cfg, k, r);
    LastFailures(k);
    acts :| ReachedBy(cfg, k, acts, Last(k));
  }

  /** No sender with at most k inbounds under way ever fails more often than bound in ten minutes. */
  ghost predicate Bounds(cfg: Config, k: nat, bound: nat) {
    forall acts, sender, from: Millis | Abuse.AllPermitted(cfg, acts, sender) && Abuse.OverlapWithin(cfg, acts, sender, k) ::
      |Abuse.FailuresFrom(Exec(cfg, acts), sender, from)| <= bound
  }

  /** The failures that the auto-block lets through in ten minutes are exactly up to 3 + 2k. */
  lemma FailureBoundIsExact(cfg: Config, k: nat, bound: nat)
    requires k >= 1
    ensures Bounds(cfg, k, bound) <==> bound >= 3 + 2 * k
  {
    if bound >= 3 + 2 * k {
      forall acts, sender, from: Millis | Abuse.AllPermitted(cfg, acts, sender) && Abuse.OverlapWithin(cfg, acts, sender, k)
        ensures |Abuse.FailuresFrom(Exec(cfg, acts), sender, from)| <= bound
      {
        Abuse.FailuresBoundedByOverlap(cfg, acts, sender, k, from);
      }
    } else {
      var acts := BoundIsReached(cfg, k);
    }
  }
}
