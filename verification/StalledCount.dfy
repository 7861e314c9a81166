/**
 A prune can change a blocking decision if a flood count runs late (verify/service.go
 maybeBlock): its window is anchored at the clock reading of the failure count before it, so
 rows that it should count may be gone. The run here shows why Abuse asks for promptness.

 One request fails and stalls before its flood count. Nineteen more signals of its sender come
 in and are throttled, each leaving a row. Eleven minutes later a prune that keeps ten minutes
 deletes them, and the late count blocks nobody; without the prune it blocks the sender.
 */
module StalledCount {
  import opened Wrappers
  import opened Store
  import opened Protocol
  import Abuse
  import opened AbuseBound

  // ---------------------------------------------------------------- the states of the run

  const STALLED := Failing(FloodCount(NoMatch, 0))
  const THROTTLED := At(InboundDone(Unmatched(RateLimited)))

  /** Request 0 has stalled, and n later ones were throttled. */
  function Records(n: nat): map<Id, InboundThread> { map t | t in Ids(0, n + 1) :: Record(t) }

  function Record(t: Id): InboundThread { if t == 0 then STALLED else THROTTLED }

  lemma RecordsGrow(n: nat)
    ensures n + 1 !in Records(n) && Records(n)[n + 1 := THROTTLED] == Records(n + 1)
  {
    forall t: Id
      ensures t in Records(n + 1) <==> t in Records(n) || t == n + 1
    {
      assert t in Records(n + 1) <==> t in Ids(0, n + 2);
      assert t in Records(n) <==> t in Ids(0, n + 1);
    }
  }

  // ---------------------------------------------------------------- reaching them without a prune

  ghost predicate Closed(cfg: Config, r: State -> bool) {
    r(INIT) && forall s, a: Action {:trigger Apply(cfg, s, a)} | r(s) && !a.Prune? :: r(Apply(cfg, s, a))
  }

  lemma ThenTakes(cfg: Config, r: State -> bool, n: nat, inbounds: map<Id, InboundThread>, t: Id,
                  th: InboundThread, th': InboundThread, yes: bool, pick: Option<Id>)
    requires Closed(cfg, r) && r(World(n, inbounds)) && Takes(cfg, n, th, th', yes, pick) && t in inbounds && inbounds[t] == th
    ensures r(World(n, inbounds[t := th']))
  {
    assert Apply(cfg, World(n, inbounds), InboundStep(t, yes, pick)) == World(n, inbounds[t := th']);
  }

  lemma ThenBegins(cfg: Config, r: State -> bool, n: nat, inbounds: map<Id, InboundThread>, t: Id)
    requires Closed(cfg, r) && r(World(n, inbounds)) && t !in inbounds
    ensures r(World(n, inbounds[t := At(Lookup)]))
  {
    assert Apply(cfg, World(n, inbounds), BeginInbound(t, REPORT)) == World(n, inbounds[t := At(Lookup)]);
  }

  lemma IsThrottled(cfg: Config, n: nat)
    ensures Takes(cfg, n, At(Throttle), At(Auditing(Unmatched(RateLimited))), false, None)
  {}

  lemma ThrottledRow(cfg: Config, n: nat, inbounds: map<Id, InboundThread>, t: Id)
    requires t in inbounds && inbounds[t] == At(Auditing(Unmatched(RateLimited)))
    ensures Apply(cfg, World(n, inbounds), InboundStep(t, true, None)) == World(n + 1, inbounds[t := THROTTLED])
  {}

  /** A request gets past the block check. */
  lemma ReachesThrottle(cfg: Config, r: State -> bool, n: nat, inbounds: map<Id, InboundThread>, t: Id)
    requires Closed(cfg, r) && r(World(n, inbounds)) && t !in inbounds
    ensures r(World(n, inbounds[t := At(Throttle)]))
  {
    var lookup, check := inbounds[t := At(Lookup)], inbounds[t := At(BlockCheck)];
    ThenBegins(cfg, r, n, inbounds, t);
    LooksUp(cfg, n);
    ThenTakes(cfg, r, n, lookup, t, At(Lookup), At(BlockCheck), true, Some(0));
    assert lookup[t := At(BlockCheck)] == check;
    PassesBlockCheck(cfg, n);
    ThenTakes(cfg, r, n, check, t, At(BlockCheck), At(Throttle), true, None);
    assert check[t := At(Throttle)] == inbounds[t := At(Throttle)];
  }

  lemma Stalls(cfg: Config, r: State -> bool)
    requires Closed(cfg, r) && r(World(0, map[]))
    ensures r(World(0, Records(0)))
  {
    ReachesThrottle(cfg, r, 0, map[], 0);
    PassesThrottle(cfg, 0);
    Alone(cfg, r, At(Throttle), At(Matching));
    FindsNothing(cfg, 0);
    Alone(cfg, r, At(Matching), At(FailCount(NoMatch)));
    IsCounted(cfg, 0);
    Alone(cfg, r, At(FailCount(NoMatch)), STALLED);
    forall t: Id
      ensures t in Records(0) <==> t == 0
    {
      assert t in Records(0) <==> t in Ids(0, 1);
    }
    assert Records(0) == map[0 := STALLED];
  }

  /** The one request there is moves on. */
  lemma Alone(cfg: Config, r: State -> bool, th: InboundThread, th': InboundThread)
    requires Closed(cfg, r) && r(World(0, map[0 := th])) && Takes(cfg, 0, th, th', true, None)
    ensures r(World(0, map[0 := th']))
  {
    var inbounds: map<Id, InboundThread> := map[0 := th];
    ThenTakes(cfg, r, 0, inbounds, 0, th, th', true, None);
    assert inbounds[0 := th'] == map[0 := th'];
  }

  lemma OneThrottled(cfg: Config, r: State -> bool, n: nat)
    requires Closed(cfg, r) && r(World(n, Records(n)))
    ensures r(World(n + 1, Records(n + 1)))
  {
    var before: map<Id, InboundThread>, t: Id := Records(n), n + 1;
    var auditing := At(Auditing(Unmatched(RateLimited)));
    RecordsGrow(n);
    ReachesThrottle(cfg, r, n, before, t);
    IsThrottled(cfg, n);
    ThenTakes(cfg, r, n, before[t := At(Throttle)], t, At(Throttle), auditing, false, None);
    assert before[t := At(Throttle)][t := auditing] == before[t := auditing];
    ThrottledRow(cfg, n, before[t := auditing], t);
    assert r(Apply(cfg, World(n, before[t := auditing]), InboundStep(t, true, None)));
    assert before[t := auditing][t := THROTTLED] == Records(n + 1);
  }

  lemma {:induction false} Throttled(cfg: Config, r: State -> bool, n: nat)
    requires Closed(cfg, r)
    ensures r(World(n, Records(n)))
  {
    if n == 0 {
      Ready(cfg, r);
      Stalls(cfg, r);
    } else {
      Throttled(cfg, r, n - 1);
      OneThrottled(cfg, r, n - 1);
    }
  }

  lemma Ready(cfg: Config, r: State -> bool)
    requires Closed(cfg, r)
    ensures r(World(0, map[]))
  {
    var s1 := INIT.(db := EMPTY.(devices := map[0 := Device(false)]));
    assert Apply(cfg, INIT, AddDevice(0)) == s1;
    assert Apply(cfg, s1, AddNumber(0, NUMBER)) == World(0, map[]);
  }

  // ---------------------------------------------------------------- the prune and the late count

  const LATE := 660_000

  lemma {:induction false} AllPruned(n: nat, cutoff: Millis)
    requires cutoff > 0
    ensures PruneBefore(Rows(n), cutoff) == []
  {
    if n > 0 {
      AllPruned(n - 1, cutoff);
      assert Rows(n)[..n - 1] == Rows(n - 1) by { RowsLength(n - 1); RowsLength(n); }
    }
  }

  lemma {:induction false} RowsLength(n: nat)
    ensures |Rows(n)| == n
  {
    if n > 0 { RowsLength(n - 1); }
  }

  /** The stalled request's next step, seen by itself. */
  lemma Counts(cfg: Config, s: State)
    requires 0 in s.inbounds && s.inbounds[0] == STALLED
    ensures var s' := Apply(cfg, s, InboundStep(0, true, None));
      && 0 in s'.inbounds
      && s'.inbounds[0].pc == if CountBySender(s.db.events, SENDER, -ABUSE_FLOOD_WINDOW, false) + 1 >= ABUSE_FLOOD_THRESHOLD
                              then AddBlock(NoMatch, 0) else Auditing(Unmatched(NoMatch))
  {
    assert STALLED.req.sender == SENDER;
  }

  lemma StillStalled(n: nat)
    ensures 0 in Records(n) && Records(n)[0] == STALLED
  {
    assert 0 in Ids(0, n + 1);
  }

  function Late(cfg: Config, n: nat): State { Apply(cfg, World(n, Records(n)), Tick(LATE)) }

  /** After the prune the late count sees nothing. */
  lemma PrunedCount(cfg: Config, n: nat)
    ensures var s := Apply(cfg, Apply(cfg, Late(cfg, n), Prune(ABUSE_FAIL_WINDOW)), InboundStep(0, true, None));
      0 in s.inbounds && s.inbounds[0].pc == Auditing(Unmatched(NoMatch))
  {
    StillStalled(n);
    AllPruned(n, LATE - ABUSE_FAIL_WINDOW);
    var pruned := Apply(cfg, Late(cfg, n), Prune(ABUSE_FAIL_WINDOW));
    assert pruned.db.events == [];
    Counts(cfg, pruned);
  }

  /** Without it the late count sees enough for a block. */
  lemma UnprunedCount(cfg: Config, n: nat)
    requires n + 1 >= ABUSE_FLOOD_THRESHOLD
    ensures var s := Apply(cfg, Late(cfg, n), InboundStep(0, true, None));
      0 in s.inbounds && s.inbounds[0].pc == AddBlock(NoMatch, 0)
  {
    StillStalled(n);
    RowsCount(n, -ABUSE_FLOOD_WINDOW, false);
    Counts(cfg, Late(cfg, n));
  }

  // ---------------------------------------------------------------- main result

  predicate NoPrune(acts: seq<Action>) { forall i | 0 <= i < |acts| :: !acts[i].Prune? }

  ghost predicate ReachedBy(cfg: Config, acts: seq<Action>, s: State) { Exec(cfg, acts) == s && NoPrune(acts) }

  lemma OneMoreUnpruned(cfg: Config, acts: seq<Action>, s: State, a: Action)
    requires ReachedBy(cfg, acts, s) && !a.Prune?
    ensures ReachedBy(cfg, acts + [a], Apply(cfg, s, a))
  {
    assert (acts + [a])[..|acts|] == acts;
  }

  lemma RunToStall(cfg: Config, n: nat) returns (acts: seq<Action>)
    ensures ReachedBy(cfg, acts, World(n, Records(n)))
  {
    var r: State -> bool := s => exists run: seq<Action> :: ReachedBy(cfg, run, s);
    assert ReachedBy(cfg, [], INIT);
    forall s, a: Action | r(s) && !a.Prune?
      ensures r(Apply(cfg, s, a))
    {
      var run: seq<Action> :| ReachedBy(cfg, run, s);
      OneMoreUnpruned(cfg, run, s, a);
    }
    Throttled(cfg, r, n);
    acts :| ReachedBy(cfg, acts, World(n, Records(n)));
  }

  lemma ThreeMore(cfg: Config, acts: seq<Action>, a: Action, b: Action, c: Action)
    ensures Exec(cfg, acts + [a, b, c]) == Apply(cfg, Apply(cfg, Apply(cfg, Exec(cfg, acts), a), b), c)
  {
    var all := acts + [a, b, c];
    var n := |acts|;
    assert all[..n] == acts && all[..n + 3] == all;
    ExecOne(cfg, all, n);
    ExecOne(cfg, all, n + 1);
    ExecOne(cfg, all, n + 2);
  }

  lemma UnprunedRun(acts: seq<Action>)
    requires NoPrune(acts)
    ensures Abuse.Unpruned(acts + [Tick(LATE), Prune(ABUSE_FAIL_WINDOW), InboundStep(0, true, None)])
         == acts + [Tick(LATE), Tick(0), InboundStep(0, true, None)]
  {}

  /** A run with one prune that keeps the whole failure window, and that nevertheless loses a block. */
  lemma PruneMissesBlock(cfg: Config) returns (acts: seq<Action>)
    ensures forall i | 0 <= i < |acts| && acts[i].Prune? :: acts[i].retention >= ABUSE_FAIL_WINDOW
    ensures 0 in Exec(cfg, acts).inbounds && Exec(cfg, acts).inbounds[0].pc == Auditing(Unmatched(NoMatch))
    ensures var full := Exec(cfg, Abuse.Unpruned(acts));
      0 in full.inbounds && full.inbounds[0].pc == AddBlock(NoMatch, 0)
  {
    var before := RunToStall(cfg, ABUSE_FLOOD_THRESHOLD - 1);
    var count := InboundStep(0, true, None);
    acts := before + [Tick(LATE), Prune(ABUSE_FAIL_WINDOW), count];
    ThreeMore(cfg, before, Tick(LATE), Prune(ABUSE_FAIL_WINDOW), count);
    UnprunedRun(before);
    ThreeMore(cfg, before, Tick(LATE), Tick(0), count);
    PrunedCount(cfg, ABUSE_FLOOD_THRESHOLD - 1);
    var late := Late(cfg, ABUSE_FLOOD_THRESHOLD - 1);
    assert Apply(cfg, late, Tick(0)) == late;
    UnprunedCount(cfg, ABUSE_FLOOD_THRESHOLD - 1);
  }
}
