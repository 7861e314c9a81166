/**
 The bounds of VoiceRace are exact (verify/service.go Start): for every number of racers and of
 free SIMs there is a race with min(N, M) winners and one with min(N, M, 8).

 For the many, the starts run one after the other. For the few, all but eight racers pick the
 SIM that the next of the eight is about to take, eight times over, and give up while other SIMs
 are still free.
 */
module VoiceRaceBound {
  import opened Wrappers
  import opened Store
  import opened Protocol
  import opened VoiceRace

  // ---------------------------------------------------------------- the states of the run

  const CALL := StartRequest(App(7, "", 0, 0, []), "call", "claim", "+1")

  function PlanFor(cfg: Config): Plan { Plan(7, Call, Claim, Some("+1"), PlanOf(cfg, CALL, 0).value.codeLen, cfg.defaultTtl) }

  lemma CallPlan(cfg: Config)
    ensures PlanOf(cfg, CALL, 0) == Some(PlanFor(cfg)) && IsCallRequest(cfg, CALL)
  {
    assert TrimSpace("+1") == "+1";
  }

  function Msisdn(n: Id): string { seq(n, _ => '1') }

  predicate InRange(t: Id, first: nat, count: nat) { first <= t < first + count }

  function Ids(first: nat, count: nat): set<Id> { set t: Id | 0 <= t < first + count && InRange(t, first, count) }

  lemma {:induction false} IdsCount(first: nat, count: nat)
    ensures |Ids(first, count)| == count
  {
    if count > 0 {
      IdsCount(first, count - 1);
      assert Ids(first, count) == Ids(first, count - 1) + {first + count - 1};
    } else {
      assert Ids(first, 0) == {};
    }
  }

  function Row(cfg: Config, n: Id): Session { Candidate(PlanFor(cfg), n, "", 0) }

  /** SIMs 0 to m - 1, of which the first j are taken, each by the session of the same id. */
  function Pool(cfg: Config, m: nat, j: nat): Db {
    Db(map[0 := Device(true)], map n | n in Ids(0, m) :: Number(0, Msisdn(n), {Call}, true),
       map sid | sid in Ids(0, j) :: Row(cfg, sid), [], [])
  }

  function World(cfg: Config, m: nat, j: nat, starts: map<Id, StartThread>): State {
    State(0, Pool(cfg, m, j), starts, map[], [], [], Ids(0, m))
  }

  function At(cfg: Config, attempt: nat, pc: StartPc): StartThread { StartThread(PlanFor(cfg), attempt, pc) }

  function Winning(cfg: Config, t: Id): StartThread { At(cfg, 0, StartDone(Started(t, Msisdn(t), ""))) }

  /** Winners 0 to j - 1, and from b on i others that have moved on to th' and l - i still at th. */
  function Racing(cfg: Config, j: nat, b: nat, l: nat, i: nat, th: StartThread, th': StartThread): map<Id, StartThread> {
    map t | t in Ids(0, j) + Ids(b, l) :: Place(cfg, t, b, i, th, th')
  }

  function Place(cfg: Config, t: Id, b: nat, i: nat, th: StartThread, th': StartThread): StartThread {
    if t < b then Winning(cfg, t) else if t < b + i then th' else th
  }

  lemma Load(cfg: Config, m: nat, j: nat, n: Id)
    ensures PendingOn(Pool(cfg, m, j), n) == if n < j then {n} else {}
    ensures VoiceBusy(Pool(cfg, m, j), n) <==> n < j
  {
    var db := Pool(cfg, m, j);
    assert forall sid | sid in db.sessions :: IsPendingOn(db.sessions[sid], n) <==> sid == n;
    if n < j { assert n in db.sessions; }
  }

  lemma Offers(cfg: Config, m: nat, j: nat, n: Id)
    requires cfg.maxPending >= 1
    ensures Eligible(Pool(cfg, m, j), cfg.maxPending, n, Call) <==> j <= n < m
  {
    Load(cfg, m, j, n);
  }

  lemma NextIsPick(cfg: Config, m: nat, j: nat)
    requires cfg.maxPending >= 1 && j < m
    ensures IsPick(Pool(cfg, m, j), cfg.maxPending, Call, Some(j))
  {
    Offers(cfg, m, j, j);
    Load(cfg, m, j, j);
  }

  lemma NoneIsPick(cfg: Config, m: nat)
    requires cfg.maxPending >= 1
    ensures IsPick(Pool(cfg, m, m), cfg.maxPending, Call, None)
  {
    forall n | n in Pool(cfg, m, m).numbers
      ensures !Eligible(Pool(cfg, m, m), cfg.maxPending, n, Call)
    {
      Offers(cfg, m, m, n);
    }
  }

  lemma AllServe(cfg: Config, m: nat, j: nat)
    ensures |Serving(Pool(cfg, m, j), Call)| == m
  {
    assert Serving(Pool(cfg, m, j), Call) == Ids(0, m);
    IdsCount(0, m);
  }

  // ---------------------------------------------------------------- one step of one racer

  /** The step takes any racer at th to th', and leaves the rest alone. */
  ghost predicate Takes(cfg: Config, m: nat, j: nat, th: StartThread, th': StartThread, pick: Option<Id>) {
    forall starts: map<Id, StartThread>, t {:trigger Apply(cfg, World(cfg, m, j, starts), StartStep(t, pick, j, ""))} |
      t in starts && starts[t] == th ::
      Apply(cfg, World(cfg, m, j, starts), StartStep(t, pick, j, "")) == World(cfg, m, j, starts[t := th'])
  }

  lemma PicksNext(cfg: Config, m: nat, j: nat, attempt: nat)
    requires cfg.maxPending >= 1 && j < m
    ensures Takes(cfg, m, j, At(cfg, attempt, Picking), At(cfg, attempt, Creating(j, Msisdn(j))), Some(j))
  {
    NextIsPick(cfg, m, j);
  }

  lemma PicksNothing(cfg: Config, m: nat)
    requires cfg.maxPending >= 1
    ensures Takes(cfg, m, m, At(cfg, 0, Picking), At(cfg, 0, Counting), None)
  {
    NoneIsPick(cfg, m);
  }

  /** A racer that has lost its first inserts. */
  function After(cfg: Config, attempts: nat): StartThread {
    At(cfg, attempts, if attempts < MAX_START_ATTEMPTS then Picking else Counting)
  }

  lemma LosesInsert(cfg: Config, m: nat, j: nat, attempt: nat, n: Id)
    requires n < j
    ensures Takes(cfg, m, j, At(cfg, attempt, Creating(n, Msisdn(n))), After(cfg, attempt + 1), None)
  {
    Collides(cfg, m, j, n);
  }

  lemma Collides(cfg: Config, m: nat, j: nat, n: Id)
    requires n < j
    ensures Conflicts(Pool(cfg, m, j), Row(cfg, n)) && j !in Pool(cfg, m, j).sessions
  {
    assert n in Pool(cfg, m, j).sessions && Pool(cfg, m, j).sessions[n] == Row(cfg, n);
  }

  function Lost(m: nat): StartOutcome { if m > 0 then Busy(m) else NoCapacity }

  lemma GivesUp(cfg: Config, m: nat, j: nat, attempt: nat)
    ensures Takes(cfg, m, j, At(cfg, attempt, Counting), At(cfg, attempt, StartDone(Lost(m))), None)
  {
    AllServe(cfg, m, j);
  }

  lemma Inserts(cfg: Config, m: nat, j: nat, starts: map<Id, StartThread>, t: Id)
    requires j < m && t in starts && starts[t] == At(cfg, 0, Creating(j, Msisdn(j)))
    ensures Apply(cfg, World(cfg, m, j, starts), StartStep(t, None, j, ""))
         == World(cfg, m, j + 1, starts[t := At(cfg, 0, StartDone(Started(j, Msisdn(j), "")))])
  {
    IsFree(cfg, m, j);
    TakesNext(cfg, m, j);
  }

  lemma IsFree(cfg: Config, m: nat, j: nat)
    requires j < m
    ensures var db := Pool(cfg, m, j);
      !Conflicts(db, Row(cfg, j)) && j !in db.sessions && j in db.numbers
  {
    Load(cfg, m, j, j);
  }

  lemma TakesNext(cfg: Config, m: nat, j: nat)
    ensures Insert(Pool(cfg, m, j), j, Row(cfg, j)) == Pool(cfg, m, j + 1)
  {
    assert Pool(cfg, m, j).sessions[j := Row(cfg, j)] == Pool(cfg, m, j + 1).sessions;
  }

  lemma Begins(cfg: Config, m: nat, j: nat, starts: map<Id, StartThread>, t: Id)
    requires t !in starts
    ensures Apply(cfg, World(cfg, m, j, starts), BeginStart(t, CALL)) == World(cfg, m, j, starts[t := At(cfg, 0, Picking)])
    ensures RaceStep(cfg, World(cfg, m, j, starts), BeginStart(t, CALL))
  {
    CallPlan(cfg);
  }

  // ---------------------------------------------------------------- what every race preserves

  ghost predicate Preserved(cfg: Config, m: nat, r: State -> bool) {
    && r(World(cfg, m, 0, map[]))
    && forall s, a {:trigger Apply(cfg, s, a)} | r(s) && RaceStep(cfg, s, a) :: r(Apply(cfg, s, a))
  }

  lemma ThenTakes(cfg: Config, r: State -> bool, m: nat, j: nat, starts: map<Id, StartThread>, t: Id,
                  th: StartThread, th': StartThread, pick: Option<Id>)
    requires Preserved(cfg, m, r) && r(World(cfg, m, j, starts)) && Takes(cfg, m, j, th, th', pick)
    requires t in starts && starts[t] == th
    ensures r(World(cfg, m, j, starts[t := th']))
  {
    assert Apply(cfg, World(cfg, m, j, starts), StartStep(t, pick, j, "")) == World(cfg, m, j, starts[t := th']);
  }

  lemma ThenBegins(cfg: Config, r: State -> bool, m: nat, j: nat, starts: map<Id, StartThread>, t: Id)
    requires Preserved(cfg, m, r) && r(World(cfg, m, j, starts)) && t !in starts
    ensures r(World(cfg, m, j, starts[t := At(cfg, 0, Picking)]))
  {
    Begins(cfg, m, j, starts, t);
  }

  lemma ThenInserts(cfg: Config, r: State -> bool, m: nat, j: nat, starts: map<Id, StartThread>, t: Id)
    requires Preserved(cfg, m, r) && r(World(cfg, m, j, starts)) && j < m
    requires t in starts && starts[t] == At(cfg, 0, Creating(j, Msisdn(j)))
    ensures r(World(cfg, m, j + 1, starts[t := At(cfg, 0, StartDone(Started(j, Msisdn(j), "")))]))
  {
    Inserts(cfg, m, j, starts, t);
    assert RaceStep(cfg, World(cfg, m, j, starts), StartStep(t, None, j, ""));
  }

  // ---------------------------------------------------------------- whole groups of racers

  lemma RacingMoves(cfg: Config, j: nat, b: nat, l: nat, i: nat, th: StartThread, th': StartThread)
    requires j <= b && i < l
    ensures var before, t := Racing(cfg, j, b, l, i, th, th'), b + i;
      t in before && before[t] == th && before[t := th'] == Racing(cfg, j, b, l, i + 1, th, th')
  {}

  lemma {:induction false} Phase(cfg: Config, r: State -> bool, m: nat, j: nat, b: nat, l: nat, i: nat,
                                 th: StartThread, th': StartThread, pick: Option<Id>)
    requires Preserved(cfg, m, r) && j <= b && i <= l && Takes(cfg, m, j, th, th', pick)
    requires r(World(cfg, m, j, Racing(cfg, j, b, l, 0, th, th')))
    ensures r(World(cfg, m, j, Racing(cfg, j, b, l, i, th, th')))
  {
    if i > 0 {
      Phase(cfg, r, m, j, b, l, i - 1, th, th', pick);
      RacingMoves(cfg, j, b, l, i - 1, th, th');
      ThenTakes(cfg, r, m, j, Racing(cfg, j, b, l, i - 1, th, th'), b + (i - 1), th, th', pick);
    }
  }

  /** All the others take the same step; next is whatever they will move on to. */
  lemma FullPhase(cfg: Config, r: State -> bool, m: nat, j: nat, b: nat, l: nat,
                  th: StartThread, th': StartThread, next: StartThread, pick: Option<Id>)
    requires Preserved(cfg, m, r) && j <= b && Takes(cfg, m, j, th, th', pick)
    requires r(World(cfg, m, j, Racing(cfg, j, b, l, 0, th, th')))
    ensures r(World(cfg, m, j, Racing(cfg, j, b, l, 0, th', next)))
  {
    Phase(cfg, r, m, j, b, l, l, th, th', pick);
    assert Racing(cfg, j, b, l, l, th, th') == Racing(cfg, j, b, l, 0, th', next);
  }

  lemma RacingGrows(cfg: Config, j: nat, b: nat, l: nat, th: StartThread, th': StartThread)
    requires j <= b
    ensures b + l !in Racing(cfg, j, b, l, 0, th, th')
    ensures Racing(cfg, j, b, l, 0, th, th')[b + l := th] == Racing(cfg, j, b, l + 1, 0, th, th')
  {
    var before, after, t: Id := Racing(cfg, j, b, l, 0, th, th'), Racing(cfg, j, b, l + 1, 0, th, th'), b + l;
    forall u: Id
      ensures u in after <==> u in before || u == t
    {
      assert u in after <==> u in Ids(0, j) || u in Ids(b, l + 1);
      assert u in before <==> u in Ids(0, j) || u in Ids(b, l);
    }
    assert forall u | u in before :: before[t := th][u] == after[u];
  }

  lemma {:induction false} BeginAll(cfg: Config, r: State -> bool, m: nat, j: nat, b: nat, l: nat, th: StartThread, th': StartThread)
    requires Preserved(cfg, m, r) && j <= b && th == At(cfg, 0, Picking)
    requires r(World(cfg, m, j, Racing(cfg, j, b, 0, 0, th, th')))
    ensures r(World(cfg, m, j, Racing(cfg, j, b, l, 0, th, th')))
  {
    if l > 0 {
      BeginAll(cfg, r, m, j, b, l - 1, th, th');
      OneMoreBegins(cfg, r, m, j, b, l - 1, th, th');
    }
  }

  lemma OneMoreBegins(cfg: Config, r: State -> bool, m: nat, j: nat, b: nat, l: nat, th: StartThread, th': StartThread)
    requires Preserved(cfg, m, r) && j <= b && th == At(cfg, 0, Picking)
    requires r(World(cfg, m, j, Racing(cfg, j, b, l, 0, th, th')))
    ensures r(World(cfg, m, j, Racing(cfg, j, b, l + 1, 0, th, th')))
  {
    RacingGrows(cfg, j, b, l, th, th');
    ThenBegins(cfg, r, m, j, Racing(cfg, j, b, l, 0, th, th'), b + l);
  }

  lemma WinnersGrow(cfg: Config, j: nat, b: nat, l: nat, th: StartThread, th': StartThread)
    requires j < b
    ensures j !in Racing(cfg, j, b, l, 0, th, th')
    ensures Racing(cfg, j, b, l, 0, th, th')[j := Winning(cfg, j)] == Racing(cfg, j + 1, b, l, 0, th, th')
  {
    var before, after := Racing(cfg, j, b, l, 0, th, th'), Racing(cfg, j + 1, b, l, 0, th, th');
    forall u: Id
      ensures u in after <==> u in before || u == j
    {
      assert u in after <==> u in Ids(0, j + 1) || u in Ids(b, l);
      assert u in before <==> u in Ids(0, j) || u in Ids(b, l);
    }
    assert forall u | u in before :: before[j := Winning(cfg, j)][u] == after[u];
  }

  /** Racer j begins, picks SIM j and takes it. */
  lemma Solo(cfg: Config, r: State -> bool, m: nat, j: nat, b: nat, l: nat, th: StartThread, th': StartThread)
    requires Preserved(cfg, m, r) && cfg.maxPending >= 1 && j < m && j < b
    requires r(World(cfg, m, j, Racing(cfg, j, b, l, 0, th, th')))
    ensures r(World(cfg, m, j + 1, Racing(cfg, j + 1, b, l, 0, th, th')))
  {
    WinnersGrow(cfg, j, b, l, th, th');
    SoloOn(cfg, r, m, j, Racing(cfg, j, b, l, 0, th, th'));
  }

  lemma SoloOn(cfg: Config, r: State -> bool, m: nat, j: nat, starts: map<Id, StartThread>)
    requires Preserved(cfg, m, r) && cfg.maxPending >= 1 && j < m && j !in starts
    requires r(World(cfg, m, j, starts))
    ensures r(World(cfg, m, j + 1, starts[j := Winning(cfg, j)]))
  {
    var picking, creating := At(cfg, 0, Picking), At(cfg, 0, Creating(j, Msisdn(j)));
    ThenBegins(cfg, r, m, j, starts, j);
    PicksNext(cfg, m, j, 0);
    ThenTakes(cfg, r, m, j, starts[j := picking], j, picking, creating, Some(j));
    assert starts[j := picking][j := creating] == starts[j := creating];
    ThenInserts(cfg, r, m, j, starts[j := creating], j);
    assert starts[j := creating][j := Winning(cfg, j)] == starts[j := Winning(cfg, j)];
  }

  // ---------------------------------------------------------------- as many winners as possible

  lemma NoneRacing(cfg: Config, b: nat, th: StartThread, th': StartThread)
    ensures Racing(cfg, 0, b, 0, 0, th, th') == map[]
  {
    assert Racing(cfg, 0, b, 0, 0, th, th').Keys == {};
  }

  lemma {:induction false} Solos(cfg: Config, r: State -> bool, m: nat, j: nat, b: nat, th: StartThread, th': StartThread)
    requires Preserved(cfg, m, r) && cfg.maxPending >= 1 && j <= m && j <= b
    ensures r(World(cfg, m, j, Racing(cfg, j, b, 0, 0, th, th')))
  {
    if j == 0 {
      NoneRacing(cfg, b, th, th');
    } else {
      Solos(cfg, r, m, j - 1, b, th, th');
      Solo(cfg, r, m, j - 1, b, 0, th, th');
    }
  }

  /** w winners, and l losers after them. */
  function Finish(cfg: Config, m: nat, w: nat, l: nat, attempt: nat): State {
    World(cfg, m, w, Racing(cfg, w, w, l, 0, At(cfg, attempt, StartDone(Lost(m))), At(cfg, attempt, StartDone(Lost(m)))))
  }

  lemma ManyReached(cfg: Config, r: State -> bool, n: nat, m: nat)
    requires Preserved(cfg, m, r) && cfg.maxPending >= 1
    ensures var w := Min(n, m); r(Finish(cfg, m, w, n - w, 0))
  {
    var w, picking, counting, lost := Min(n, m), At(cfg, 0, Picking), At(cfg, 0, Counting), At(cfg, 0, StartDone(Lost(m)));
    if n > m {
      Solos(cfg, r, m, w, w, picking, counting);
      BeginAll(cfg, r, m, w, w, n - w, picking, counting);
      PicksNothing(cfg, m);
      FullPhase(cfg, r, m, w, w, n - w, picking, counting, lost, None);
      GivesUp(cfg, m, w, 0);
      FullPhase(cfg, r, m, w, w, n - w, counting, lost, lost, None);
    } else {
      Solos(cfg, r, m, w, w, lost, lost);
    }
  }

  // ---------------------------------------------------------------- as few winners as possible

  /** The losers pick SIM j, racer j takes it, and the losers' inserts fail. */
  lemma Round(cfg: Config, r: State -> bool, m: nat, j: nat, b: nat, l: nat,
              picking: StartThread, creating: StartThread, retried: StartThread, next: StartThread)
    requires Preserved(cfg, m, r) && cfg.maxPending >= 1 && j < m && j < b
    requires Takes(cfg, m, j, picking, creating, Some(j)) && Takes(cfg, m, j + 1, creating, retried, None)
    requires r(World(cfg, m, j, Racing(cfg, j, b, l, 0, picking, creating)))
    ensures r(World(cfg, m, j + 1, Racing(cfg, j + 1, b, l, 0, retried, next)))
  {
    FullPhase(cfg, r, m, j, b, l, picking, creating, retried, Some(j));
    Solo(cfg, r, m, j, b, l, creating, retried);
    FullPhase(cfg, r, m, j + 1, b, l, creating, retried, next, None);
  }

  function Holding(cfg: Config, j: nat): StartThread { At(cfg, j, Creating(j, Msisdn(j))) }

  lemma RoundTakes(cfg: Config, m: nat, j: nat)
    requires cfg.maxPending >= 1 && j < m && j < MAX_START_ATTEMPTS
    ensures Takes(cfg, m, j, After(cfg, j), Holding(cfg, j), Some(j))
    ensures Takes(cfg, m, j + 1, Holding(cfg, j), After(cfg, j + 1), None)
  {
    PicksNext(cfg, m, j, j);
    LosesInsert(cfg, m, j + 1, j, j);
  }

  lemma BeginFrom(cfg: Config, r: State -> bool, m: nat, b: nat, l: nat, th: StartThread, th': StartThread)
    requires Preserved(cfg, m, r) && th == At(cfg, 0, Picking)
    ensures r(World(cfg, m, 0, Racing(cfg, 0, b, l, 0, th, th')))
  {
    NoneRacing(cfg, b, th, th');
    BeginAll(cfg, r, m, 0, b, l, th, th');
  }

  /** After j of the losers' eight attempts. */
  lemma {:induction false} Rounds(cfg: Config, r: State -> bool, m: nat, j: nat, b: nat, l: nat, next: StartThread)
    requires Preserved(cfg, m, r) && cfg.maxPending >= 1 && j <= b && b <= m && b <= MAX_START_ATTEMPTS
    ensures r(World(cfg, m, j, Racing(cfg, j, b, l, 0, After(cfg, j), next)))
  {
    if j == 0 {
      BeginFrom(cfg, r, m, b, l, After(cfg, 0), next);
    } else {
      Rounds(cfg, r, m, j - 1, b, l, Holding(cfg, j - 1));
      OneMoreRound(cfg, r, m, j - 1, b, l, next);
    }
  }

  lemma OneMoreRound(cfg: Config, r: State -> bool, m: nat, j: nat, b: nat, l: nat, next: StartThread)
    requires Preserved(cfg, m, r) && cfg.maxPending >= 1 && j < b && b <= m && b <= MAX_START_ATTEMPTS
    requires r(World(cfg, m, j, Racing(cfg, j, b, l, 0, After(cfg, j), Holding(cfg, j))))
    ensures r(World(cfg, m, j + 1, Racing(cfg, j + 1, b, l, 0, After(cfg, j + 1), next)))
  {
    RoundTakes(cfg, m, j);
    Round(cfg, r, m, j, b, l, After(cfg, j), Holding(cfg, j), After(cfg, j + 1), next);
  }

  lemma FewReached(cfg: Config, r: State -> bool, l: nat, m: nat)
    requires Preserved(cfg, m, r) && cfg.maxPending >= 1 && m >= MAX_START_ATTEMPTS
    ensures r(Finish(cfg, m, MAX_START_ATTEMPTS, l, MAX_START_ATTEMPTS))
  {
    var w := MAX_START_ATTEMPTS;
    var counting, lost := At(cfg, w, Counting), At(cfg, w, StartDone(Lost(m)));
    Rounds(cfg, r, m, w, w, l, lost);
    assert After(cfg, w) == counting;
    GivesUp(cfg, m, w, w);
    FullPhase(cfg, r, m, w, w, l, counting, lost, lost, None);
  }

  // ---------------------------------------------------------------- main result

  ghost predicate IsReachable(cfg: Config, s: State) { exists acts: seq<Action> :: Exec(cfg, acts) == s }

  lemma StepReaches(cfg: Config, s: State, a: Action)
    requires IsReachable(cfg, s)
    ensures IsReachable(cfg, Apply(cfg, s, a))
  {
    var acts: seq<Action> :| Exec(cfg, acts) == s;
    assert (acts + [a])[..|acts|] == acts;
    assert Exec(cfg, acts + [a]) == Apply(cfg, s, a);
  }

  lemma AddsNumber(cfg: Config, m: nat)
    ensures Apply(cfg, World(cfg, m, 0, map[]), AddNumber(m, Number(0, Msisdn(m), {Call}, true))) == World(cfg, m + 1, 0, map[])
  {
    var s := World(cfg, m, 0, map[]);
    assert m !in s.usedNumbers;
    forall n | n in s.db.numbers
      ensures s.db.numbers[n].msisdn != Msisdn(m)
    {
      assert |Msisdn(n)| == n && |Msisdn(m)| == m;
    }
    assert Ids(0, m + 1) == Ids(0, m) + {m};
    assert s.db.numbers[m := Number(0, Msisdn(m), {Call}, true)] == Pool(cfg, m + 1, 0).numbers;
  }

  /** The SIMs are registered one by one. */
  lemma {:induction false} PoolReached(cfg: Config, m: nat)
    ensures IsReachable(cfg, World(cfg, m, 0, map[]))
  {
    if m == 0 {
      EmptyPoolReached(cfg);
    } else {
      PoolReached(cfg, m - 1);
      AddsNumber(cfg, m - 1);
      StepReaches(cfg, World(cfg, m - 1, 0, map[]), AddNumber(m - 1, Number(0, Msisdn(m - 1), {Call}, true)));
    }
  }

  lemma EmptyPoolReached(cfg: Config)
    ensures IsReachable(cfg, World(cfg, 0, 0, map[]))
  {
    var s1 := INIT.(db := EMPTY.(devices := map[0 := Device(false)]));
    assert Exec(cfg, []) == INIT;
    StepReaches(cfg, INIT, AddDevice(0));
    StepReaches(cfg, s1, Heartbeat(0));
    assert Ids(0, 0) == {};
    assert Pool(cfg, 0, 0) == EMPTY.(devices := map[0 := Device(true)]);
  }

  /** A finished race of n racers over m free SIMs, from a reachable state. */
  ghost predicate IsFinishedRace(cfg: Config, s0: State, acts: seq<Action>, n: nat, m: nat) {
    && IsReachable(cfg, s0) && IsRace(cfg, s0, acts) && AllFinished(s0, ExecFrom(cfg, s0, acts))
    && |Racers(s0, ExecFrom(cfg, s0, acts))| == n && |FreeSims(cfg, s0)| == m
  }

  lemma FinishedRacer(cfg: Config, m: nat, w: nat, l: nat, attempt: nat, t: Id)
    ensures var starts := Finish(cfg, m, w, l, attempt).starts;
      && (t in starts <==> t in Ids(0, w + l))
      && (t in starts ==> starts[t].pc.StartDone? && (HasWon(starts[t]) <==> t in Ids(0, w)))
  {
    assert t in Finish(cfg, m, w, l, attempt).starts <==> t in Ids(0, w) || t in Ids(w, l);
    assert !Lost(m).Started?;
  }

  lemma FinishedRacers(cfg: Config, m: nat, w: nat, l: nat, attempt: nat)
    ensures var s0, s := World(cfg, m, 0, map[]), Finish(cfg, m, w, l, attempt);
      AllFinished(s0, s) && |Racers(s0, s)| == w + l && |Winners(s0, s)| == w
  {
    var s0, s := World(cfg, m, 0, map[]), Finish(cfg, m, w, l, attempt);
    forall t: Id
      ensures t in Racers(s0, s) <==> t in Ids(0, w + l)
      ensures t in Winners(s0, s) <==> t in Ids(0, w)
      ensures t in Racers(s0, s) ==> s.starts[t].pc.StartDone?
    {
      FinishedRacer(cfg, m, w, l, attempt, t);
    }
    assert Racers(s0, s) == Ids(0, w + l) && Winners(s0, s) == Ids(0, w);
    IdsCount(0, w + l);
    IdsCount(0, w);
  }

  lemma AllFree(cfg: Config, m: nat)
    requires cfg.maxPending >= 1
    ensures |FreeSims(cfg, World(cfg, m, 0, map[]))| == m
  {
    forall n
      ensures n in FreeSims(cfg, World(cfg, m, 0, map[])) <==> n in Ids(0, m)
    {
      Offers(cfg, m, 0, n);
    }
    assert FreeSims(cfg, World(cfg, m, 0, map[])) == Ids(0, m);
    IdsCount(0, m);
  }

  lemma FinishedBy(cfg: Config, m: nat, w: nat, l: nat, attempt: nat, acts: seq<Action>)
    requires cfg.maxPending >= 1 && ReachedBy(cfg, World(cfg, m, 0, map[]), acts, Finish(cfg, m, w, l, attempt))
    ensures var s0 := World(cfg, m, 0, map[]);
      IsFinishedRace(cfg, s0, acts, w + l, m) && |Winners(s0, ExecFrom(cfg, s0, acts))| == w
  {
    FinishedRacers(cfg, m, w, l, attempt);
    AllFree(cfg, m);
    PoolReached(cfg, m);
  }

  ghost predicate ReachedBy(cfg: Config, s0: State, acts: seq<Action>, s: State) { IsRace(cfg, s0, acts) && ExecFrom(cfg, s0, acts) == s }

  lemma OneMore(cfg: Config, s0: State, acts: seq<Action>, s: State, a: Action)
    requires ReachedBy(cfg, s0, acts, s) && RaceStep(cfg, s, a)
    ensures ReachedBy(cfg, s0, acts + [a], Apply(cfg, s, a))
  {
    var next := acts + [a];
    assert next[..|acts|] == acts;
    forall i | 0 <= i < |next|
      ensures RaceStep(cfg, ExecFrom(cfg, s0, next[..i]), next[i])
    {
      assert next[..i] == acts[..i];
      if i == |acts| { assert acts[..i] == acts; }
    }
  }

  /** Any property that races preserve holds at the end; so the end is reached by a race. */
  lemma RaceTo(cfg: Config, m: nat) returns (r: State -> bool)
    ensures Preserved(cfg, m, r)
    ensures forall s | r(s) :: exists acts :: ReachedBy(cfg, World(cfg, m, 0, map[]), acts, s)
  {
    var s0 := World(cfg, m, 0, map[]);
    r := s => exists run: seq<Action> :: ReachedBy(cfg, s0, run, s);
    assert ReachedBy(cfg, s0, [], s0);
    forall s, a | r(s) && RaceStep(cfg, s, a)
      ensures r(Apply(cfg, s, a))
    {
      var run: seq<Action> :| ReachedBy(cfg, s0, run, s);
      OneMore(cfg, s0, run, s, a);
    }
  }

  lemma MostWinners(cfg: Config, n: nat, m: nat) returns (s0: State, acts: seq<Action>)
    requires cfg.maxPending >= 1
    ensures IsFinishedRace(cfg, s0, acts, n, m) && |Winners(s0, ExecFrom(cfg, s0, acts))| == Min(n, m)
  {
    var w := Min(n, m);
    s0 := World(cfg, m, 0, map[]);
    acts := RunOfMany(cfg, n, m);
    FinishedBy(cfg, m, w, n - w, 0, acts);
  }

  lemma RunOfMany(cfg: Config, n: nat, m: nat) returns (acts: seq<Action>)
    requires cfg.maxPending >= 1
    ensures var w := Min(n, m); ReachedBy(cfg, World(cfg, m, 0, map[]), acts, Finish(cfg, m, w, n - w, 0))
  {
    var r := RaceTo(cfg, m);
    ManyReached(cfg, r, n, m);
    acts :| ReachedBy(cfg, World(cfg, m, 0, map[]), acts, Finish(cfg, m, Min(n, m), n - Min(n, m), 0));
  }

  lemma RunOfFew(cfg: Config, l: nat, m: nat) returns (acts: seq<Action>)
    requires cfg.maxPending >= 1 && m >= MAX_START_ATTEMPTS
    ensures ReachedBy(cfg, World(cfg, m, 0, map[]), acts, Finish(cfg, m, MAX_START_ATTEMPTS, l, MAX_START_ATTEMPTS))
  {
    var r := RaceTo(cfg, m);
    FewReached(cfg, r, l, m);
    acts :| ReachedBy(cfg, World(cfg, m, 0, map[]), acts, Finish(cfg, m, MAX_START_ATTEMPTS, l, MAX_START_ATTEMPTS));
  }

  lemma FewestWinners(cfg: Config, n: nat, m: nat) returns (s0: State, acts: seq<Action>)
    requires cfg.maxPending >= 1
    ensures IsFinishedRace(cfg, s0, acts, n, m) && |Winners(s0, ExecFrom(cfg, s0, acts))| == Min(Min(n, m), 8)
  {
    if n <= MAX_START_ATTEMPTS || m <= MAX_START_ATTEMPTS {
      s0, acts := MostWinners(cfg, n, m);
    } else {
      s0 := World(cfg, m, 0, map[]);
      acts := RunOfFew(cfg, n - MAX_START_ATTEMPTS, m);
      FinishedBy(cfg, m, MAX_START_ATTEMPTS, n - MAX_START_ATTEMPTS, MAX_START_ATTEMPTS, acts);
    }
  }

  /** Every finished race of n racers over m free SIMs has between lo and hi winners. */
  ghost predicate WinnersWithin(cfg: Config, n: nat, m: nat, lo: int, hi: int) {
    forall s0, acts | IsFinishedRace(cfg, s0, acts, n, m) :: lo <= |Winners(s0, ExecFrom(cfg, s0, acts))| <= hi
  }

  /** The best bounds on the winners are min(N, M, 8) and min(N, M). */
  lemma WinnerBoundsAreExact(cfg: Config, n: nat, m: nat, lo: int, hi: int)
    requires cfg.maxPending >= 1
    ensures WinnersWithin(cfg, n, m, lo, hi) <==> lo <= Min(Min(n, m), 8) && Min(n, m) <= hi
  {
    if lo <= Min(Min(n, m), 8) && Min(n, m) <= hi {
      forall s0, acts | IsFinishedRace(cfg, s0, acts, n, m)
        ensures lo <= |Winners(s0, ExecFrom(cfg, s0, acts))| <= hi
      {
        WinnerBounds(cfg, s0, acts);
      }
    } else {
      var s0, acts := MostWinners(cfg, n, m);
      var s0', acts' := FewestWinners(cfg, n, m);
    }
  }
}
