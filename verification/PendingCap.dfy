/**
 The per-number cap on pending sessions (store/sqlite.go PickNumber, store/store.go).

 The cap is read when a number is picked and not again when the session is inserted, so it
 holds only up to the number of starts that overlap.
 */
module PendingCap {
  import opened Wrappers
  import opened Store
  import opened Protocol
  import SessionRules
  import Codes

  function InFlight(s: State): set<Id> { set t | t in s.starts && StartInFlight(s.starts[t]) }

  /** Starts that have picked number n and not yet inserted. */
  function Holding(s: State, n: Id): set<Id> {
    set t | t in s.starts && s.starts[t].pc.Creating? && s.starts[t].pc.number == n
  }

  /** At every moment of the run at most k starts are in flight. */
  ghost predicate OverlapWithin(cfg: Config, acts: seq<Action>, k: nat) {
    forall i | 0 <= i <= |acts| :: |InFlight(Exec(cfg, acts[..i]))| <= k
  }

  ghost predicate Capped(cfg: Config, s: State, k: nat) {
    forall n: Id :: |PendingOn(s.db, n)| + |Holding(s, n)| <= cfg.maxPending - 1 + k
  }

  lemma HoldersAreInFlight(s: State, n: Id)
    ensures |Holding(s, n)| <= |InFlight(s)|
  {
    SubsetBound(Holding(s, n), InFlight(s));
  }

  /** A step that neither picks nor inserts cannot raise either count. */
  lemma CountsDoNotGrow(s: State, s': State, n: Id)
    requires s'.db.sessions.Keys == s.db.sessions.Keys
    requires SessionRules.AllEvolve(s.db.sessions, s'.db.sessions)
    requires Holding(s', n) <= Holding(s, n)
    ensures |PendingOn(s'.db, n)| + |Holding(s', n)| <= |PendingOn(s.db, n)| + |Holding(s, n)|
  {
    forall sid | sid in PendingOn(s'.db, n)
      ensures sid in PendingOn(s.db, n)
    {
      assert SessionRules.Evolves(s.db.sessions[sid], s'.db.sessions[sid]);
    }
    SubsetBound(PendingOn(s'.db, n), PendingOn(s.db, n));
    SubsetBound(Holding(s', n), Holding(s, n));
  }

  lemma PickKeepsCap(cfg: Config, s: State, t: Id, n: Id, k: nat)
    requires Capped(cfg, s, k) && t in s.starts && s.starts[t].pc.Picking?
    requires IsPick(s.db, cfg.maxPending, s.starts[t].plan.channel, Some(n))
    requires |InFlight(StepStart(cfg, s, t, Some(n), 0, ""))| <= k
    ensures Capped(cfg, StepStart(cfg, s, t, Some(n), 0, ""), k)
  {
    var s' := StepStart(cfg, s, t, Some(n), 0, "");
    forall m: Id
      ensures |PendingOn(s'.db, m)| + |Holding(s', m)| <= cfg.maxPending - 1 + k
    {
      if m == n {
        HoldersAreInFlight(s', n);
      } else {
        assert Holding(s', m) == Holding(s, m);
      }
    }
  }

  lemma HolderLeaves(s: State, s': State, t: Id, m: Id)
    requires t in s.starts && s.starts[t].pc.Creating?
    requires t in s'.starts && s'.starts == s.starts[t := s'.starts[t]] && !s'.starts[t].pc.Creating?
    ensures |Holding(s', m)| == |Holding(s, m)| - (if s.starts[t].pc.number == m then 1 else 0)
  {
    var held := if s.starts[t].pc.number == m then {t} else {};
    assert Holding(s, m) == Holding(s', m) + held;
  }

  lemma PendingAfterInsert(db: Db, sid: Id, sess: Session, m: Id)
    requires sid !in db.sessions
    ensures |PendingOn(Insert(db, sid, sess), m)| <= |PendingOn(db, m)| + (if sess.number == Some(m) then 1 else 0)
  {
    SubsetBound(PendingOn(Insert(db, sid, sess), m), PendingOn(db, m) + (if sess.number == Some(m) then {sid} else {}));
  }

  /** Inserting on n trades one holder of n for one pending session; a conflict just drops the holder. */
  lemma CreateTrades(cfg: Config, s: State, t: Id, sid: Id, code: string, m: Id)
    requires t in s.starts && s.starts[t].pc.Creating?
    ensures var s' := StepStart(cfg, s, t, None, sid, code);
      |PendingOn(s'.db, m)| + |Holding(s', m)| <= |PendingOn(s.db, m)| + |Holding(s, m)|
  {
    var s' := StepStart(cfg, s, t, None, sid, code);
    if s' != s {
      HolderLeaves(s, s', t, m);
      if s'.db != s.db {
        PendingAfterInsert(s.db, sid, Candidate(s.starts[t].plan, s.starts[t].pc.number, code, s.now), m);
      }
    }
  }

  lemma CreateKeepsCap(cfg: Config, s: State, t: Id, sid: Id, code: string, k: nat)
    requires Capped(cfg, s, k) && t in s.starts && s.starts[t].pc.Creating?
    ensures Capped(cfg, StepStart(cfg, s, t, None, sid, code), k)
  {
    forall m: Id
      ensures var s' := StepStart(cfg, s, t, None, sid, code);
        |PendingOn(s'.db, m)| + |Holding(s', m)| <= cfg.maxPending - 1 + k
    {
      CreateTrades(cfg, s, t, sid, code, m);
    }
  }

  lemma OtherStepsKeepCap(cfg: Config, s: State, a: Action, k: nat)
    requires Capped(cfg, s, k)
    requires a.StartStep? && a.t in s.starts ==> s.starts[a.t].pc.Counting? || s.starts[a.t].pc.StartDone?
    ensures Capped(cfg, Apply(cfg, s, a), k)
  {
    var s' := Apply(cfg, s, a);
    SessionRules.SessionsEvolve(cfg, s, a);
    if a.InboundStep? { InboundFrame(cfg, s, a.t, a.yes, a.pick); }
    forall n: Id
      ensures |PendingOn(s'.db, n)| + |Holding(s', n)| <= cfg.maxPending - 1 + k
    {
      CountsDoNotGrow(s, s', n);
    }
  }

  lemma CappedStep(cfg: Config, s: State, a: Action, k: nat)
    requires Capped(cfg, s, k) && |InFlight(Apply(cfg, s, a))| <= k
    ensures Capped(cfg, Apply(cfg, s, a), k)
  {
    if a.StartStep? && a.t in s.starts && s.starts[a.t].pc.Picking? {
      if a.pick.Some? && IsPick(s.db, cfg.maxPending, s.starts[a.t].plan.channel, a.pick) {
        assert StepStart(cfg, s, a.t, a.pick, a.sid, a.code) == StepStart(cfg, s, a.t, Some(a.pick.value), 0, "");
        PickKeepsCap(cfg, s, a.t, a.pick.value, k);
      } else {
        var s' := Apply(cfg, s, a);
        forall n: Id
          ensures |PendingOn(s'.db, n)| + |Holding(s', n)| <= cfg.maxPending - 1 + k
        {
          CountsDoNotGrow(s, s', n);
        }
      }
    } else if a.StartStep? && a.t in s.starts && s.starts[a.t].pc.Creating? {
      assert StepStart(cfg, s, a.t, a.pick, a.sid, a.code) == StepStart(cfg, s, a.t, None, a.sid, a.code);
      CreateKeepsCap(cfg, s, a.t, a.sid, a.code, k);
    } else {
      OtherStepsKeepCap(cfg, s, a, k);
    }
  }

  /**
   If at most k starts are ever in flight, pending sessions on a number plus the starts about to
   add one stay within maxPending - 1 + k.
   */
  lemma {:induction false} CapUpToOverlap(cfg: Config, acts: seq<Action>, k: nat)
    requires cfg.maxPending >= 1
    requires OverlapWithin(cfg, acts, k)
    ensures Capped(cfg, Exec(cfg, acts), k)
  {
    assert acts[..|acts|] == acts;
    if acts == [] {
      assert forall n: Id :: PendingOn(INIT.db, n) == {} && Holding(INIT, n) == {};
    } else {
      var before := acts[..|acts| - 1];
      assert forall i | 0 <= i <= |before| :: before[..i] == acts[..i];
      CapUpToOverlap(cfg, before, k);
      CappedStep(cfg, Exec(cfg, before), acts[|acts| - 1], k);
    }
  }

  /** Starts that never overlap respect the cap. */
  lemma CapHoldsWithoutOverlap(cfg: Config, acts: seq<Action>, n: Id)
    requires cfg.maxPending >= 1
    requires OverlapWithin(cfg, acts, 1)
    ensures |PendingOn(Exec(cfg, acts).db, n)| <= cfg.maxPending
  {
    CapUpToOverlap(cfg, acts, 1);
    assert |PendingOn(Exec(cfg, acts).db, n)| + |Holding(Exec(cfg, acts), n)| <= cfg.maxPending;
  }

  // ---------------------------------------------------------------- exactly when the cap holds

  /** Runs with at most k starts in flight never exceed the documented cap. */
  ghost predicate CapHolds(cfg: Config, k: nat) {
    forall acts: seq<Action>, n: Id | OverlapWithin(cfg, acts, k) :: |PendingOn(Exec(cfg, acts).db, n)| <= cfg.maxPending
  }

  /** Whatever the cap, it holds for runs with at most k starts in flight only when no two overlap. */
  lemma CapHoldsIffNoOverlap(cfg: Config, k: nat)
    requires cfg.maxPending >= 1
    ensures CapHolds(cfg, k) <==> k <= 1
  {
    if k <= 1 {
      forall acts: seq<Action>, n: Id | OverlapWithin(cfg, acts, k)
        ensures |PendingOn(Exec(cfg, acts).db, n)| <= cfg.maxPending
      {
        OverlapGrows(cfg, acts, k, 1);
        CapHoldsWithoutOverlap(cfg, acts, n);
      }
    } else {
      var acts := Overrun(cfg);
      OverlapGrows(cfg, acts, 2, k);
    }
  }

  lemma OverlapGrows(cfg: Config, acts: seq<Action>, j: nat, k: nat)
    requires OverlapWithin(cfg, acts, j) && j <= k
    ensures OverlapWithin(cfg, acts, k)
  {}

  // ---------------------------------------------------------------- a run that exceeds it

  const SMS_NUMBER := Number(0, "+100", {Sms}, true)

  function Request(cfg: Config): StartRequest { StartRequest(App(7, "", cfg.maxPending + 2, 0, []), "sms", "derive", "") }

  function PlanFor(cfg: Config): Plan { Plan(7, Sms, Derive, None, cfg.maxPending + 2, cfg.defaultTtl) }

  /** i ones and then zeros: distinct for distinct i. */
  function UnaryCode(cfg: Config, i: nat): (code: string)
    ensures |code| == cfg.maxPending + 2 && Codes.AllDigits(code)
  {
    seq(cfg.maxPending + 2, k => if k < i then '1' else '0')
  }

  lemma UnaryCodesDiffer(cfg: Config, i: nat, j: nat)
    requires i < j <= cfg.maxPending + 1
    ensures UnaryCode(cfg, i) != UnaryCode(cfg, j)
  {
    assert UnaryCode(cfg, i)[i] != UnaryCode(cfg, j)[i];
  }

  function Row(cfg: Config, i: nat): Session { Candidate(PlanFor(cfg), 0, UnaryCode(cfg, i), 0) }

  function Won(cfg: Config, i: nat): StartThread { StartThread(PlanFor(cfg), 0, StartDone(Started(i, "+100", UnaryCode(cfg, i)))) }

  function Begun(cfg: Config): StartThread { StartThread(PlanFor(cfg), 0, Picking) }

  function Picked(cfg: Config): StartThread { StartThread(PlanFor(cfg), 0, Creating(0, "+100")) }

  /** The state with starts 0 to n - 1 pending on the one number. */
  function Filled(cfg: Config, n: nat): State {
    var db := Db(map[0 := Device(true)], map[0 := SMS_NUMBER], map i | i in Below(n) :: Row(cfg, i), [], []);
    State(0, db, map i | i in Below(n) :: Won(cfg, i), map[], [], [], {0})
  }

  function Below(n: nat): (ids: set<Id>)
    ensures forall i: Id :: i in ids <==> i < n
    ensures |ids| == n
  {
    if n == 0 then {} else Below(n - 1) + {n - 1}
  }

  lemma FilledLoad(cfg: Config, n: nat)
    ensures PendingOn(Filled(cfg, n).db, 0) == Below(n)
  {}

  /** A start on the filled number, while others may be in flight. */
  lemma PickFilled(cfg: Config, s: State, n: nat, t: Id)
    requires s.db == Filled(cfg, n).db && n < cfg.maxPending && t in s.starts && s.starts[t] == Begun(cfg)
    ensures Apply(cfg, s, StartStep(t, Some(0), 0, "")) == GoStart(s, t, Picked(cfg))
  {
    FilledLoad(cfg, n);
    assert IsPick(s.db, cfg.maxPending, Sms, Some(0));
  }

  lemma NoTwin(cfg: Config, n: nat)
    requires n <= cfg.maxPending
    ensures !Conflicts(Filled(cfg, n).db, Row(cfg, n))
  {
    forall i: Id | i < n
      ensures Row(cfg, i).code != Row(cfg, n).code
    {
      UnaryCodesDiffer(cfg, i, n);
    }
  }

  lemma InsertRow(cfg: Config, n: nat)
    ensures Insert(Filled(cfg, n).db, n, Row(cfg, n)) == Filled(cfg, n + 1).db
  {
    assert Filled(cfg, n).db.sessions[n := Row(cfg, n)] == Filled(cfg, n + 1).db.sessions;
  }

  lemma InsertFilled(cfg: Config, s: State, n: nat)
    requires s.db == Filled(cfg, n).db && s.now == 0 && n <= cfg.maxPending && n in s.starts && s.starts[n] == Picked(cfg)
    ensures Apply(cfg, s, StartStep(n, None, n, UnaryCode(cfg, n))) == GoStart(s, n, Won(cfg, n)).(db := Filled(cfg, n + 1).db)
  {
    NoTwin(cfg, n);
    InsertRow(cfg, n);
    assert n !in s.db.sessions && ValidCode(PlanFor(cfg), UnaryCode(cfg, n));
  }

  lemma BeginFilled(cfg: Config, s: State, t: Id)
    requires s.now == 0 && t !in s.starts
    ensures Apply(cfg, s, BeginStart(t, Request(cfg))) == GoStart(s, t, Begun(cfg))
  {
    assert PlanOf(cfg, Request(cfg), 0) == Some(PlanFor(cfg));
  }

  // The states below are shown to satisfy any property r that runs of little overlap preserve.

  ghost predicate Preserved(cfg: Config, r: State -> bool) {
    r(INIT) && forall s, a {:trigger Apply(cfg, s, a)} | r(s) && |InFlight(Apply(cfg, s, a))| <= 2 :: r(Apply(cfg, s, a))
  }

  /** No start but n and n + 1 is in flight. */
  ghost predicate OnlyTwo(s: State, n: Id) {
    forall t | t in s.starts && t != n && t != n + 1 :: s.starts[t].pc.StartDone?
  }

  lemma Then(cfg: Config, r: State -> bool, s: State, a: Action, s': State, n: Id)
    requires Preserved(cfg, r) && r(s) && Apply(cfg, s, a) == s' && OnlyTwo(s', n)
    ensures r(s')
  {
    SubsetBound(InFlight(s'), {n, n + 1});
  }

  lemma ThenBegin(cfg: Config, r: State -> bool, s: State, t: Id, n: Id)
    requires Preserved(cfg, r) && r(s) && s.now == 0 && t !in s.starts
    requires (t == n || t == n + 1) && OnlyTwo(s, n)
    ensures r(GoStart(s, t, Begun(cfg)))
  {
    BeginFilled(cfg, s, t);
    Then(cfg, r, s, BeginStart(t, Request(cfg)), GoStart(s, t, Begun(cfg)), n);
  }

  lemma ThenPick(cfg: Config, r: State -> bool, s: State, t: Id, n: Id)
    requires Preserved(cfg, r) && r(s)
    requires s.db == Filled(cfg, n).db && n < cfg.maxPending && t in s.starts && s.starts[t] == Begun(cfg)
    requires (t == n || t == n + 1) && OnlyTwo(s, n)
    ensures r(GoStart(s, t, Picked(cfg)))
  {
    PickFilled(cfg, s, n, t);
    Then(cfg, r, s, StartStep(t, Some(0), 0, ""), GoStart(s, t, Picked(cfg)), n);
  }

  lemma ThenInsert(cfg: Config, r: State -> bool, s: State, t: Id, n: Id)
    requires Preserved(cfg, r) && r(s)
    requires s.db == Filled(cfg, t).db && s.now == 0 && t <= cfg.maxPending && t in s.starts && s.starts[t] == Picked(cfg)
    requires (t == n || t == n + 1) && OnlyTwo(s, n)
    ensures r(GoStart(s, t, Won(cfg, t)).(db := Filled(cfg, t + 1).db))
  {
    InsertFilled(cfg, s, t);
    Then(cfg, r, s, StartStep(t, None, t, UnaryCode(cfg, t)), GoStart(s, t, Won(cfg, t)).(db := Filled(cfg, t + 1).db), n);
  }

  lemma SetupReaches(cfg: Config, r: State -> bool)
    requires Preserved(cfg, r)
    ensures r(Filled(cfg, 0))
  {
    var s1 := INIT.(db := EMPTY.(devices := map[0 := Device(false)]));
    var s2 := INIT.(db := EMPTY.(devices := map[0 := Device(true)]));
    Then(cfg, r, INIT, AddDevice(0), s1, 0);
    Then(cfg, r, s1, Heartbeat(0), s2, 0);
    Then(cfg, r, s2, AddNumber(0, SMS_NUMBER), Filled(cfg, 0), 0);
  }

  /** Starts 0 to n - 1, one after the other. */
  lemma {:induction false} FillReaches(cfg: Config, r: State -> bool, n: nat)
    requires Preserved(cfg, r) && n <= cfg.maxPending
    ensures r(Filled(cfg, n))
  {
    if n == 0 {
      SetupReaches(cfg, r);
    } else {
      FillReaches(cfg, r, n - 1);
      SoloReaches(cfg, r, n - 1);
    }
  }

  lemma SoloPicks(cfg: Config, r: State -> bool, i: nat)
    requires Preserved(cfg, r) && i < cfg.maxPending && r(Filled(cfg, i))
    ensures r(GoStart(GoStart(Filled(cfg, i), i, Begun(cfg)), i, Picked(cfg)))
  {
    var begun := GoStart(Filled(cfg, i), i, Begun(cfg));
    ThenBegin(cfg, r, Filled(cfg, i), i, i);
    ThenPick(cfg, r, begun, i, i);
  }

  lemma SoloReaches(cfg: Config, r: State -> bool, i: nat)
    requires Preserved(cfg, r) && i < cfg.maxPending && r(Filled(cfg, i))
    ensures r(Filled(cfg, i + 1))
  {
    var picked := GoStart(GoStart(Filled(cfg, i), i, Begun(cfg)), i, Picked(cfg));
    SoloPicks(cfg, r, i);
    ThenInsert(cfg, r, picked, i, i);
    assert picked.starts[i := Won(cfg, i)] == Filled(cfg, i + 1).starts;
  }

  /** Starts n and n + 1 beside n finished ones. */
  function Two(cfg: Config, n: nat, a: StartThread, b: StartThread): State { GoStart(GoStart(Filled(cfg, n), n, a), n + 1, b) }

  lemma TwoFacts(cfg: Config, n: nat, a: StartThread, b: StartThread)
    ensures var s := Two(cfg, n, a, b);
      && OnlyTwo(s, n) && s.db == Filled(cfg, n).db && s.now == 0
      && n in s.starts && s.starts[n] == a && n + 1 in s.starts && s.starts[n + 1] == b
    ensures forall c :: GoStart(Two(cfg, n, a, b), n, c) == Two(cfg, n, c, b)
    ensures forall c :: GoStart(Two(cfg, n, a, b), n + 1, c) == Two(cfg, n, a, c)
  {
    var starts: map<Id, StartThread> := Filled(cfg, n).starts;
    var m: Id := n + 1;
    forall c
      ensures GoStart(Two(cfg, n, a, b), n, c) == Two(cfg, n, c, b)
      ensures GoStart(Two(cfg, n, a, b), n + 1, c) == Two(cfg, n, a, c)
    {
      assert starts[n := a][m := b][n := c] == starts[n := c][m := b];
      assert starts[n := a][m := b][m := c] == starts[n := a][m := c];
    }
  }

  lemma BothBegin(cfg: Config, r: State -> bool, n: nat)
    requires Preserved(cfg, r) && r(Filled(cfg, n))
    ensures r(Two(cfg, n, Begun(cfg), Begun(cfg)))
  {
    var s := Filled(cfg, n);
    ThenBegin(cfg, r, s, n, n);
    ThenBegin(cfg, r, GoStart(s, n, Begun(cfg)), n + 1, n);
  }

  lemma BothPick(cfg: Config, r: State -> bool, n: nat)
    requires Preserved(cfg, r) && n < cfg.maxPending && r(Two(cfg, n, Begun(cfg), Begun(cfg)))
    ensures r(Two(cfg, n, Picked(cfg), Picked(cfg)))
  {
    TwoFacts(cfg, n, Begun(cfg), Begun(cfg));
    TwoFacts(cfg, n, Picked(cfg), Begun(cfg));
    ThenPick(cfg, r, Two(cfg, n, Begun(cfg), Begun(cfg)), n, n);
    ThenPick(cfg, r, Two(cfg, n, Picked(cfg), Begun(cfg)), n + 1, n);
  }

  lemma BothInsert(cfg: Config, r: State -> bool, n: nat) returns (last: State)
    requires Preserved(cfg, r) && n < cfg.maxPending && r(Two(cfg, n, Picked(cfg), Picked(cfg)))
    ensures r(last) && last.db == Filled(cfg, n + 2).db
  {
    TwoFacts(cfg, n, Picked(cfg), Picked(cfg));
    TwoFacts(cfg, n, Won(cfg, n), Picked(cfg));
    ThenInsert(cfg, r, Two(cfg, n, Picked(cfg), Picked(cfg)), n, n);
    last := Two(cfg, n, Won(cfg, n), Picked(cfg)).(db := Filled(cfg, n + 1).db);
    ThenInsert(cfg, r, last, n + 1, n);
    last := GoStart(last, n + 1, Won(cfg, n + 1)).(db := Filled(cfg, n + 2).db);
  }

  /** Fill up to one short of the cap, then let two starts pick before either inserts. */
  lemma OverrunReaches(cfg: Config, r: State -> bool) returns (last: State)
    requires Preserved(cfg, r) && cfg.maxPending >= 1
    ensures r(last) && |PendingOn(last.db, 0)| == cfg.maxPending + 1
  {
    last := TwoMore(cfg, r, cfg.maxPending - 1);
    LoadOf(cfg, last.db, cfg.maxPending - 1 + 2);
  }

  lemma LoadOf(cfg: Config, db: Db, n: nat)
    requires db == Filled(cfg, n).db
    ensures |PendingOn(db, 0)| == n
  {
    FilledLoad(cfg, n);
  }

  lemma TwoMore(cfg: Config, r: State -> bool, n: nat) returns (last: State)
    requires Preserved(cfg, r) && n < cfg.maxPending
    ensures r(last) && last.db == Filled(cfg, n + 2).db
  {
    FillReaches(cfg, r, n);
    BothBegin(cfg, r, n);
    BothPick(cfg, r, n);
    last := BothInsert(cfg, r, n);
  }

  ghost predicate ReachedBy(cfg: Config, acts: seq<Action>, s: State) { Exec(cfg, acts) == s && OverlapWithin(cfg, acts, 2) }

  lemma OverlapExtends(cfg: Config, acts: seq<Action>, s: State, a: Action)
    requires ReachedBy(cfg, acts, s) && |InFlight(Apply(cfg, s, a))| <= 2
    ensures ReachedBy(cfg, acts + [a], Apply(cfg, s, a))
  {
    var next := acts + [a];
    assert next[..|acts|] == acts;
    forall i | 0 <= i <= |next|
      ensures |InFlight(Exec(cfg, next[..i]))| <= 2
    {
      if i <= |acts| { assert next[..i] == acts[..i]; } else { assert next[..i] == next; }
    }
  }

  /** A run with never more than two starts in flight, and one pending session too many. */
  lemma Overrun(cfg: Config) returns (acts: seq<Action>)
    requires cfg.maxPending >= 1
    ensures OverlapWithin(cfg, acts, 2) && |PendingOn(Exec(cfg, acts).db, 0)| == cfg.maxPending + 1
  {
    var r: State -> bool := s => exists run: seq<Action> :: ReachedBy(cfg, run, s);
    assert r(INIT) by {
      assert InFlight(INIT) == {};
      assert ReachedBy(cfg, [], INIT);
    }
    forall s, a | r(s) && |InFlight(Apply(cfg, s, a))| <= 2
      ensures r(Apply(cfg, s, a))
    {
      var run: seq<Action> :| ReachedBy(cfg, run, s);
      OverlapExtends(cfg, run, s, a);
    }
    var last := OverrunReaches(cfg, r);
    acts :| ReachedBy(cfg, acts, last);
  }
}
