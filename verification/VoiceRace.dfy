/**
 Concurrent missed-call starts racing for SIMs (verify/service.go Start, the voice index of
 store/sqlite.go): how many win, and what the losers are told.

 A race begins in any state without a start in flight and runs any interleaving of missed-call
 starts, clock ticks and inbound steps that verify nothing. Each lost insert shows one more SIM
 to be taken, which is what bounds the losers' eight attempts.
 */
module VoiceRace {
  import opened Wrappers
  import opened Store
  import opened Protocol

  // ---------------------------------------------------------------- the race

  ghost predicate IsCallRequest(cfg: Config, req: StartRequest) {
    PlanOf(cfg, req, 0).Some? && PlanOf(cfg, req, 0).value.channel == Call
  }

  ghost predicate RaceStep(cfg: Config, s: State, a: Action) {
    match a
    case Tick(_) => true
    case BeginStart(_, req) => IsCallRequest(cfg, req)
    case StartStep(_, _, _, _) => true
    case BeginInbound(_, _) => true
    case InboundStep(t, _, _) => t in s.inbounds ==> !s.inbounds[t].pc.Verifying?
    case _ => false
  }

  ghost predicate IsRace(cfg: Config, s0: State, acts: seq<Action>) {
    && (forall t | t in s0.starts :: s0.starts[t].pc.StartDone?)
    && (forall i | 0 <= i < |acts| :: RaceStep(cfg, ExecFrom(cfg, s0, acts[..i]), acts[i]))
  }

  /** The SIMs that could take a missed-call session when the race began. */
  function FreeSims(cfg: Config, s0: State): set<Id> {
    set n | n in s0.db.numbers && Eligible(s0.db, cfg.maxPending, n, Call)
  }

  function Racers(s0: State, s: State): set<Id> { set t | t in s.starts && t !in s0.starts }

  predicate HasWon(th: StartThread) { th.pc.StartDone? && th.pc.outcome.Started? }

  function Winners(s0: State, s: State): set<Id> { set t | t in s.starts && t !in s0.starts && HasWon(s.starts[t]) }

  ghost predicate AllFinished(s0: State, s: State) { forall t | t in Racers(s0, s) :: s.starts[t].pc.StartDone? }

  function Taken(cfg: Config, s0: State, s: State): set<Id> { set n | n in FreeSims(cfg, s0) && VoiceBusy(s.db, n) }

  function Min(a: int, b: int): int { if a < b then a else b }

  // ---------------------------------------------------------------- the invariant

  /** Enough SIMs are gone for a racer to have given up. */
  ghost predicate GaveUpFairly(cfg: Config, s0: State, taken: set<Id>) {
    |taken| >= Min(MAX_START_ATTEMPTS, |FreeSims(cfg, s0)|)
  }

  /** What a racer's record promises, given the SIMs taken so far. */
  ghost predicate RacerOk(cfg: Config, s0: State, taken: set<Id>, th: StartThread) {
    && th.plan.channel == Call
    && match th.pc
       case Picking => th.attempt < MAX_START_ATTEMPTS && th.attempt <= |taken|
       case Creating(n, _) =>
         && n in FreeSims(cfg, s0)
         && th.attempt < MAX_START_ATTEMPTS && th.attempt <= |taken - {n}|
       case Counting => GaveUpFairly(cfg, s0, taken)
       case StartDone(Started(_, _, _)) => true
       case StartDone(outcome) => GaveUpFairly(cfg, s0, taken) && outcome == LostOutcome(s0)
  }

  function LostOutcome(s0: State): StartOutcome {
    var serving := |Serving(s0.db, Call)|;
    if serving > 0 then Busy(serving) else NoCapacity
  }

  /** Outside the racers' own inserts, pending sessions and numbers stand still. */
  ghost predicate SameNumbers(s0: State, s: State) { s.db.numbers == s0.db.numbers && s.db.devices == s0.db.devices }

  ghost predicate Untaken(cfg: Config, s0: State, s: State) {
    forall n | n in FreeSims(cfg, s0) && !VoiceBusy(s.db, n) :: PendingOn(s.db, n) == PendingOn(s0.db, n)
  }

  ghost predicate StillPending(s0: State, s: State) {
    forall sid | sid in s0.db.sessions && s0.db.sessions[sid].status == Pending ::
      && sid in s.db.sessions && s.db.sessions[sid].status == Pending
      && s.db.sessions[sid].number == s0.db.sessions[sid].number && s.db.sessions[sid].channel == s0.db.sessions[sid].channel
  }

  ghost predicate Inv(cfg: Config, s0: State, s: State) {
    && SameNumbers(s0, s) && Untaken(cfg, s0, s) && StillPending(s0, s)
    && (forall t | t in s0.starts :: t in s.starts && s.starts[t] == s0.starts[t] && s0.starts[t].pc.StartDone?)
    && RacersOk(cfg, s0, s, Taken(cfg, s0, s))
    && |Winners(s0, s)| == |Taken(cfg, s0, s)|
  }

  ghost predicate RacersOk(cfg: Config, s0: State, s: State, taken: set<Id>) {
    forall t | t in s.starts && t !in s0.starts :: RacerOk(cfg, s0, taken, s.starts[t])
  }

  // ---------------------------------------------------------------- steps that take no SIM

  /** The voice lines and pending sets of two databases agree. */
  ghost predicate SameLoad(db: Db, db': Db) {
    && db'.numbers == db.numbers && db'.devices == db.devices && db'.sessions.Keys == db.sessions.Keys
    && forall sid | sid in db.sessions ::
         && db'.sessions[sid].status == db.sessions[sid].status
         && db'.sessions[sid].number == db.sessions[sid].number
         && db'.sessions[sid].channel == db.sessions[sid].channel
  }

  lemma SameLoadFacts(cfg: Config, s0: State, s: State, s': State)
    requires SameLoad(s.db, s'.db)
    ensures forall n :: PendingOn(s'.db, n) == PendingOn(s.db, n)
    ensures forall n :: VoiceBusy(s'.db, n) == VoiceBusy(s.db, n)
    ensures Taken(cfg, s0, s') == Taken(cfg, s0, s)
  {
    forall n
      ensures PendingOn(s'.db, n) == PendingOn(s.db, n)
      ensures VoiceBusy(s'.db, n) == VoiceBusy(s.db, n)
    {
      assert forall sid | sid in s.db.sessions :: IsPendingOn(s'.db.sessions[sid], n) == IsPendingOn(s.db.sessions[sid], n);
    }
  }

  lemma LoadKept(cfg: Config, s0: State, s: State, s': State)
    requires Inv(cfg, s0, s) && SameLoad(s.db, s'.db) && s'.starts == s.starts
    ensures Inv(cfg, s0, s')
  {
    SameLoadFacts(cfg, s0, s, s');
    assert Winners(s0, s') == Winners(s0, s);
  }

  lemma InboundKeepsLoad(cfg: Config, s: State, t: Id, yes: bool, pick: Option<Id>)
    requires t in s.inbounds ==> !s.inbounds[t].pc.Verifying?
    ensures SameLoad(s.db, StepInbound(cfg, s, t, yes, pick).db)
  {
    if t in s.inbounds && InFailure(s.inbounds[t].pc) { FailureKeepsLoad(s, t, s.inbounds[t]); }
  }

  lemma FailureKeepsLoad(s: State, t: Id, th: InboundThread)
    ensures SameLoad(s.db, StepFailure(s, t, th).db)
  {}

  // ---------------------------------------------------------------- a racer's own steps

  /** One racer's record changes and nothing else: the rest of the invariant carries over. */
  lemma RacerMoves(cfg: Config, s0: State, s: State, t: Id, th: StartThread)
    requires Inv(cfg, s0, s) && t !in s0.starts && !HasWon(th)
    requires t in s.starts ==> !HasWon(s.starts[t])
    requires RacerOk(cfg, s0, Taken(cfg, s0, s), th)
    ensures Inv(cfg, s0, GoStart(s, t, th))
  {
    var s' := GoStart(s, t, th);
    assert Winners(s0, s') == Winners(s0, s);
    assert Taken(cfg, s0, s') == Taken(cfg, s0, s);
  }

  lemma PickedSimIsFree(cfg: Config, s0: State, s: State, n: Id)
    requires Inv(cfg, s0, s) && Eligible(s.db, cfg.maxPending, n, Call)
    ensures n in FreeSims(cfg, s0)
    ensures n !in Taken(cfg, s0, s)
  {
    assert Serves(s0.db, n, Call);
    forall sid | sid in s0.db.sessions && IsPendingOn(s0.db.sessions[sid], n)
      ensures sid in PendingOn(s.db, n) && s.db.sessions[sid].channel == s0.db.sessions[sid].channel
    {}
    SubsetBound(PendingOn(s0.db, n), PendingOn(s.db, n));
  }

  lemma NoneLeftMeansAllTaken(cfg: Config, s0: State, s: State)
    requires Inv(cfg, s0, s) && IsPick(s.db, cfg.maxPending, Call, None)
    ensures Taken(cfg, s0, s) == FreeSims(cfg, s0)
  {
    forall n | n in FreeSims(cfg, s0)
      ensures VoiceBusy(s.db, n)
    {
      assert !Eligible(s.db, cfg.maxPending, n, Call);
      assert Serves(s.db, n, Call);
    }
  }

  lemma PickStep(cfg: Config, s0: State, s: State, t: Id, pick: Option<Id>)
    requires Inv(cfg, s0, s) && t in s.starts && t !in s0.starts && s.starts[t].pc.Picking?
    requires IsPick(s.db, cfg.maxPending, Call, pick)
    ensures Inv(cfg, s0, StepStart(cfg, s, t, pick, 0, ""))
  {
    var th := s.starts[t];
    if pick.None? {
      NoneLeftMeansAllTaken(cfg, s0, s);
      RacerMoves(cfg, s0, s, t, th.(pc := Counting));
    } else {
      PickedSimIsFree(cfg, s0, s, pick.value);
      assert Taken(cfg, s0, s) - {pick.value} == Taken(cfg, s0, s);
      RacerMoves(cfg, s0, s, t, th.(pc := Creating(pick.value, s.db.numbers[pick.value].msisdn)));
    }
  }

  lemma ConflictMeansBusy(db: Db, cand: Session, n: Id)
    requires Conflicts(db, cand) && cand.number == Some(n) && cand.code.None?
    ensures VoiceBusy(db, n)
  {}

  lemma NoConflictMeansFree(db: Db, cand: Session, n: Id)
    requires !Conflicts(db, cand) && cand.number == Some(n) && IsVoice(cand.channel)
    ensures !VoiceBusy(db, n)
  {}

  function Retry(th: StartThread): StartThread {
    th.(attempt := th.attempt + 1, pc := if th.attempt + 1 < MAX_START_ATTEMPTS then Picking else Counting)
  }

  /** A lost insert: the picked SIM is taken, so one more than the attempts so far. */
  lemma LostInsertCounts(cfg: Config, s0: State, taken: set<Id>, th: StartThread)
    requires th.pc.Creating? && RacerOk(cfg, s0, taken, th) && th.pc.number in taken
    ensures RacerOk(cfg, s0, taken, Retry(th))
  {
    var n := th.pc.number;
    assert taken == (taken - {n}) + {n};
    assert |taken| == |taken - {n}| + 1;
  }

  lemma ConflictStep(cfg: Config, s0: State, s: State, t: Id)
    requires Inv(cfg, s0, s) && t in s.starts && t !in s0.starts && s.starts[t].pc.Creating?
    requires VoiceBusy(s.db, s.starts[t].pc.number)
    ensures Inv(cfg, s0, GoStart(s, t, Retry(s.starts[t])))
  {
    var th := s.starts[t];
    assert RacerOk(cfg, s0, Taken(cfg, s0, s), th);
    LostInsertCounts(cfg, s0, Taken(cfg, s0, s), th);
    RacerMoves(cfg, s0, s, t, Retry(th));
  }

  /** What inserting a voice session on a free SIM does to the load. */
  lemma InsertTakesSim(cfg: Config, s0: State, s: State, s': State, sid: Id, cand: Session, n: Id)
    requires n in FreeSims(cfg, s0) && !VoiceBusy(s.db, n) && sid !in s.db.sessions
    requires s'.db == Insert(s.db, sid, cand) && cand.status == Pending && cand.number == Some(n) && IsVoice(cand.channel)
    ensures Taken(cfg, s0, s') == Taken(cfg, s0, s) + {n} && n !in Taken(cfg, s0, s)
    ensures forall m | m != n :: PendingOn(s'.db, m) == PendingOn(s.db, m) && VoiceBusy(s'.db, m) == VoiceBusy(s.db, m)
  {
    assert VoiceBusy(s'.db, n) by { assert IsPendingOn(s'.db.sessions[sid], n); }
    forall m | m != n
      ensures PendingOn(s'.db, m) == PendingOn(s.db, m)
      ensures VoiceBusy(s'.db, m) == VoiceBusy(s.db, m)
    {
      if VoiceBusy(s.db, m) {
        var o :| o in s.db.sessions && IsPendingOn(s.db.sessions[o], m) && IsVoice(s.db.sessions[o].channel);
        assert o in s'.db.sessions && s'.db.sessions[o] == s.db.sessions[o];
      }
    }
  }

  /** Taking one more SIM leaves every other racer's account in order. */
  lemma MoreTaken(cfg: Config, s0: State, taken: set<Id>, n: Id, th: StartThread)
    requires RacerOk(cfg, s0, taken, th)
    ensures RacerOk(cfg, s0, taken + {n}, th)
  {
    SubsetBound(taken, taken + {n});
    if th.pc.Creating? { SubsetBound(taken - {th.pc.number}, taken + {n} - {th.pc.number}); }
  }

  lemma OneMoreWinner(s0: State, s: State, s': State, t: Id)
    requires t in s.starts && t !in s0.starts && !HasWon(s.starts[t])
    requires t in s'.starts && s'.starts == s.starts[t := s'.starts[t]] && HasWon(s'.starts[t])
    ensures |Winners(s0, s')| == |Winners(s0, s)| + 1
  {
    assert Winners(s0, s') == Winners(s0, s) + {t};
  }

  lemma OneMoreTaken(cfg: Config, s0: State, s: State, s': State, t: Id, taken: set<Id>, n: Id)
    requires RacersOk(cfg, s0, s, taken) && t in s.starts && t !in s0.starts
    requires t in s'.starts && s'.starts == s.starts[t := s'.starts[t]]
    requires HasWon(s'.starts[t]) && s'.starts[t].plan == s.starts[t].plan
    ensures RacersOk(cfg, s0, s', taken + {n})
  {
    forall u | u in s.starts && u !in s0.starts
      ensures RacerOk(cfg, s0, taken + {n}, s.starts[u])
    {
      MoreTaken(cfg, s0, taken, n, s.starts[u]);
    }
  }

  /** A racer's win, put together from its effect on the load. */
  lemma WinnerJoins(cfg: Config, s0: State, s: State, s': State, t: Id, n: Id)
    requires Inv(cfg, s0, s) && t in s.starts && t !in s0.starts && !HasWon(s.starts[t])
    requires t in s'.starts && s'.starts == s.starts[t := s'.starts[t]]
    requires HasWon(s'.starts[t]) && s'.starts[t].plan == s.starts[t].plan
    requires SameNumbers(s, s') && StillPending(s0, s')
    requires n !in Taken(cfg, s0, s) && Taken(cfg, s0, s') == Taken(cfg, s0, s) + {n} && VoiceBusy(s'.db, n)
    requires forall m | m != n :: PendingOn(s'.db, m) == PendingOn(s.db, m) && VoiceBusy(s'.db, m) == VoiceBusy(s.db, m)
    ensures Inv(cfg, s0, s')
  {
    OneMoreWinner(s0, s, s', t);
    OneMoreTaken(cfg, s0, s, s', t, Taken(cfg, s0, s), n);
    assert |Taken(cfg, s0, s')| == |Taken(cfg, s0, s)| + 1;
  }

  lemma InsertStep(cfg: Config, s0: State, s: State, s': State, t: Id, sid: Id)
    requires Inv(cfg, s0, s) && t in s.starts && t !in s0.starts && s.starts[t].pc.Creating?
    requires sid !in s.db.sessions && !VoiceBusy(s.db, s.starts[t].pc.number)
    requires t in s'.starts && s'.starts == s.starts[t := s'.starts[t]]
    requires HasWon(s'.starts[t]) && s'.starts[t].plan == s.starts[t].plan
    requires s'.db == Insert(s.db, sid, Candidate(s.starts[t].plan, s.starts[t].pc.number, "", s.now))
    ensures Inv(cfg, s0, s')
  {
    var n := s.starts[t].pc.number;
    assert RacerOk(cfg, s0, Taken(cfg, s0, s), s.starts[t]);
    InsertTakesSim(cfg, s0, s, s', sid, Candidate(s.starts[t].plan, n, "", s.now), n);
    assert VoiceBusy(s'.db, n) by { assert IsPendingOn(s'.db.sessions[sid], n); }
    WinnerJoins(cfg, s0, s, s', t, n);
  }

  /** A missed call draws no code, and ids are fresh. */
  lemma UnfitCreating(cfg: Config, s: State, t: Id, sid: Id, code: string)
    requires t in s.starts && s.starts[t].pc.Creating? && s.starts[t].plan.channel == Call
    requires sid in s.db.sessions || code != ""
    ensures StepStart(cfg, s, t, None, sid, code) == s
  {}

  lemma CreatingStep(cfg: Config, s0: State, s: State, t: Id, sid: Id, code: string)
    requires Inv(cfg, s0, s) && t in s.starts && t !in s0.starts && s.starts[t].pc.Creating?
    ensures Inv(cfg, s0, StepStart(cfg, s, t, None, sid, code))
  {
    var th := s.starts[t];
    assert RacerOk(cfg, s0, Taken(cfg, s0, s), th);
    if sid in s.db.sessions || code != "" {
      UnfitCreating(cfg, s, t, sid, code);
    } else {
      CreatingOutcome(cfg, s, t, sid);
      CreatingKeepsInv(cfg, s0, s, StepStart(cfg, s, t, None, sid, ""), t, sid);
    }
  }

  lemma CreatingKeepsInv(cfg: Config, s0: State, s: State, s': State, t: Id, sid: Id)
    requires Inv(cfg, s0, s) && t in s.starts && t !in s0.starts && s.starts[t].pc.Creating?
    requires s.starts[t].plan.channel == Call && sid !in s.db.sessions && IsCreatingOutcome(s, s', t, sid)
    ensures Inv(cfg, s0, s')
  {
    var th := s.starts[t];
    var cand := Candidate(th.plan, th.pc.number, "", s.now);
    if Conflicts(s.db, cand) {
      ConflictMeansBusy(s.db, cand, th.pc.number);
      ConflictStep(cfg, s0, s, t);
    } else {
      NoConflictMeansFree(s.db, cand, th.pc.number);
      InsertStep(cfg, s0, s, s', t, sid);
    }
  }

  ghost predicate IsCreatingOutcome(s: State, s': State, t: Id, sid: Id)
    requires t in s.starts && s.starts[t].pc.Creating?
  {
    var th := s.starts[t];
    var cand := Candidate(th.plan, th.pc.number, "", s.now);
    if Conflicts(s.db, cand) then s' == GoStart(s, t, Retry(th))
    else
      && s'.db == Insert(s.db, sid, cand) && t in s'.starts && s'.starts == s.starts[t := s'.starts[t]]
      && HasWon(s'.starts[t]) && s'.starts[t].plan == th.plan
  }

  lemma CreatingOutcome(cfg: Config, s: State, t: Id, sid: Id)
    requires t in s.starts && s.starts[t].pc.Creating? && s.starts[t].plan.channel == Call
    requires sid !in s.db.sessions && s.starts[t].pc.number in s.db.numbers
    ensures IsCreatingOutcome(s, StepStart(cfg, s, t, None, sid, ""), t, sid)
  {}

  lemma RacerStep(cfg: Config, s0: State, s: State, t: Id, pick: Option<Id>, sid: Id, code: string)
    requires Inv(cfg, s0, s) && t in s.starts && t !in s0.starts
    ensures Inv(cfg, s0, StepStart(cfg, s, t, pick, sid, code))
  {
    var th := s.starts[t];
    assert RacerOk(cfg, s0, Taken(cfg, s0, s), th);
    if th.pc.Picking? {
      if IsPick(s.db, cfg.maxPending, Call, pick) {
        PickStep(cfg, s0, s, t, pick);
        assert StepStart(cfg, s, t, pick, sid, code) == StepStart(cfg, s, t, pick, 0, "");
      }
    } else if th.pc.Creating? {
      CreatingStep(cfg, s0, s, t, sid, code);
      assert StepStart(cfg, s, t, pick, sid, code) == StepStart(cfg, s, t, None, sid, code);
    } else if th.pc.Counting? {
      assert Serving(s.db, Call) == Serving(s0.db, Call);
      RacerMoves(cfg, s0, s, t, th.(pc := StartDone(LostOutcome(s0))));
    }
  }

  lemma InvStep(cfg: Config, s0: State, s: State, a: Action)
    requires Inv(cfg, s0, s) && RaceStep(cfg, s, a)
    ensures Inv(cfg, s0, Apply(cfg, s, a))
  {
    match a {
      case Tick(_) => LoadKept(cfg, s0, s, Apply(cfg, s, a));
      case BeginStart(t, req) =>
        if t !in s.starts {
          RacerMoves(cfg, s0, s, t, StartThread(PlanOf(cfg, req, s.now).value, 0, Picking));
        }
      case StartStep(t, pick, sid, code) =>
        if t in s.starts && t !in s0.starts { RacerStep(cfg, s0, s, t, pick, sid, code); }
      case BeginInbound(_, _) => LoadKept(cfg, s0, s, Apply(cfg, s, a));
      case InboundStep(t, yes, pick) =>
        InboundKeepsInv(cfg, s0, s, t, yes, pick);
    }
  }

  lemma InboundKeepsInv(cfg: Config, s0: State, s: State, t: Id, yes: bool, pick: Option<Id>)
    requires Inv(cfg, s0, s) && RaceStep(cfg, s, InboundStep(t, yes, pick))
    ensures Inv(cfg, s0, Apply(cfg, s, InboundStep(t, yes, pick)))
  {
    InboundKeepsLoad(cfg, s, t, yes, pick);
    InboundFrame(cfg, s, t, yes, pick);
    LoadKept(cfg, s0, s, Apply(cfg, s, InboundStep(t, yes, pick)));
  }

  lemma {:induction false} RaceKeepsInv(cfg: Config, s0: State, acts: seq<Action>)
    requires IsRace(cfg, s0, acts)
    ensures Inv(cfg, s0, ExecFrom(cfg, s0, acts))
  {
    if acts == [] {
      assert Winners(s0, s0) == {} && Taken(cfg, s0, s0) == {};
    } else {
      var before := acts[..|acts| - 1];
      assert forall i | 0 <= i <= |before| :: before[..i] == acts[..i];
      RaceKeepsInv(cfg, s0, before);
      InvStep(cfg, s0, ExecFrom(cfg, s0, before), acts[|acts| - 1]);
    }
  }

  // ---------------------------------------------------------------- main result

  /**
   When all of N racers have finished over M free SIMs, at least min(N, M, 8) and at most
   min(N, M) of them won.
   */
  lemma WinnerBounds(cfg: Config, s0: State, acts: seq<Action>)
    requires IsRace(cfg, s0, acts)
    requires AllFinished(s0, ExecFrom(cfg, s0, acts))
    ensures var s := ExecFrom(cfg, s0, acts);
      var n, m, w := |Racers(s0, s)|, |FreeSims(cfg, s0)|, |Winners(s0, s)|;
      Min(Min(n, m), 8) <= w <= Min(n, m)
  {
    RaceKeepsInv(cfg, s0, acts);
    FinishedRace(cfg, s0, ExecFrom(cfg, s0, acts));
  }

  lemma LoserMeans(cfg: Config, s0: State, s: State, t: Id)
    requires Inv(cfg, s0, s) && t in Racers(s0, s) && s.starts[t].pc.StartDone? && !HasWon(s.starts[t])
    ensures |Taken(cfg, s0, s)| >= Min(|FreeSims(cfg, s0)|, 8)
  {
    assert RacerOk(cfg, s0, Taken(cfg, s0, s), s.starts[t]);
  }

  lemma WinnersAreFew(cfg: Config, s0: State, s: State)
    requires Inv(cfg, s0, s)
    ensures |Winners(s0, s)| <= |Racers(s0, s)| && |Taken(cfg, s0, s)| <= |FreeSims(cfg, s0)|
  {
    SubsetBound(Winners(s0, s), Racers(s0, s));
    SubsetBound(Taken(cfg, s0, s), FreeSims(cfg, s0));
  }

  lemma FinishedRace(cfg: Config, s0: State, s: State)
    requires Inv(cfg, s0, s) && AllFinished(s0, s)
    ensures var n, m, w := |Racers(s0, s)|, |FreeSims(cfg, s0)|, |Winners(s0, s)|;
      Min(Min(n, m), 8) <= w <= Min(n, m)
  {
    WinnersAreFew(cfg, s0, s);
    if t :| t in Racers(s0, s) && !HasWon(s.starts[t]) {
      LoserMeans(cfg, s0, s, t);
    } else {
      assert Winners(s0, s) == Racers(s0, s);
    }
  }

  /** A racer that did not win was told Busy with the number of serving SIMs, or NoCapacity if there are none. */
  lemma LosersAreBusy(cfg: Config, s0: State, acts: seq<Action>, t: Id)
    requires IsRace(cfg, s0, acts)
    requires var s := ExecFrom(cfg, s0, acts);
      t in Racers(s0, s) && s.starts[t].pc.StartDone? && !HasWon(s.starts[t])
    ensures ExecFrom(cfg, s0, acts).starts[t].pc.outcome == LostOutcome(s0)
  {
    RaceKeepsInv(cfg, s0, acts);
    assert RacerOk(cfg, s0, Taken(cfg, s0, ExecFrom(cfg, s0, acts)), ExecFrom(cfg, s0, acts).starts[t]);
  }
}
