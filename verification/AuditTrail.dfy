/**
 What the audit rows and the attempt counters record (verify/service.go Inbound's deferred event
 and IncrementAttempts): each row is the row of one request, a session's attempts are the
 requests that found it under a claim they could not meet, and a session is announced once its
 winner has found the app's row.
 */
module AuditTrail {
  import opened Wrappers
  import opened Store
  import opened Protocol
  import opened Soundness
  import opened InboundAnswers
  import SessionRules

  // ---------------------------------------------------------------- audit rows

  /** The row tells who sent what to which number, and which session it verified. */
  predicate TellsOf(row: Event, th: InboundThread, at: Millis) {
    && row.number == Some(th.number) && row.kind == th.req.kind && row.sender == th.req.sender && row.body == th.req.body
    && row.at == at
    && th.pc.Auditing? && row.matched == match th.pc.outcome case Matched(sid) => Some(sid) case _ => None
  }

  /** Step i is request t's audit, and the store takes its row. */
  ghost predicate LogsAt(cfg: Config, acts: seq<Action>, t: Id, i: nat) {
    && Moment(cfg, acts, t, i, AtAuditing)
    && (cfg.backend == Postgres ==> At(cfg, acts, i).inbounds[t].number in At(cfg, acts, i).db.numbers)
  }

  /** The log holds one row for each such step, in order. */
  ghost predicate LogTells(cfg: Config, acts: seq<Action>, log: seq<Event>) {
    if acts == [] then log == []
    else
      var n, a := |acts| - 1, acts[|acts| - 1];
      if a.InboundStep? && LogsAt(cfg, acts, a.t, n) then
        && log != [] && TellsOf(log[|log| - 1], At(cfg, acts, n).inbounds[a.t], At(cfg, acts, n).now)
        && LogTells(cfg, acts[..n], log[..|log| - 1])
      else LogTells(cfg, acts[..n], log)
  }

  /** Only audits that the store takes add a row. */
  ghost predicate LogsOne(cfg: Config, s: State, s': State, a: Action) {
    if a.InboundStep? && a.t in s.inbounds && s.inbounds[a.t].pc.Auditing? && ReferenceOk(cfg.backend, s.db, Some(s.inbounds[a.t].number)) then
      s'.log == s.log + [AuditRow(s.inbounds[a.t], s.inbounds[a.t].pc.outcome, s.now)] && a.t in s'.inbounds && s'.inbounds[a.t].pc.InboundDone?
    else s'.log == s.log
  }

  lemma LogStep(cfg: Config, s: State, a: Action)
    ensures LogsOne(cfg, s, Apply(cfg, s, a), a)
  {
    if a.InboundStep? && a.t in s.inbounds {
      var th := s.inbounds[a.t];
      if InAdmission(th.pc) { assert StepAdmission(s, a.t, th, a.yes, a.pick).log == s.log; }
      else if InFailure(th.pc) { assert StepFailure(s, a.t, th).log == s.log; }
      else { assert StepInbound(cfg, s, a.t, a.yes, a.pick) == StepResolution(cfg, s, a.t, th, a.yes); }
    }
  }

  /**
   Every request that got past its lookup leaves exactly one row, when it is answered, and the
   log is these rows and nothing else; only Postgres drops one, if the number is gone by then.
   */
  lemma {:induction false} LogTellsTheRun(cfg: Config, acts: seq<Action>)
    ensures LogTells(cfg, acts, Exec(cfg, acts).log)
  {
    if acts != [] {
      var before, a := acts[..|acts| - 1], acts[|acts| - 1];
      assert before + [a] == acts;
      LogTellsTheRun(cfg, before);
      LogGrows(cfg, before, a);
    }
  }

  lemma LogGrows(cfg: Config, acts: seq<Action>, a: Action)
    requires LogTells(cfg, acts, Exec(cfg, acts).log)
    ensures LogTells(cfg, acts + [a], Exec(cfg, acts + [a]).log)
  {
    OneMore(cfg, acts, a);
    LogStep(cfg, Exec(cfg, acts), a);
    LogFollows(cfg, acts, a, Exec(cfg, acts), Exec(cfg, acts + [a]));
  }

  lemma LogFollows(cfg: Config, acts: seq<Action>, a: Action, s: State, s': State)
    requires LogTells(cfg, acts, s.log) && LogsOne(cfg, s, s', a)
    requires At(cfg, acts + [a], |acts|) == s && At(cfg, acts + [a], |acts| + 1) == s'
    ensures LogTells(cfg, acts + [a], s'.log)
  {
    LoggedNow(cfg, acts, a, s, s');
    if a.InboundStep? && LogsAt(cfg, acts + [a], a.t, |acts|) {
      RowAdded(cfg, acts, a, s.log, s'.log[|s.log|]);
    } else {
      NoRowAdded(cfg, acts, a, s.log);
    }
  }

  lemma LoggedNow(cfg: Config, acts: seq<Action>, a: Action, s: State, s': State)
    requires LogsOne(cfg, s, s', a)
    requires At(cfg, acts + [a], |acts|) == s && At(cfg, acts + [a], |acts| + 1) == s'
    ensures if a.InboundStep? && LogsAt(cfg, acts + [a], a.t, |acts|) then
        |s'.log| == |s.log| + 1 && s'.log == s.log + [s'.log[|s.log|]] && TellsOf(s'.log[|s.log|], s.inbounds[a.t], s.now)
      else s'.log == s.log
  {
    assert (acts + [a])[|acts|] == a;
  }

  lemma RowAdded(cfg: Config, acts: seq<Action>, a: Action, log: seq<Event>, row: Event)
    requires LogTells(cfg, acts, log) && a.InboundStep? && LogsAt(cfg, acts + [a], a.t, |acts|)
    requires TellsOf(row, At(cfg, acts + [a], |acts|).inbounds[a.t], At(cfg, acts + [a], |acts|).now)
    ensures LogTells(cfg, acts + [a], log + [row])
  {
    assert (acts + [a])[..|acts|] == acts && (log + [row])[..|log|] == log;
  }

  lemma NoRowAdded(cfg: Config, acts: seq<Action>, a: Action, log: seq<Event>)
    requires LogTells(cfg, acts, log) && !(a.InboundStep? && LogsAt(cfg, acts + [a], a.t, |acts|))
    ensures LogTells(cfg, acts + [a], log)
  {
    assert (acts + [a])[..|acts|] == acts;
  }

  /** Every answer but the first three has come through the audit. */
  lemma AnsweredAreAudited(cfg: Config, acts: seq<Action>, t: Id, o: InboundOutcome)
    requires Finished(cfg, acts, t, o)
    ensures Passed(cfg, acts, t, AtAuditing) <==> o != BadType && o != Forbidden && o != Unmatched(UnknownNumber)
  {
    AuditedFrom(cfg, acts, t);
  }

  /** Past the lookup, and not answered by it. */
  predicate BeyondLookup(o: InboundOutcome) { o != BadType && o != Forbidden && o != Unmatched(UnknownNumber) }

  ghost predicate AuditedRight(cfg: Config, acts: seq<Action>, t: Id, th: InboundThread) {
    if th.pc.InboundDone? then Passed(cfg, acts, t, AtAuditing) <==> BeyondLookup(th.pc.outcome)
    else !Passed(cfg, acts, t, AtAuditing) && (th.pc.Auditing? ==> BeyondLookup(th.pc.outcome)) && (Failing(th.pc) ==> th.pc.reason != UnknownNumber)
  }

  lemma {:induction false} AuditedFrom(cfg: Config, acts: seq<Action>, t: Id)
    requires t in Exec(cfg, acts).inbounds
    ensures AuditedRight(cfg, acts, t, Exec(cfg, acts).inbounds[t])
  {
    var before, a := acts[..|acts| - 1], acts[|acts| - 1];
    assert before + [a] == acts;
    if t !in Exec(cfg, before).inbounds {
      RecordSince(cfg, before, a, t);
      AbsentPassedNothing(cfg, before, t, AtAuditing);
      PassedNow(cfg, before, a, t, AtAuditing);
    } else {
      AuditedFrom(cfg, before, t);
      AuditedNext(cfg, before, a, t);
    }
  }

  lemma AuditedNext(cfg: Config, acts: seq<Action>, a: Action, t: Id)
    requires t in Exec(cfg, acts).inbounds && AuditedRight(cfg, acts, t, Exec(cfg, acts).inbounds[t])
    ensures t in Exec(cfg, acts + [a]).inbounds && AuditedRight(cfg, acts + [a], t, Exec(cfg, acts + [a]).inbounds[t])
  {
    OneMore(cfg, acts, a);
    PassedNow(cfg, acts, a, t, AtAuditing);
    if a.InboundStep? && a.t == t {
      AuditStep(cfg, Exec(cfg, acts), t, a.yes, a.pick);
    } else {
      InboundsKept(cfg, Exec(cfg, acts), a, t);
    }
  }

  lemma AuditStep(cfg: Config, s: State, t: Id, yes: bool, pick: Option<Id>)
    requires t in s.inbounds
    requires (s.inbounds[t].pc.Auditing? ==> BeyondLookup(s.inbounds[t].pc.outcome)) && (Failing(s.inbounds[t].pc) ==> s.inbounds[t].pc.reason != UnknownNumber)
    ensures var th, s' := s.inbounds[t], StepInbound(cfg, s, t, yes, pick);
      && t in s'.inbounds
      && var pc := s'.inbounds[t].pc;
         && (th.pc.InboundDone? ==> pc == th.pc)
         && (th.pc.Auditing? ==> pc == InboundDone(th.pc.outcome))
         && (!th.pc.Auditing? && !th.pc.InboundDone? && pc.InboundDone? ==> !BeyondLookup(pc.outcome))
         && (pc.Auditing? ==> BeyondLookup(pc.outcome)) && (Failing(pc) ==> pc.reason != UnknownNumber)
  {
    var th := s.inbounds[t];
    if InAdmission(th.pc) { AuditInAdmission(s, t, yes, pick); }
  }

  lemma AuditInAdmission(s: State, t: Id, yes: bool, pick: Option<Id>)
    requires t in s.inbounds && InAdmission(s.inbounds[t].pc)
    ensures var s' := StepAdmission(s, t, s.inbounds[t], yes, pick);
      && t in s'.inbounds
      && var pc := s'.inbounds[t].pc;
         (pc.InboundDone? ==> !BeyondLookup(pc.outcome)) && (pc.Auditing? ==> BeyondLookup(pc.outcome)) && (Failing(pc) ==> pc.reason != UnknownNumber)
  {}

  lemma PassedNow(cfg: Config, acts: seq<Action>, a: Action, t: Id, stage: Stage)
    ensures Passed(cfg, acts + [a], t, stage) <==> Passed(cfg, acts, t, stage) || Moment(cfg, acts + [a], t, |acts|, stage)
  {
    forall i: nat | i < |acts|
      ensures Moment(cfg, acts + [a], t, i, stage) <==> Moment(cfg, acts, t, i, stage)
    {
      MomentLater(cfg, acts, a, t, i, stage);
    }
  }

  lemma AbsentPassedNothing(cfg: Config, acts: seq<Action>, t: Id, stage: Stage)
    requires t !in Exec(cfg, acts).inbounds
    ensures !Passed(cfg, acts, t, stage)
  {
    if Passed(cfg, acts, t, stage) {
      var i: nat :| Moment(cfg, acts, t, i, stage);
      NarrowsSince(cfg, acts, i, t);
    }
  }

  // ---------------------------------------------------------------- attempts

  /** Step i is the one in which some request counts its attempt on the session. */
  ghost predicate AttemptsAt(cfg: Config, acts: seq<Action>, sid: Id, i: nat) {
    && i < |acts| && acts[i].InboundStep? && Moment(cfg, acts, acts[i].t, i, AtAttempting)
    && At(cfg, acts, i).inbounds[acts[i].t].pc == Attempting(sid)
  }

  ghost function Attempts(cfg: Config, acts: seq<Action>, sid: Id): set<nat> {
    set i | 0 <= i < |acts| && AttemptsAt(cfg, acts, sid, i)
  }

  /** Requests look for attempts only on sessions that are there. */
  ghost predicate AttemptedExist(s: State) {
    forall t | t in s.inbounds && s.inbounds[t].pc.Attempting? :: s.inbounds[t].pc.session in s.db.sessions
  }

  ghost predicate AttemptsRight(cfg: Config, acts: seq<Action>) {
    var s := Exec(cfg, acts);
    && AttemptedExist(s)
    && forall sid: Id :: |Attempts(cfg, acts, sid)| == AttemptsOf(s, sid)
  }

  lemma AttemptsGrow(cfg: Config, acts: seq<Action>, a: Action, sid: Id)
    ensures |acts| !in Attempts(cfg, acts, sid)
    ensures Attempts(cfg, acts + [a], sid)
         == Attempts(cfg, acts, sid) + if AttemptsAt(cfg, acts + [a], sid, |acts|) then {|acts|} else {}
  {
    forall i: int | 0 <= i < |acts|
      ensures AttemptsAt(cfg, acts + [a], sid, i) <==> AttemptsAt(cfg, acts, sid, i)
    {
      if acts[i].InboundStep? { MomentLater(cfg, acts, a, acts[i].t, i, AtAttempting); }
    }
  }

  function AttemptsOf(s: State, sid: Id): nat { if sid in s.db.sessions then s.db.sessions[sid].attempts else 0 }

  /** The session on which this step counts an attempt. */
  function Hit(s: State, a: Action): Option<Id> {
    if a.InboundStep? && a.t in s.inbounds && s.inbounds[a.t].pc.Attempting? then Some(s.inbounds[a.t].pc.session) else None
  }

  /** A step adds one attempt to the session it names, and to no other. */
  ghost predicate AddsAttempt(s: State, s': State, a: Action) {
    && (Hit(s, a).Some? ==> a.t in s'.inbounds && !s'.inbounds[a.t].pc.Attempting?)
    && forall sid: Id :: AttemptsOf(s', sid) == AttemptsOf(s, sid) + if Hit(s, a) == Some(sid) then 1 else 0
  }

  lemma AttemptsStep(cfg: Config, s: State, a: Action)
    requires AttemptedExist(s)
    ensures AddsAttempt(s, Apply(cfg, s, a), a) && AttemptedExist(Apply(cfg, s, a))
  {
    if !a.InboundStep? {
      AttemptsElsewhere(cfg, s, a);
    } else if a.t in s.inbounds {
      InboundFrame(cfg, s, a.t, a.yes, a.pick);
      var th := s.inbounds[a.t];
      if InAdmission(th.pc) { AttemptsInAdmission(s, a.t, th, a.yes, a.pick); }
      else if InFailure(th.pc) { AttemptsInFailure(s, a); }
      else { AttemptsInResolution(cfg, s, a.t, th, a.yes); }
    }
  }

  lemma AttemptsElsewhere(cfg: Config, s: State, a: Action)
    requires AttemptedExist(s) && !a.InboundStep?
    ensures AddsAttempt(s, Apply(cfg, s, a), a) && AttemptedExist(Apply(cfg, s, a))
  {
    SessionRules.SessionsEvolve(cfg, s, a);
    NoneTries(cfg, s, a);
    CountersStay(cfg, s, a);
  }

  lemma NoneTries(cfg: Config, s: State, a: Action)
    requires !a.InboundStep?
    ensures var s' := Apply(cfg, s, a);
      forall t | t in s'.inbounds && s'.inbounds[t].pc.Attempting? :: t in s.inbounds && s.inbounds[t] == s'.inbounds[t]
  {}

  lemma CountersStay(cfg: Config, s: State, a: Action)
    requires !a.InboundStep?
    ensures forall sid: Id :: AttemptsOf(Apply(cfg, s, a), sid) == AttemptsOf(s, sid)
  {}

  lemma AttemptsInAdmission(s: State, t: Id, th: InboundThread, yes: bool, pick: Option<Id>)
    requires t in s.inbounds && th == s.inbounds[t] && InAdmission(th.pc)
    ensures var s' := StepAdmission(s, t, th, yes, pick);
      s'.db == s.db && t in s'.inbounds && (s'.inbounds[t].pc.Attempting? ==> s'.inbounds[t].pc.session in s.db.sessions)
  {}

  lemma AttemptsInFailure(s: State, a: Action)
    requires a.InboundStep? && a.t in s.inbounds && InFailure(s.inbounds[a.t].pc) && AttemptedExist(s)
    ensures AddsAttempt(s, StepFailure(s, a.t, s.inbounds[a.t]), a) && AttemptedExist(StepFailure(s, a.t, s.inbounds[a.t]))
  {}

  lemma AttemptsInResolution(cfg: Config, s: State, t: Id, th: InboundThread, yes: bool)
    requires t in s.inbounds && th == s.inbounds[t] && !InAdmission(th.pc) && !InFailure(th.pc)
    ensures var s' := StepResolution(cfg, s, t, th, yes);
      && s'.db.sessions.Keys == s.db.sessions.Keys && t in s'.inbounds && !s'.inbounds[t].pc.Attempting?
      && forall sid | sid in s.db.sessions :: s'.db.sessions[sid].attempts == s.db.sessions[sid].attempts
  {}

  /** A session's attempts are the steps in which requests with another claim counted theirs. */
  lemma {:induction false} AttemptsCountMismatches(cfg: Config, acts: seq<Action>)
    ensures AttemptsRight(cfg, acts)
  {
    if acts == [] {
      assert forall sid: Id :: Attempts(cfg, [], sid) == {};
    } else {
      var before, a := acts[..|acts| - 1], acts[|acts| - 1];
      assert before + [a] == acts;
      AttemptsCountMismatches(cfg, before);
      AttemptsKept(cfg, before, a);
    }
  }

  lemma AttemptsKept(cfg: Config, acts: seq<Action>, a: Action)
    requires AttemptsRight(cfg, acts)
    ensures AttemptsRight(cfg, acts + [a])
  {
    OneMore(cfg, acts, a);
    AttemptsStep(cfg, Exec(cfg, acts), a);
    AttemptsFollow(cfg, acts, a, Exec(cfg, acts), Exec(cfg, acts + [a]));
  }

  lemma AttemptsFollow(cfg: Config, acts: seq<Action>, a: Action, s: State, s': State)
    requires At(cfg, acts + [a], |acts|) == s && At(cfg, acts + [a], |acts| + 1) == s' && AddsAttempt(s, s', a)
    requires forall sid: Id :: |Attempts(cfg, acts, sid)| == AttemptsOf(s, sid)
    ensures forall sid: Id :: |Attempts(cfg, acts + [a], sid)| == AttemptsOf(s', sid)
  {
    forall sid: Id
      ensures |Attempts(cfg, acts + [a], sid)| == AttemptsOf(s', sid)
    {
      AttemptsGrow(cfg, acts, a, sid);
      HitIsAttempt(cfg, acts, a, s, s', sid);
    }
  }

  lemma HitIsAttempt(cfg: Config, acts: seq<Action>, a: Action, s: State, s': State, sid: Id)
    requires At(cfg, acts + [a], |acts|) == s && At(cfg, acts + [a], |acts| + 1) == s' && AddsAttempt(s, s', a)
    ensures AttemptsAt(cfg, acts + [a], sid, |acts|) <==> Hit(s, a) == Some(sid)
  {
    assert (acts + [a])[|acts|] == a;
  }

  // ---------------------------------------------------------------- notifications

  /** Step i is the one in which the session's winner looks for the app's row, and it is there. */
  ghost predicate AnnouncesAt(cfg: Config, acts: seq<Action>, sid: Id, i: nat) {
    && i < |acts| && acts[i].InboundStep? && Moment(cfg, acts, acts[i].t, i, AtNotifying)
    && At(cfg, acts, i).inbounds[acts[i].t].pc == Notifying(sid) && acts[i].yes
  }

  ghost predicate Announced(cfg: Config, acts: seq<Action>, sid: Id) { exists i: nat :: AnnouncesAt(cfg, acts, sid, i) }

  lemma NoticeStep(cfg: Config, s: State, a: Action)
    ensures var s' := Apply(cfg, s, a);
      if a.InboundStep? && a.t in s.inbounds && s.inbounds[a.t].pc.Notifying? then
        && a.t in s'.inbounds && s'.inbounds[a.t].pc.Auditing?
        && s'.notified == s.notified + if a.yes then [s.inbounds[a.t].pc.session] else []
      else s'.notified == s.notified
  {
    if a.InboundStep? && a.t in s.inbounds {
      var th := s.inbounds[a.t];
      if InAdmission(th.pc) { assert StepAdmission(s, a.t, th, a.yes, a.pick).notified == s.notified; }
      else if InFailure(th.pc) { assert StepFailure(s, a.t, th).notified == s.notified; }
    }
  }

  /** The sessions announced are those whose winner found the app's row when it looked. */
  lemma {:induction false} NotifiedExactly(cfg: Config, acts: seq<Action>)
    ensures forall sid :: sid in Exec(cfg, acts).notified <==> Announced(cfg, acts, sid)
  {
    if acts != [] {
      var before, a := acts[..|acts| - 1], acts[|acts| - 1];
      assert before + [a] == acts;
      NotifiedExactly(cfg, before);
      forall sid
        ensures sid in Exec(cfg, acts).notified <==> Announced(cfg, acts, sid)
      {
        NoticeGrows(cfg, before, a, sid);
      }
    }
  }

  lemma NoticeGrows(cfg: Config, acts: seq<Action>, a: Action, sid: Id)
    requires sid in Exec(cfg, acts).notified <==> Announced(cfg, acts, sid)
    ensures sid in Exec(cfg, acts + [a]).notified <==> Announced(cfg, acts + [a], sid)
  {
    OneMore(cfg, acts, a);
    NoticeStep(cfg, Exec(cfg, acts), a);
    AnnouncedNow(cfg, acts, a, sid);
    if a.InboundStep? && a.t in Exec(cfg, acts).inbounds && Exec(cfg, acts).inbounds[a.t].pc.Notifying? { NewMoment(cfg, acts, a, a.t); }
  }

  lemma AnnouncedNow(cfg: Config, acts: seq<Action>, a: Action, sid: Id)
    ensures Announced(cfg, acts + [a], sid) <==> Announced(cfg, acts, sid) || AnnouncesAt(cfg, acts + [a], sid, |acts|)
  {
    forall i: nat | i < |acts|
      ensures AnnouncesAt(cfg, acts + [a], sid, i) <==> AnnouncesAt(cfg, acts, sid, i)
    {
      if acts[i].InboundStep? { MomentLater(cfg, acts, a, acts[i].t, i, AtNotifying); }
    }
  }
}
