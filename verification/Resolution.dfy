/**
 Exactly-once resolution: who verified a session, how often it was announced, and how the
 audit log adds up, in every reachable state.
 */
module Resolution {
  import opened Wrappers
  import opened Store
  import opened Protocol
  import SessionRules

  /** The session whose verification this request won. */
  function Holds(pc: InboundPc): Option<Id> {
    match pc
    case Notifying(sid) => Some(sid)
    case Auditing(Matched(sid)) => Some(sid)
    case InboundDone(Matched(sid)) => Some(sid)
    case _ => None
  }

  /** Request t's record, once it has won a session. */
  ghost function Winner(s: State, t: Id): Option<InboundThread> {
    if t in s.inbounds && Holds(s.inbounds[t].pc).Some? then Some(s.inbounds[t]) else None
  }

  ghost predicate Won(s: State, t: Id, sid: Id) { Winner(s, t).Some? && Holds(Winner(s, t).value.pc) == Some(sid) }

  ghost predicate IsVerified(s: State, sid: Id) { sid in s.db.sessions && s.db.sessions[sid].status == Verified }

  /** The sessions named by matched audit rows, in order. */
  function MatchedIds(log: seq<Event>): seq<Id> {
    if log == [] then []
    else
      var e := log[|log| - 1];
      MatchedIds(log[..|log| - 1]) + if e.matched.Some? then [e.matched.value] else []
  }

  ghost predicate NoRepeats(xs: seq<Id>) { forall i, j | 0 <= i < j < |xs| :: xs[i] != xs[j] }

  // ---------------------------------------------------------------- the invariant

  ghost predicate WinnersVerified(s: State) {
    forall t, sid | Won(s, t, sid) ::
      IsVerified(s, sid) && s.db.sessions[sid].verified == Some(s.inbounds[t].req.sender)
  }

  ghost predicate WinnersDistinct(s: State) { forall t, u, sid | Won(s, t, sid) && Won(s, u, sid) :: t == u }

  ghost predicate VerifiedHaveWinners(s: State) { forall sid | IsVerified(s, sid) :: exists t :: Won(s, t, sid) }

  ghost predicate NotifiedOnce(s: State) {
    && NoRepeats(s.notified)
    && (forall sid | sid in s.notified :: IsVerified(s, sid))
    && (forall t, sid | Won(s, t, sid) && s.inbounds[t].pc.Notifying? :: sid !in s.notified)
  }

  ghost predicate LogMatchesWinners(s: State) {
    && NoRepeats(MatchedIds(s.log))
    && (forall sid | sid in MatchedIds(s.log) :: exists t :: Won(s, t, sid) && s.inbounds[t].pc.InboundDone?)
  }

  ghost predicate Inv(s: State) {
    && WinnersVerified(s) && WinnersDistinct(s) && VerifiedHaveWinners(s)
    && NotifiedOnce(s) && LogMatchesWinners(s)
  }

  // ---------------------------------------------------------------- steps that resolve nothing

  ghost predicate Quiet(s: State, s': State) {
    && (forall t :: Winner(s', t) == Winner(s, t))
    && (forall sid :: IsVerified(s', sid) <==> IsVerified(s, sid))
    && (forall sid | IsVerified(s, sid) :: s'.db.sessions[sid].verified == s.db.sessions[sid].verified)
    && s'.notified == s.notified && s'.log == s.log
  }

  lemma QuietKeepsInv(s: State, s': State)
    requires Inv(s) && Quiet(s, s')
    ensures Inv(s')
  {
    forall t, sid
      ensures Won(s', t, sid) == Won(s, t, sid)
      ensures Won(s', t, sid) ==> t in s.inbounds && t in s'.inbounds && s'.inbounds[t] == s.inbounds[t]
    {
      assert Winner(s', t) == Winner(s, t);
    }
    forall sid | IsVerified(s', sid)
      ensures exists t :: Won(s', t, sid)
    {
      var t :| Won(s, t, sid);
      assert Won(s', t, sid);
    }
    forall sid | sid in MatchedIds(s'.log)
      ensures exists t :: Won(s', t, sid) && s'.inbounds[t].pc.InboundDone?
    {
      var t :| Won(s, t, sid) && s.inbounds[t].pc.InboundDone?;
      assert Won(s', t, sid);
    }
  }

  lemma AdmissionIsQuiet(s: State, t: Id, yes: bool, pick: Option<Id>)
    requires t in s.inbounds && InAdmission(s.inbounds[t].pc)
    ensures Quiet(s, StepAdmission(s, t, s.inbounds[t], yes, pick))
  {}

  lemma FailureIsQuiet(s: State, t: Id)
    requires t in s.inbounds && InFailure(s.inbounds[t].pc)
    ensures Quiet(s, StepFailure(s, t, s.inbounds[t]))
  {}

  lemma OthersAreQuiet(cfg: Config, s: State, a: Action)
    requires !a.InboundStep?
    ensures Quiet(s, Apply(cfg, s, a))
  {
    if a.StartStep? { StartIsQuiet(cfg, s, a.t, a.pick, a.sid, a.code); }
  }

  lemma StartIsQuiet(cfg: Config, s: State, t: Id, pick: Option<Id>, sid: Id, code: string)
    ensures Quiet(s, StepStart(cfg, s, t, pick, sid, code))
  {}

  // ---------------------------------------------------------------- the three resolving steps

  lemma VerifyKeepsInv(cfg: Config, s: State, t: Id, yes: bool)
    requires Inv(s) && t in s.inbounds && s.inbounds[t].pc.Verifying?
    ensures Inv(StepResolution(cfg, s, t, s.inbounds[t], yes))
  {
    var s' := StepResolution(cfg, s, t, s.inbounds[t], yes);
    var won := s.inbounds[t].pc.session;
    if Verify(s.db, won, s.inbounds[t].req.sender).1 {
      forall u, sid
        ensures Won(s', u, sid) <==> (u == t && sid == won) || Won(s, u, sid)
      {}
      forall sid
        ensures IsVerified(s', sid) <==> sid == won || IsVerified(s, sid)
      {}
      assert !IsVerified(s, won);
      forall sid | IsVerified(s', sid)
        ensures exists u :: Won(s', u, sid)
      {
        if sid == won {
          assert Won(s', t, sid);
        } else {
          var u :| Won(s, u, sid);
          assert Won(s', u, sid);
        }
      }
      forall sid | sid in MatchedIds(s'.log)
        ensures exists u :: Won(s', u, sid) && s'.inbounds[u].pc.InboundDone?
      {
        var u :| Won(s, u, sid) && s.inbounds[u].pc.InboundDone?;
        assert Won(s', u, sid);
      }
    } else {
      QuietKeepsInv(s, s');
    }
  }

  lemma NotifyKeepsInv(cfg: Config, s: State, t: Id, yes: bool)
    requires Inv(s) && t in s.inbounds && s.inbounds[t].pc.Notifying?
    ensures Inv(StepResolution(cfg, s, t, s.inbounds[t], yes))
  {
    var s' := StepResolution(cfg, s, t, s.inbounds[t], yes);
    var sid := s.inbounds[t].pc.session;
    assert Won(s, t, sid);
    SameWinners(s, s', t);
  }

  /** A winner moving on keeps everything that depends only on who won what. */
  lemma SameWinners(s: State, s': State, t: Id)
    requires Inv(s) && t in s.inbounds && Holds(s.inbounds[t].pc).Some? && !s.inbounds[t].pc.InboundDone?
    requires t in s'.inbounds && s'.inbounds == s.inbounds[t := s'.inbounds[t]]
    requires Holds(s'.inbounds[t].pc) == Holds(s.inbounds[t].pc) && s'.inbounds[t].req == s.inbounds[t].req
    requires s'.db.sessions == s.db.sessions
    ensures forall u, sid :: Won(s', u, sid) <==> Won(s, u, sid)
    ensures WinnersVerified(s') && WinnersDistinct(s') && VerifiedHaveWinners(s')
    ensures forall sid | sid in MatchedIds(s.log) :: exists u :: u != t && Won(s', u, sid) && s'.inbounds[u].pc.InboundDone?
  {
    forall u, sid
      ensures Won(s', u, sid) <==> Won(s, u, sid)
    {}
    forall sid | IsVerified(s', sid)
      ensures exists u :: Won(s', u, sid)
    {
      assert IsVerified(s, sid);
      var u :| Won(s, u, sid);
      assert Won(s', u, sid);
    }
    forall sid | sid in MatchedIds(s.log)
      ensures exists u :: u != t && Won(s', u, sid) && s'.inbounds[u].pc.InboundDone?
    {
      var u :| Won(s, u, sid) && s.inbounds[u].pc.InboundDone?;
      assert u != t && Won(s', u, sid);
    }
  }

  /** A row adds the session it matched, if any. */
  lemma LogAppend(log: seq<Event>, row: Event)
    ensures MatchedIds(log + [row]) == MatchedIds(log) + if row.matched.Some? then [row.matched.value] else []
  {
    assert (log + [row])[..|log|] == log;
  }

  /** A winner finishes, and its session joins the logged ones or does not. */
  lemma MatchedAuditKeepsInv(s: State, s': State, t: Id, sid: Id)
    requires Inv(s) && t in s.inbounds && s.inbounds[t].pc == Auditing(Matched(sid))
    requires t in s'.inbounds && s'.inbounds == s.inbounds[t := s'.inbounds[t]]
    requires s'.inbounds[t].pc == InboundDone(Matched(sid)) && s'.inbounds[t].req == s.inbounds[t].req
    requires s'.db.sessions == s.db.sessions && s'.notified == s.notified
    requires MatchedIds(s'.log) == MatchedIds(s.log) || MatchedIds(s'.log) == MatchedIds(s.log) + [sid]
    ensures Inv(s')
  {
    assert Won(s, t, sid);
    SameWinners(s, s', t);
    assert Won(s', t, sid);
    NotYetLogged(s, t, sid);
    AppendFresh(MatchedIds(s.log), sid);
    FinishedKeepsNotices(s, s', t);
  }

  lemma FinishedKeepsNotices(s: State, s': State, t: Id)
    requires NotifiedOnce(s) && t in s.inbounds && t in s'.inbounds && s'.inbounds == s.inbounds[t := s'.inbounds[t]]
    requires !s'.inbounds[t].pc.Notifying? && s'.db.sessions == s.db.sessions && s'.notified == s.notified
    ensures NotifiedOnce(s')
  {
    forall sid | sid in s'.notified
      ensures IsVerified(s', sid)
    {
      assert IsVerified(s, sid);
    }
    forall u, sid | Won(s', u, sid) && s'.inbounds[u].pc.Notifying?
      ensures sid !in s'.notified
    {
      assert Won(s, u, sid) && s.inbounds[u].pc.Notifying?;
    }
  }

  /** A request that won nothing finishes. */
  lemma UnmatchedAuditKeepsInv(s: State, s': State, t: Id)
    requires Inv(s) && t in s.inbounds && Holds(s.inbounds[t].pc).None?
    requires t in s'.inbounds && s'.inbounds == s.inbounds[t := s'.inbounds[t]] && Holds(s'.inbounds[t].pc).None?
    requires s'.db.sessions == s.db.sessions && s'.notified == s.notified
    requires MatchedIds(s'.log) == MatchedIds(s.log)
    ensures Inv(s')
  {
    var quiet := s'.(log := s.log);
    QuietKeepsInv(s, quiet);
    WinnerFreeLog(quiet, s');
  }

  lemma AuditKeepsInv(cfg: Config, s: State, t: Id, yes: bool)
    requires Inv(s) && t in s.inbounds && s.inbounds[t].pc.Auditing?
    ensures Inv(StepResolution(cfg, s, t, s.inbounds[t], yes))
  {
    var th := s.inbounds[t];
    var s' := StepResolution(cfg, s, t, th, yes);
    AuditDoes(cfg, s, t, yes);
    if th.pc.outcome.Matched? {
      MatchedAuditKeepsInv(s, s', t, th.pc.outcome.session);
    } else {
      UnmatchedAuditKeepsInv(s, s', t);
    }
  }

  /** What the audit step changes. */
  lemma AuditDoes(cfg: Config, s: State, t: Id, yes: bool)
    requires t in s.inbounds && s.inbounds[t].pc.Auditing?
    ensures var th := s.inbounds[t];
      var s' := StepResolution(cfg, s, t, th, yes);
      var matched := if th.pc.outcome.Matched? then [th.pc.outcome.session] else [];
      && t in s'.inbounds && s'.inbounds == s.inbounds[t := s'.inbounds[t]]
      && s'.inbounds[t] == th.(pc := InboundDone(th.pc.outcome))
      && s'.db.sessions == s.db.sessions && s'.notified == s.notified
      && MatchedIds(s'.log) == MatchedIds(s.log) + if ReferenceOk(cfg.backend, s.db, Some(th.number)) then matched else []
  {
    LogAppend(s.log, AuditRow(s.inbounds[t], s.inbounds[t].pc.outcome, s.now));
  }

  lemma NotYetLogged(s: State, t: Id, sid: Id)
    requires Inv(s) && Won(s, t, sid) && !s.inbounds[t].pc.InboundDone?
    ensures sid !in MatchedIds(s.log)
  {}

  lemma AppendFresh(xs: seq<Id>, x: Id)
    requires NoRepeats(xs) && x !in xs
    ensures NoRepeats(xs + [x])
  {}

  /** Rows that match nothing do not matter here. */
  lemma WinnerFreeLog(s: State, s': State)
    requires Inv(s) && s' == s.(log := s'.log) && MatchedIds(s'.log) == MatchedIds(s.log)
    ensures Inv(s')
  {
    assert forall t, sid :: Won(s', t, sid) == Won(s, t, sid);
    assert forall sid :: IsVerified(s', sid) == IsVerified(s, sid);
  }

  lemma InvStep(cfg: Config, s: State, a: Action)
    requires Inv(s)
    ensures Inv(Apply(cfg, s, a))
  {
    var s' := Apply(cfg, s, a);
    if !a.InboundStep? {
      OthersAreQuiet(cfg, s, a);
      QuietKeepsInv(s, s');
    } else if a.t in s.inbounds {
      var pc := s.inbounds[a.t].pc;
      if InAdmission(pc) {
        AdmissionIsQuiet(s, a.t, a.yes, a.pick);
        QuietKeepsInv(s, s');
      } else if InFailure(pc) {
        FailureIsQuiet(s, a.t);
        QuietKeepsInv(s, s');
      } else if pc.Verifying? {
        VerifyKeepsInv(cfg, s, a.t, a.yes);
      } else if pc.Notifying? {
        NotifyKeepsInv(cfg, s, a.t, a.yes);
      } else if pc.Auditing? {
        AuditKeepsInv(cfg, s, a.t, a.yes);
      }
    }
  }

  lemma {:induction false} Reachable(cfg: Config, acts: seq<Action>)
    ensures Inv(Exec(cfg, acts))
  {
    if acts != [] {
      Reachable(cfg, acts[..|acts| - 1]);
      InvStep(cfg, Exec(cfg, acts[..|acts| - 1]), acts[|acts| - 1]);
    }
  }

  // ---------------------------------------------------------------- main results

  /** Each session is won by at most one request, and each verified session by exactly one. */
  lemma ExactlyOneWinner(cfg: Config, acts: seq<Action>, sid: Id)
    requires IsVerified(Exec(cfg, acts), sid)
    ensures var s := Exec(cfg, acts);
      exists t :: Won(s, t, sid) && s.db.sessions[sid].verified == Some(s.inbounds[t].req.sender)
                  && forall u | Won(s, u, sid) :: u == t
  {
    Reachable(cfg, acts);
    var s := Exec(cfg, acts);
    var t :| Won(s, t, sid);
  }

  /** At most one request ever answers matched for a session. */
  lemma AtMostOneMatchedAnswer(cfg: Config, acts: seq<Action>, t: Id, u: Id, sid: Id)
    requires var s := Exec(cfg, acts);
      && t in s.inbounds && s.inbounds[t].pc == InboundDone(Matched(sid))
      && u in s.inbounds && s.inbounds[u].pc == InboundDone(Matched(sid))
    ensures t == u
    ensures IsVerified(Exec(cfg, acts), sid)
  {
    Reachable(cfg, acts);
    assert Won(Exec(cfg, acts), t, sid) && Won(Exec(cfg, acts), u, sid);
  }

  /** No session is ever notified twice, and none that is not verified. */
  lemma NotifiedAtMostOnce(cfg: Config, acts: seq<Action>)
    ensures NoRepeats(Exec(cfg, acts).notified)
    ensures forall sid | sid in Exec(cfg, acts).notified :: IsVerified(Exec(cfg, acts), sid)
  {
    Reachable(cfg, acts);
  }

  /** Whatever happens later, a decided session keeps its status and its verified number. */
  lemma DecidedIsFinal(cfg: Config, acts: seq<Action>, more: seq<Action>, sid: Id)
    requires sid in Exec(cfg, acts).db.sessions && Exec(cfg, acts).db.sessions[sid].status != Pending
    ensures var before, after := Exec(cfg, acts).db.sessions[sid], Exec(cfg, acts + more).db.sessions;
      sid in after && after[sid].status == before.status && after[sid].verified == before.verified
  {
    ExecSplit(cfg, INIT, acts, more);
    SessionRules.RunEvolves(cfg, Exec(cfg, acts), more);
    assert SessionRules.Evolves(Exec(cfg, acts).db.sessions[sid], Exec(cfg, acts + more).db.sessions[sid]);
  }

  ghost function VerifiedIds(s: State): set<Id> { set sid | sid in s.db.sessions && s.db.sessions[sid].status == Verified }

  /** Winners whose audit row is still to be written. */
  ghost function Outstanding(s: State): set<Id> {
    set t | t in s.inbounds && Holds(s.inbounds[t].pc).Some? && !s.inbounds[t].pc.InboundDone?
  }

  ghost function Elements(xs: seq<Id>): set<Id> { set x | x in xs }

  lemma {:induction false} NoRepeatsCount(xs: seq<Id>)
    requires NoRepeats(xs)
    ensures |Elements(xs)| == |xs|
  {
    if xs != [] {
      var n := |xs| - 1;
      NoRepeatsCount(xs[..n]);
      assert xs[n] !in Elements(xs[..n]);
      assert Elements(xs) == Elements(xs[..n]) + {xs[n]};
    }
  }

  /** Winners that have finished without leaving a row. */
  ghost function Unlogged(s: State): set<Id> {
    set t | t in s.inbounds && Holds(s.inbounds[t].pc).Some? && s.inbounds[t].pc.InboundDone?
            && Holds(s.inbounds[t].pc).value !in MatchedIds(s.log)
  }

  /** Winners without a row, and the sessions they won. */
  ghost function Rowless(s: State): set<Id> {
    set t | t in s.inbounds && Holds(s.inbounds[t].pc).Some? && Holds(s.inbounds[t].pc).value !in MatchedIds(s.log)
  }

  ghost function Missing(s: State): set<Id> { set sid | sid in VerifiedIds(s) && sid !in MatchedIds(s.log) }

  lemma RowlessSplit(s: State)
    requires Inv(s)
    ensures |Rowless(s)| == |Outstanding(s)| + |Unlogged(s)|
  {
    forall t | t in Outstanding(s)
      ensures t in Rowless(s)
    {
      NotYetLogged(s, t, Holds(s.inbounds[t].pc).value);
    }
    assert Rowless(s) == Outstanding(s) + Unlogged(s);
    assert Outstanding(s) !! Unlogged(s);
  }

  lemma VerifiedSplit(s: State)
    requires Inv(s)
    ensures |VerifiedIds(s)| == |MatchedIds(s.log)| + |Missing(s)|
  {
    var logged := Elements(MatchedIds(s.log));
    NoRepeatsCount(MatchedIds(s.log));
    forall sid | sid in logged
      ensures sid in VerifiedIds(s)
    {
      var t :| Won(s, t, sid) && s.inbounds[t].pc.InboundDone?;
    }
    assert VerifiedIds(s) == logged + Missing(s);
    assert logged !! Missing(s);
  }

  /** Each missing session has its own rowless winner. */
  lemma RowlessCount(s: State)
    requires Inv(s)
    ensures |Missing(s)| == |Rowless(s)|
  {
    forall sid | sid in Missing(s)
      ensures exists t :: t in Rowless(s) && Won(s, t, sid)
    {
      assert IsVerified(s, sid);
      var t :| Won(s, t, sid);
      assert t in Rowless(s);
    }
    var winner := map sid | sid in Missing(s) :: var t: Id :| t in Rowless(s) && Won(s, t, sid); t;
    InjectionBound(Missing(s), Rowless(s), sid requires sid in winner => winner[sid]);
    var won := map t | t in Rowless(s) :: Holds(s.inbounds[t].pc).value;
    assert forall t | t in Rowless(s) :: Won(s, t, won[t]);
    InjectionBound(Rowless(s), Missing(s), t requires t in won => won[t]);
  }

  /**
   Conservation on either backend: every verified session is named by exactly one matched audit
   row, or its winner has yet to write one, or its winner's row was refused.
   */
  lemma VerificationsAreAccounted(cfg: Config, acts: seq<Action>)
    ensures var s := Exec(cfg, acts);
      |VerifiedIds(s)| == |MatchedIds(s.log)| + |Outstanding(s)| + |Unlogged(s)|
  {
    Reachable(cfg, acts);
    AccountedIn(Exec(cfg, acts));
  }

  lemma AccountedIn(s: State)
    requires Inv(s)
    ensures |VerifiedIds(s)| == |MatchedIds(s.log)| + |Outstanding(s)| + |Unlogged(s)|
  {
    VerifiedSplit(s);
    RowlessCount(s);
    RowlessSplit(s);
  }

  // ---------------------------------------------------------------- when no row is refused

  /** The step writes the audit row of a match, and the store refuses it. */
  ghost predicate RowRefused(cfg: Config, s: State, a: Action) {
    && a.InboundStep? && a.t in s.inbounds
    && s.inbounds[a.t].pc.Auditing? && s.inbounds[a.t].pc.outcome.Matched?
    && !ReferenceOk(cfg.backend, s.db, Some(s.inbounds[a.t].number))
  }

  ghost predicate AuditWritesSucceed(cfg: Config, acts: seq<Action>) {
    forall i | 0 <= i < |acts| :: !RowRefused(cfg, Exec(cfg, acts[..i]), acts[i])
  }

  lemma QuietKeepsUnlogged(s: State, s': State)
    requires Quiet(s, s')
    ensures Unlogged(s') == Unlogged(s)
  {
    forall t
      ensures t in Unlogged(s') <==> t in Unlogged(s)
    {
      assert Winner(s', t) == Winner(s, t);
    }
  }

  lemma ResolutionUnlogged(cfg: Config, s: State, t: Id, yes: bool)
    requires Inv(s) && t in s.inbounds && !InAdmission(s.inbounds[t].pc) && !InFailure(s.inbounds[t].pc)
    ensures Unlogged(StepResolution(cfg, s, t, s.inbounds[t], yes))
         == Unlogged(s) + if RowRefused(cfg, s, InboundStep(t, yes, None)) then {t} else {}
  {
    var th, s' := s.inbounds[t], StepResolution(cfg, s, t, s.inbounds[t], yes);
    if th.pc.Auditing? {
      AuditDoes(cfg, s, t, yes);
      if th.pc.outcome.Matched? {
        FinishedWinner(s, s', t, th.pc.outcome.session, ReferenceOk(cfg.backend, s.db, Some(th.number)));
      } else {
        UnfinishedWinner(s, s', t);
      }
    } else if InboundInFlight(th) {
      UnfinishedDoes(cfg, s, t, yes);
      UnfinishedWinner(s, s', t);
    }
  }

  lemma UnfinishedDoes(cfg: Config, s: State, t: Id, yes: bool)
    requires t in s.inbounds && (s.inbounds[t].pc.Verifying? || s.inbounds[t].pc.Notifying?)
    ensures var s' := StepResolution(cfg, s, t, s.inbounds[t], yes);
      && t in s'.inbounds && s'.inbounds == s.inbounds[t := s'.inbounds[t]]
      && InboundInFlight(s'.inbounds[t]) && s'.log == s.log
  {}

  /** A request that is not a finished winner, before or after its step. */
  lemma UnfinishedWinner(s: State, s': State, t: Id)
    requires t in s.inbounds && t in s'.inbounds && s'.inbounds == s.inbounds[t := s'.inbounds[t]]
    requires InboundInFlight(s.inbounds[t]) && (InboundInFlight(s'.inbounds[t]) || Holds(s'.inbounds[t].pc).None?)
    requires MatchedIds(s'.log) == MatchedIds(s.log)
    ensures Unlogged(s') == Unlogged(s)
  {
    forall u
      ensures u in Unlogged(s') <==> u in Unlogged(s)
    {}
  }

  /** A winner finishes with its row or without. */
  lemma FinishedWinner(s: State, s': State, t: Id, sid: Id, written: bool)
    requires Inv(s) && t in s.inbounds && s.inbounds[t].pc == Auditing(Matched(sid))
    requires t in s'.inbounds && s'.inbounds == s.inbounds[t := s'.inbounds[t]] && s'.inbounds[t].pc == InboundDone(Matched(sid))
    requires MatchedIds(s'.log) == MatchedIds(s.log) + if written then [sid] else []
    ensures Unlogged(s') == Unlogged(s) + if written then {} else {t}
  {
    assert Won(s, t, sid);
    NotYetLogged(s, t, sid);
    forall u
      ensures u in Unlogged(s') <==> u in Unlogged(s) || (u == t && !written)
    {
      if u in Unlogged(s) { assert Won(s, u, Holds(s.inbounds[u].pc).value); }
    }
  }

  lemma UnloggedStep(cfg: Config, s: State, a: Action)
    requires Inv(s)
    ensures Unlogged(Apply(cfg, s, a)) == Unlogged(s) + if RowRefused(cfg, s, a) then {a.t} else {}
  {
    if !a.InboundStep? {
      OthersAreQuiet(cfg, s, a);
      QuietKeepsUnlogged(s, Apply(cfg, s, a));
    } else if a.t in s.inbounds {
      if InAdmission(s.inbounds[a.t].pc) {
        AdmissionIsQuiet(s, a.t, a.yes, a.pick);
        QuietKeepsUnlogged(s, Apply(cfg, s, a));
      } else if InFailure(s.inbounds[a.t].pc) {
        FailureIsQuiet(s, a.t);
        QuietKeepsUnlogged(s, Apply(cfg, s, a));
      } else {
        ResolutionUnlogged(cfg, s, a.t, a.yes);
      }
    }
  }

  lemma {:induction false} NoneUnloggedIffWritesSucceed(cfg: Config, acts: seq<Action>)
    ensures Unlogged(Exec(cfg, acts)) == {} <==> AuditWritesSucceed(cfg, acts)
  {
    if acts != [] {
      var n := |acts| - 1;
      NoneUnloggedIffWritesSucceed(cfg, acts[..n]);
      Reachable(cfg, acts[..n]);
      UnloggedStep(cfg, Exec(cfg, acts[..n]), acts[n]);
      WritesByPrefix(cfg, acts);
    }
  }

  lemma WritesByPrefix(cfg: Config, acts: seq<Action>)
    requires acts != []
    ensures var n := |acts| - 1;
      AuditWritesSucceed(cfg, acts) <==> AuditWritesSucceed(cfg, acts[..n]) && !RowRefused(cfg, Exec(cfg, acts[..n]), acts[n])
  {
    var n := |acts| - 1;
    var before := acts[..n];
    assert forall i | 0 <= i <= n :: before[..i] == acts[..i];
    assert forall i | 0 <= i < n :: before[i] == acts[i];
  }

  /**
   Verifications are matched rows plus outstanding ones exactly when no row of a match was
   refused: in particular on every SQLite run, and on every Postgres run in which the number of
   a match outlives its audit write.
   */
  lemma RowsAccountIffWritesSucceed(cfg: Config, acts: seq<Action>)
    ensures var s := Exec(cfg, acts);
      |VerifiedIds(s)| == |MatchedIds(s.log)| + |Outstanding(s)| <==> AuditWritesSucceed(cfg, acts)
    ensures cfg.backend.Sqlite? ==> AuditWritesSucceed(cfg, acts)
  {
    VerificationsAreAccounted(cfg, acts);
    NoneUnloggedIffWritesSucceed(cfg, acts);
  }
}
