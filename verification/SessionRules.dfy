/**
 What every reachable state says about sessions: their shape, how they may change, and that
 an inbound signal can point at no more than one of them.
 */
module SessionRules {
  import opened Wrappers
  import opened Store
  import opened Protocol
  import Codes

  // ---------------------------------------------------------------- shape

  ghost predicate PlanOk(p: Plan) {
    (p.binding == Claim ==> p.claimed.Some?) && (p.channel == Call ==> p.binding == Claim)
  }

  ghost predicate SessionOk(s: Session) {
    && s.status != Failed
    && (s.verified.Some? <==> s.status == Verified)
    && (s.binding == Claim ==> s.claimed.Some?)
    && (s.channel == Call ==> s.binding == Claim && s.code.None?)
    && (s.channel != Call ==> s.code.Some? && Codes.AllDigits(s.code.value))
  }

  /** Two pending sessions of one number share neither a code nor the voice line. */
  ghost predicate Distinct(a: Session, b: Session) {
    a.status == Pending && b.status == Pending && a.number.Some? && a.number == b.number ==>
      && (a.code.Some? ==> a.code != b.code)
      && !(IsVoice(a.channel) && IsVoice(b.channel))
  }

  ghost predicate AllDistinct(sessions: map<Id, Session>) {
    forall i, j | i in sessions && j in sessions && i != j :: Distinct(sessions[i], sessions[j])
  }

  ghost predicate Inv(s: State) {
    && (forall t | t in s.starts :: PlanOk(s.starts[t].plan))
    && (forall sid | sid in s.db.sessions :: SessionOk(s.db.sessions[sid]))
    && AllDistinct(s.db.sessions)
  }

  // ---------------------------------------------------------------- change

  /**
   How one session may change: its terms are fixed, a decided status is final, and a Postgres
   device deletion may null its number.
   */
  ghost predicate Evolves(o: Session, n: Session) {
    && n == o.(status := n.status, verified := n.verified, attempts := n.attempts, number := n.number)
    && n.attempts >= o.attempts
    && (n.number == o.number || n.number.None?)
    && ( || (n.status == o.status && n.verified == o.verified)
         || (o.status == Pending && n.status == Verified && n.verified.Some?)
         || (o.status == Pending && n.status == Expired && n.verified == o.verified))
  }

  ghost predicate AllEvolve(was: map<Id, Session>, now: map<Id, Session>) {
    was.Keys <= now.Keys && forall sid | sid in was :: Evolves(was[sid], now[sid])
  }

  /** The step in which request t inserts session sid. */
  ghost predicate Inserts(cfg: Config, s: State, t: Id, sid: Id, code: string) {
    && t in s.starts && s.starts[t].pc.Creating? && sid !in s.db.sessions
    && ValidCode(s.starts[t].plan, code)
    && !Conflicts(s.db, Candidate(s.starts[t].plan, s.starts[t].pc.number, code, s.now))
    && ReferenceOk(cfg.backend, s.db, Some(s.starts[t].pc.number))
  }

  /** Every step lets existing sessions evolve, and at most one start inserts one new session. */
  lemma SessionsEvolve(cfg: Config, s: State, a: Action)
    ensures var was, now := s.db.sessions, Apply(cfg, s, a).db.sessions;
      if a.StartStep? && Inserts(cfg, s, a.t, a.sid, a.code) then
        now == was[a.sid := Candidate(s.starts[a.t].plan, s.starts[a.t].pc.number, a.code, s.now)]
      else now.Keys == was.Keys
    ensures AllEvolve(s.db.sessions, Apply(cfg, s, a).db.sessions)
  {
    if a.InboundStep? {
      SessionsEvolveInbound(cfg, s, a.t, a.yes, a.pick);
    }
  }

  lemma SessionsEvolveInbound(cfg: Config, s: State, t: Id, yes: bool, pick: Option<Id>)
    ensures StepInbound(cfg, s, t, yes, pick).db.sessions.Keys == s.db.sessions.Keys
    ensures AllEvolve(s.db.sessions, StepInbound(cfg, s, t, yes, pick).db.sessions)
  {
    if t in s.inbounds {
      var th := s.inbounds[t];
      if InAdmission(th.pc) { AdmissionKeepsSessions(s, t, th, yes, pick); }
      else if InFailure(th.pc) { FailureKeepsSessions(s, t, th); }
      else { ResolutionEvolvesSessions(cfg, s, t, th, yes); }
    }
  }

  lemma AdmissionKeepsSessions(s: State, t: Id, th: InboundThread, yes: bool, pick: Option<Id>)
    ensures StepAdmission(s, t, th, yes, pick).db == s.db
  {}

  lemma FailureKeepsSessions(s: State, t: Id, th: InboundThread)
    ensures var s' := StepFailure(s, t, th);
      && s'.db.sessions.Keys == s.db.sessions.Keys
      && AllEvolve(s.db.sessions, s'.db.sessions)
  {}

  lemma ResolutionEvolvesSessions(cfg: Config, s: State, t: Id, th: InboundThread, yes: bool)
    ensures var s' := StepResolution(cfg, s, t, th, yes);
      && s'.db.sessions.Keys == s.db.sessions.Keys
      && AllEvolve(s.db.sessions, s'.db.sessions)
  {}

  lemma EvolvesTransitive(a: map<Id, Session>, b: map<Id, Session>, c: map<Id, Session>)
    requires AllEvolve(a, b) && AllEvolve(b, c)
    ensures AllEvolve(a, c)
  {
    forall sid | sid in a
      ensures sid in c && Evolves(a[sid], c[sid])
    {
      assert Evolves(a[sid], b[sid]) && Evolves(b[sid], c[sid]);
    }
  }

  lemma {:induction false} RunEvolves(cfg: Config, s: State, acts: seq<Action>)
    ensures AllEvolve(s.db.sessions, ExecFrom(cfg, s, acts).db.sessions)
  {
    if acts != [] {
      var mid := ExecFrom(cfg, s, acts[..|acts| - 1]);
      RunEvolves(cfg, s, acts[..|acts| - 1]);
      SessionsEvolve(cfg, mid, acts[|acts| - 1]);
      EvolvesTransitive(s.db.sessions, mid.db.sessions, ExecFrom(cfg, s, acts).db.sessions);
    }
  }

  // ---------------------------------------------------------------- the invariant

  lemma DistinctSurvivesEvolution(was: map<Id, Session>, now: map<Id, Session>)
    requires AllDistinct(was) && AllEvolve(was, now) && now.Keys == was.Keys
    ensures AllDistinct(now)
  {
    forall i, j | i in now && j in now && i != j
      ensures Distinct(now[i], now[j])
    {
      assert Distinct(was[i], was[j]) && Evolves(was[i], now[i]) && Evolves(was[j], now[j]);
    }
  }

  lemma SessionOkSurvivesEvolution(o: Session, n: Session)
    requires SessionOk(o) && Evolves(o, n)
    ensures SessionOk(n)
  {}

  lemma DistinctSurvivesInsert(db: Db, sid: Id, cand: Session)
    requires AllDistinct(db.sessions) && sid !in db.sessions && !Conflicts(db, cand)
    ensures AllDistinct(db.sessions[sid := cand])
  {
    forall o | o in db.sessions
      ensures Distinct(cand, db.sessions[o]) && Distinct(db.sessions[o], cand)
    {}
  }

  lemma PlansStayOk(cfg: Config, s: State, a: Action)
    requires Inv(s)
    ensures forall t | t in Apply(cfg, s, a).starts :: PlanOk(Apply(cfg, s, a).starts[t].plan)
  {
    if a.InboundStep? { InboundFrame(cfg, s, a.t, a.yes, a.pick); }
  }

  lemma InvStep(cfg: Config, s: State, a: Action)
    requires Inv(s)
    ensures Inv(Apply(cfg, s, a))
  {
    var s' := Apply(cfg, s, a);
    SessionsEvolve(cfg, s, a);
    PlansStayOk(cfg, s, a);
    if a.StartStep? && Inserts(cfg, s, a.t, a.sid, a.code) {
      DistinctSurvivesInsert(s.db, a.sid, s'.db.sessions[a.sid]);
    } else {
      DistinctSurvivesEvolution(s.db.sessions, s'.db.sessions);
    }
    forall sid | sid in s.db.sessions
      ensures SessionOk(s'.db.sessions[sid])
    {
      SessionOkSurvivesEvolution(s.db.sessions[sid], s'.db.sessions[sid]);
    }
  }

  lemma {:induction false} Reachable(cfg: Config, acts: seq<Action>)
    ensures Inv(Exec(cfg, acts))
  {
    if acts != [] {
      Reachable(cfg, acts[..|acts| - 1]);
      InvStep(cfg, Exec(cfg, acts[..|acts| - 1]), acts[|acts| - 1]);
    }
  }

  // ---------------------------------------------------------------- unique resolution

  /** In every reachable state a lookup hits at most one session, so its LIMIT 1 never chooses. */
  lemma LookupNeverChooses(cfg: Config, acts: seq<Action>, target: Target, pick: Option<Id>, pick': Option<Id>)
    requires var s := Exec(cfg, acts);
      IsFound(s.db, target, s.now, pick) && IsFound(s.db, target, s.now, pick')
    ensures pick == pick'
    ensures forall sid | sid in Exec(cfg, acts).db.sessions && pick != Some(sid) ::
              !Hits(target, Exec(cfg, acts).db.sessions[sid], Exec(cfg, acts).now)
  {
    Reachable(cfg, acts);
    var s := Exec(cfg, acts);
    forall i, j | i in s.db.sessions && j in s.db.sessions && Hits(target, s.db.sessions[i], s.now) && Hits(target, s.db.sessions[j], s.now)
      ensures i == j
    {
      assert i != j ==> Distinct(s.db.sessions[i], s.db.sessions[j]);
    }
  }

  /** One voice verification per number at a time, and one session per (number, code). */
  lemma PendingSessionsAreDistinct(cfg: Config, acts: seq<Action>, i: Id, j: Id)
    requires var s := Exec(cfg, acts).db.sessions;
      i in s && j in s && i != j && s[i].status == Pending && s[j].status == Pending && s[i].number.Some? && s[i].number == s[j].number
    ensures var s := Exec(cfg, acts).db.sessions;
      && !(IsVoice(s[i].channel) && IsVoice(s[j].channel))
      && (s[i].code.Some? ==> s[i].code != s[j].code)
  {
    Reachable(cfg, acts);
    assert Distinct(Exec(cfg, acts).db.sessions[i], Exec(cfg, acts).db.sessions[j]);
  }

  /** Sessions obey the channel and binding rules in every reachable state; none is ever failed. */
  lemma SessionsObeyComboRules(cfg: Config, acts: seq<Action>, sid: Id)
    requires sid in Exec(cfg, acts).db.sessions
    ensures var s := Exec(cfg, acts).db.sessions[sid];
      && s.status != Failed
      && (s.verified.Some? <==> s.status == Verified)
      && (s.binding == Claim ==> s.claimed.Some?)
      && (s.channel == Call ==> s.binding == Claim && s.claimed.Some? && s.code.None?)
      && (s.channel != Call ==> s.code.Some?)
  {
    Reachable(cfg, acts);
  }

  // ---------------------------------------------------------------- missed calls never mismatch

  predicate IsMissedCall(req: InboundRequest) { req.kind == "call" && TrimSpace(req.body) == "" }

  ghost predicate MentionsMismatch(pc: InboundPc) {
    || pc.Attempting?
    || (pc.FailCount? && pc.reason == ClaimMismatch)
    || (pc.FloodCount? && pc.reason == ClaimMismatch)
    || (pc.AddBlock? && pc.reason == ClaimMismatch)
    || pc == Auditing(Unmatched(ClaimMismatch)) || pc == InboundDone(Unmatched(ClaimMismatch))
  }

  ghost predicate NoMissedCallMismatch(s: State) {
    forall t | t in s.inbounds && IsMissedCall(s.inbounds[t].req) :: !MentionsMismatch(s.inbounds[t].pc)
  }

  lemma NoMismatchStep(cfg: Config, s: State, t: Id, yes: bool, pick: Option<Id>)
    requires NoMissedCallMismatch(s)
    ensures NoMissedCallMismatch(StepInbound(cfg, s, t, yes, pick))
  {
    if t in s.inbounds {
      var th := s.inbounds[t];
      if InAdmission(th.pc) { NoMismatchInAdmission(s, t, th, yes, pick); }
      else if InFailure(th.pc) { NoMismatchInFailure(s, t, th); }
      else { NoMismatchInResolution(cfg, s, t, th, yes); }
    }
  }

  lemma NoMismatchInResolution(cfg: Config, s: State, t: Id, th: InboundThread, yes: bool)
    requires NoMissedCallMismatch(s) && t in s.inbounds && th == s.inbounds[t]
    ensures NoMissedCallMismatch(StepResolution(cfg, s, t, th, yes))
  {}

  lemma NoMismatchInAdmission(s: State, t: Id, th: InboundThread, yes: bool, pick: Option<Id>)
    requires NoMissedCallMismatch(s) && t in s.inbounds && th == s.inbounds[t] && InAdmission(th.pc)
    ensures NoMissedCallMismatch(StepAdmission(s, t, th, yes, pick))
  {}

  lemma NoMismatchInFailure(s: State, t: Id, th: InboundThread)
    requires NoMissedCallMismatch(s) && t in s.inbounds && th == s.inbounds[t]
    ensures NoMissedCallMismatch(StepFailure(s, t, th))
  {}

  /** claim_mismatch is unreachable for missed calls: their lookup already matches on the caller. */
  lemma {:induction false} MissedCallNeverMismatches(cfg: Config, acts: seq<Action>)
    ensures NoMissedCallMismatch(Exec(cfg, acts))
  {
    if acts != [] {
      var s := Exec(cfg, acts[..|acts| - 1]);
      var a := acts[|acts| - 1];
      MissedCallNeverMismatches(cfg, acts[..|acts| - 1]);
      if a.InboundStep? {
        NoMismatchStep(cfg, s, a.t, a.yes, a.pick);
      } else if a.StartStep? {
        assert StepStart(cfg, s, a.t, a.pick, a.sid, a.code).inbounds == s.inbounds;
      }
    }
  }
}
