/**
 What the periodic sweep takes away (store ExpireDue): it expires exactly the sessions whose time
 has come, and nothing else ever expires one.
 */
module Expiry {
  import opened Wrappers
  import opened Store
  import opened Protocol
  import SessionRules

  /** A pending session whose expiry has passed is set to expired; every other row stays as it is. */
  predicate SweptTo(was: Session, row: Session, now: Millis) {
    if was.status == Pending && was.expiresAt <= now then row == was.(status := Expired) else row == was
  }

  lemma SweepSelects(db: Db, now: Millis)
    ensures var db' := ExpireDue(db, now);
      && db' == db.(sessions := db'.sessions) && db'.sessions.Keys == db.sessions.Keys
      && forall sid | sid in db.sessions :: SweptTo(db.sessions[sid], db'.sessions[sid], now)
  {}

  /** Right after a sweep every pending session has time left, and those that had some are unchanged. */
  lemma SweepLeavesNoneDue(cfg: Config, acts: seq<Action>, sid: Id)
    requires sid in Exec(cfg, acts).db.sessions
    ensures var s, s' := Exec(cfg, acts), Exec(cfg, acts + [Sweep]);
      && sid in s'.db.sessions && s'.now == s.now
      && (s'.db.sessions[sid].status == Pending ==> s'.db.sessions[sid].expiresAt > s'.now)
      && (s.db.sessions[sid].expiresAt > s.now ==> s'.db.sessions[sid] == s.db.sessions[sid])
      && (s.db.sessions[sid].status == Pending && s.db.sessions[sid].expiresAt <= s.now ==> s'.db.sessions[sid].status == Expired)
  {
    assert (acts + [Sweep])[..|acts|] == acts;
    SweepSelects(Exec(cfg, acts).db, Exec(cfg, acts).now);
  }

  // ---------------------------------------------------------------- over a run

  ghost predicate ExpiredAreDue(s: State) {
    forall sid | sid in s.db.sessions && s.db.sessions[sid].status == Expired :: s.db.sessions[sid].expiresAt <= s.now
  }

  /** Only a sweep turns a session expired. */
  ghost predicate NoneExpires(s: State, s': State) {
    forall sid | sid in s'.db.sessions && s'.db.sessions[sid].status == Expired ::
      sid in s.db.sessions && s.db.sessions[sid].status == Expired && s.db.sessions[sid].expiresAt == s'.db.sessions[sid].expiresAt
  }

  lemma InboundExpiresNone(cfg: Config, s: State, t: Id, yes: bool, pick: Option<Id>)
    ensures NoneExpires(s, StepInbound(cfg, s, t, yes, pick))
  {
    if t in s.inbounds {
      var th := s.inbounds[t];
      if InAdmission(th.pc) { SessionRules.AdmissionKeepsSessions(s, t, th, yes, pick); }
      else if InFailure(th.pc) { FailureExpiresNone(s, t, th); }
      else { ResolutionExpiresNone(cfg, s, t, th, yes); }
    }
  }

  lemma FailureExpiresNone(s: State, t: Id, th: InboundThread)
    ensures NoneExpires(s, StepFailure(s, t, th))
  {}

  lemma ResolutionExpiresNone(cfg: Config, s: State, t: Id, th: InboundThread, yes: bool)
    ensures NoneExpires(s, StepResolution(cfg, s, t, th, yes))
  {}

  lemma OthersExpireNone(cfg: Config, s: State, a: Action)
    requires !a.Sweep? && !a.InboundStep?
    ensures NoneExpires(s, Apply(cfg, s, a)) && Apply(cfg, s, a).now >= s.now
  {}

  lemma ExpiredStep(cfg: Config, s: State, a: Action)
    requires ExpiredAreDue(s)
    ensures ExpiredAreDue(Apply(cfg, s, a))
  {
    if a.Sweep? {
      SweepSelects(s.db, s.now);
    } else if a.InboundStep? {
      InboundFrame(cfg, s, a.t, a.yes, a.pick);
      InboundExpiresNone(cfg, s, a.t, a.yes, a.pick);
    } else {
      OthersExpireNone(cfg, s, a);
    }
  }

  /** No session is ever expired before its time. */
  lemma {:induction false} NoneExpiresEarly(cfg: Config, acts: seq<Action>)
    ensures ExpiredAreDue(Exec(cfg, acts))
  {
    if acts != [] {
      NoneExpiresEarly(cfg, acts[..|acts| - 1]);
      ExpiredStep(cfg, Exec(cfg, acts[..|acts| - 1]), acts[|acts| - 1]);
    }
  }

  /** A pending session with time left is still pending, unless it has been verified. */
  lemma PendingUntilDue(cfg: Config, acts: seq<Action>, more: seq<Action>, sid: Id)
    requires sid in Exec(cfg, acts).db.sessions && Exec(cfg, acts).db.sessions[sid].status == Pending
    requires Exec(cfg, acts).db.sessions[sid].expiresAt > Exec(cfg, acts + more).now
    ensures sid in Exec(cfg, acts + more).db.sessions
    ensures var sess := Exec(cfg, acts + more).db.sessions[sid];
      sess.expiresAt == Exec(cfg, acts).db.sessions[sid].expiresAt && (sess.status == Pending || sess.status == Verified)
  {
    NoneExpiresEarly(cfg, acts + more);
    ExecSplit(cfg, INIT, acts, more);
    SessionRules.RunEvolves(cfg, Exec(cfg, acts), more);
    assert SessionRules.Evolves(Exec(cfg, acts).db.sessions[sid], Exec(cfg, acts + more).db.sessions[sid]);
  }
}
