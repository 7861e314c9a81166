/**
 Why a verified session is verified, over every interleaving: some request of the number's
 own device found it pending, unexpired and fitting the signal, and its sender is what was
 recorded. Moments of a run are positions in its action sequence, and the moments that count
 are steps of that very request.
 */
module Soundness {
  import opened Wrappers
  import opened Store
  import opened Protocol
  import SessionRules
  import Resolution
  import Codes

  function At(cfg: Config, acts: seq<Action>, i: nat): State
    requires i <= |acts|
  {
    Exec(cfg, acts[..i])
  }

  /** Step i of the run is a step that request t takes. */
  ghost predicate StepsAt(cfg: Config, acts: seq<Action>, t: Id, i: nat) {
    i < |acts| && acts[i].InboundStep? && acts[i].t == t && t in At(cfg, acts, i).inbounds
  }

  /** Step i is request t's own ownership check, and the number it looked up belongs to its device. */
  ghost predicate OwnedAt(cfg: Config, acts: seq<Action>, t: Id, req: InboundRequest, number: Id, i: nat) {
    && StepsAt(cfg, acts, t, i)
    && var s := At(cfg, acts, i);
       && s.inbounds[t].req == req && s.inbounds[t].pc.Lookup? && acts[i].pick == Some(number)
       && number in s.db.numbers && s.db.numbers[number].msisdn == req.number && s.db.numbers[number].device == req.device
  }

  /** The session's channel fits the signal and its code, where it has one, is the one received. */
  ghost predicate Fits(req: InboundRequest, s: Session) {
    if req.kind == "sms" then
      s.channel == Sms && s.code == Some(Codes.ExtractCode(req.body)) && Codes.IsCode(Codes.ExtractCode(req.body))
    else if TrimSpace(req.body) != "" then
      s.channel == Dtmf && s.code == Some(Codes.ExtractCode(req.body)) && Codes.IsCode(Codes.ExtractCode(req.body))
    else s.channel == Call && s.claimed == Some(req.sender)
  }

  /** Step j is request t's own lookup of a session, and it finds sid pending, unexpired, on its number, fitting signal and sender. */
  ghost predicate FoundAt(cfg: Config, acts: seq<Action>, t: Id, req: InboundRequest, number: Id, sid: Id, j: nat) {
    && StepsAt(cfg, acts, t, j)
    && var s := At(cfg, acts, j);
       && s.inbounds[t].req == req && s.inbounds[t].number == number && s.inbounds[t].pc.Matching? && acts[j].pick == Some(sid)
       && sid in s.db.sessions
       && var sess := s.db.sessions[sid];
          && sess.status == Pending && sess.expiresAt > s.now && sess.number == Some(number)
          && Fits(req, sess)
          && (sess.binding == Claim ==> sess.claimed == Some(req.sender))
  }

  ghost predicate Evidence(cfg: Config, acts: seq<Action>, t: Id, th: InboundThread, sid: Id) {
    exists i: nat, j: nat ::
      i < j && OwnedAt(cfg, acts, t, th.req, th.number, i) && FoundAt(cfg, acts, t, th.req, th.number, sid, j)
  }

  // ---------------------------------------------------------------- the invariant over a run

  predicate PastLookup(pc: InboundPc) {
    && !pc.Lookup?
    && (pc.InboundDone? ==> pc.outcome.Matched? || (pc.outcome.Unmatched? && pc.outcome.reason != UnknownNumber))
  }

  /** The session a request is about to verify, or has verified. */
  function Pursues(pc: InboundPc): Option<Id> { if pc.Verifying? then Some(pc.session) else Resolution.Holds(pc) }

  ghost predicate Owned(cfg: Config, acts: seq<Action>, t: Id, th: InboundThread) {
    exists i: nat :: OwnedAt(cfg, acts, t, th.req, th.number, i)
  }

  ghost predicate Justified(cfg: Config, acts: seq<Action>, t: Id, th: InboundThread) {
    && (PastLookup(th.pc) ==> Owned(cfg, acts, t, th))
    && (Pursues(th.pc).Some? ==> Evidence(cfg, acts, t, th, Pursues(th.pc).value))
  }

  ghost predicate AllJustified(cfg: Config, acts: seq<Action>) {
    var s := Exec(cfg, acts);
    forall t | t in s.inbounds :: Justified(cfg, acts, t, s.inbounds[t])
  }

  lemma Earlier(cfg: Config, acts: seq<Action>, a: Action, i: nat)
    requires i <= |acts|
    ensures At(cfg, acts + [a], i) == At(cfg, acts, i)
  {
    assert (acts + [a])[..i] == acts[..i];
  }

  /** What was justified stays justified as the run goes on, for a record that did not change. */
  lemma JustifiedLater(cfg: Config, acts: seq<Action>, a: Action, t: Id, th: InboundThread)
    requires Justified(cfg, acts, t, th)
    ensures Justified(cfg, acts + [a], t, th)
  {
    if PastLookup(th.pc) { OwnedLater(cfg, acts, a, t, th); }
    if Pursues(th.pc).Some? { EvidenceLater(cfg, acts, a, t, th, Pursues(th.pc).value); }
  }

  lemma OwnedLater(cfg: Config, acts: seq<Action>, a: Action, t: Id, th: InboundThread)
    requires Owned(cfg, acts, t, th)
    ensures Owned(cfg, acts + [a], t, th)
  {
    var i: nat :| OwnedAt(cfg, acts, t, th.req, th.number, i);
    Earlier(cfg, acts, a, i);
    assert OwnedAt(cfg, acts + [a], t, th.req, th.number, i);
  }

  lemma EvidenceLater(cfg: Config, acts: seq<Action>, a: Action, t: Id, th: InboundThread, sid: Id)
    requires Evidence(cfg, acts, t, th, sid)
    ensures Evidence(cfg, acts + [a], t, th, sid)
  {
    var i: nat, j: nat :|
      i < j && OwnedAt(cfg, acts, t, th.req, th.number, i) && FoundAt(cfg, acts, t, th.req, th.number, sid, j);
    Earlier(cfg, acts, a, i);
    Earlier(cfg, acts, a, j);
    assert OwnedAt(cfg, acts + [a], t, th.req, th.number, i) && FoundAt(cfg, acts + [a], t, th.req, th.number, sid, j);
  }

  lemma HitsFit(number: Id, req: InboundRequest, sess: Session, now: Millis)
    requires TargetOf(number, req).Some? && Hits(TargetOf(number, req).value, sess, now)
    requires Bind(sess, 0, req.sender).Verifying?
    ensures Fits(req, sess) && sess.number == Some(number)
    ensures sess.binding == Claim ==> sess.claimed == Some(req.sender)
  {
    Codes.ExtractCodeMeaning(req.body);
  }

  // ---------------------------------------------------------------- steps

  /** How a request's record may change in one of its own steps. */
  lemma RecordStep(cfg: Config, s: State, t: Id, yes: bool, pick: Option<Id>)
    requires t in s.inbounds
    ensures var th := s.inbounds[t];
      var s' := StepInbound(cfg, s, t, yes, pick);
      && t in s'.inbounds && s'.inbounds == s.inbounds[t := s'.inbounds[t]]
      && s'.inbounds[t].req == th.req
      && (!th.pc.Lookup? ==> s'.inbounds[t].number == th.number)
      && (PastLookup(s'.inbounds[t].pc) && !PastLookup(th.pc) ==> th.pc.Lookup? && OwnsNow(s, s'.inbounds[t]) && pick == Some(s'.inbounds[t].number))
      && (Pursues(s'.inbounds[t].pc).Some? && Pursues(s'.inbounds[t].pc) != Pursues(th.pc) ==>
            th.pc.Matching? && pick == Pursues(s'.inbounds[t].pc) && FindsNow(s, th, Pursues(s'.inbounds[t].pc).value))
  {
    var th := s.inbounds[t];
    if InAdmission(th.pc) { RecordInAdmission(s, t, yes, pick); }
    else if InFailure(th.pc) { RecordInFailure(s, t); }
    else { RecordInResolution(cfg, s, t, yes); }
  }

  ghost predicate OwnsNow(s: State, th: InboundThread) {
    var n := th.number;
    n in s.db.numbers && s.db.numbers[n].msisdn == th.req.number && s.db.numbers[n].device == th.req.device
  }

  ghost predicate FindsNow(s: State, th: InboundThread, sid: Id) {
    && sid in s.db.sessions && TargetOf(th.number, th.req).Some?
    && Hits(TargetOf(th.number, th.req).value, s.db.sessions[sid], s.now)
    && Bind(s.db.sessions[sid], 0, th.req.sender).Verifying?
  }

  lemma RecordInAdmission(s: State, t: Id, yes: bool, pick: Option<Id>)
    requires t in s.inbounds && InAdmission(s.inbounds[t].pc)
    ensures var th := s.inbounds[t];
      var s' := StepAdmission(s, t, th, yes, pick);
      && t in s'.inbounds && s'.inbounds == s.inbounds[t := s'.inbounds[t]]
      && s'.inbounds[t].req == th.req
      && (!th.pc.Lookup? ==> s'.inbounds[t].number == th.number)
      && (PastLookup(s'.inbounds[t].pc) && th.pc.Lookup? ==> OwnsNow(s, s'.inbounds[t]) && pick == Some(s'.inbounds[t].number))
      && (Pursues(s'.inbounds[t].pc).Some? ==> th.pc.Matching? && pick == Pursues(s'.inbounds[t].pc) && FindsNow(s, th, Pursues(s'.inbounds[t].pc).value))
  {}

  lemma RecordInFailure(s: State, t: Id)
    requires t in s.inbounds && InFailure(s.inbounds[t].pc)
    ensures var th := s.inbounds[t];
      var s' := StepFailure(s, t, th);
      && t in s'.inbounds && s'.inbounds == s.inbounds[t := s'.inbounds[t]]
      && s'.inbounds[t].req == th.req && s'.inbounds[t].number == th.number
      && Pursues(s'.inbounds[t].pc).None?
  {}

  lemma RecordInResolution(cfg: Config, s: State, t: Id, yes: bool)
    requires t in s.inbounds && !InAdmission(s.inbounds[t].pc) && !InFailure(s.inbounds[t].pc)
    ensures var th := s.inbounds[t];
      var s' := StepResolution(cfg, s, t, th, yes);
      && t in s'.inbounds && s'.inbounds == s.inbounds[t := s'.inbounds[t]]
      && s'.inbounds[t].req == th.req && s'.inbounds[t].number == th.number
      && (Pursues(s'.inbounds[t].pc).Some? ==> Pursues(s'.inbounds[t].pc) == Pursues(th.pc))
      && (PastLookup(s'.inbounds[t].pc) ==> PastLookup(th.pc))
  {}

  lemma JustifiedStep(cfg: Config, acts: seq<Action>, a: Action)
    requires AllJustified(cfg, acts)
    ensures AllJustified(cfg, acts + [a])
  {
    var s := Exec(cfg, acts);
    assert (acts + [a])[..|acts|] == acts;
    var s' := Exec(cfg, acts + [a]);
    assert s' == Apply(cfg, s, a);
    forall t | t in s'.inbounds
      ensures Justified(cfg, acts + [a], t, s'.inbounds[t])
    {
      if a.InboundStep? && a.t == t && t in s.inbounds {
        OwnStep(cfg, acts, a);
      } else if t in s.inbounds {
        InboundsKept(cfg, s, a, t);
        JustifiedLater(cfg, acts, a, t, s.inbounds[t]);
      } else {
        NewInbound(cfg, s, a, t);
      }
    }
  }

  lemma NewInbound(cfg: Config, s: State, a: Action, t: Id)
    requires t !in s.inbounds && t in Apply(cfg, s, a).inbounds
    ensures !PastLookup(Apply(cfg, s, a).inbounds[t].pc) && Pursues(Apply(cfg, s, a).inbounds[t].pc).None?
  {
    if a.InboundStep? { InboundFrame(cfg, s, a.t, a.yes, a.pick); }
  }

  lemma InboundsKept(cfg: Config, s: State, a: Action, t: Id)
    requires t in s.inbounds && !(a.InboundStep? && a.t == t)
    ensures t in Apply(cfg, s, a).inbounds && Apply(cfg, s, a).inbounds[t] == s.inbounds[t]
  {
    if a.InboundStep? { InboundFrame(cfg, s, a.t, a.yes, a.pick); }
  }

  lemma OwnStep(cfg: Config, acts: seq<Action>, a: Action)
    requires AllJustified(cfg, acts) && a.InboundStep? && a.t in Exec(cfg, acts).inbounds
    ensures a.t in Exec(cfg, acts + [a]).inbounds
    ensures Justified(cfg, acts + [a], a.t, Exec(cfg, acts + [a]).inbounds[a.t])
  {
    var s := Exec(cfg, acts);
    var now := acts + [a];
    assert now[..|acts|] == acts;
    assert Exec(cfg, now) == StepInbound(cfg, s, a.t, a.yes, a.pick);
    assert At(cfg, now, |acts|) == s;
    RecordStep(cfg, s, a.t, a.yes, a.pick);
    var th, th' := s.inbounds[a.t], Exec(cfg, now).inbounds[a.t];
    JustifiedLater(cfg, acts, a, a.t, th);
    if PastLookup(th'.pc) {
      if PastLookup(th.pc) {
        var i: nat :| OwnedAt(cfg, now, a.t, th.req, th.number, i);
        assert OwnedAt(cfg, now, a.t, th'.req, th'.number, i);
      } else {
        assert OwnedAt(cfg, now, a.t, th'.req, th'.number, |acts|);
      }
    }
    if Pursues(th'.pc).Some? {
      var sid := Pursues(th'.pc).value;
      if Pursues(th'.pc) == Pursues(th.pc) {
        var i: nat, j: nat :|
          i < j && OwnedAt(cfg, now, a.t, th.req, th.number, i) && FoundAt(cfg, now, a.t, th.req, th.number, sid, j);
        assert OwnedAt(cfg, now, a.t, th'.req, th'.number, i) && FoundAt(cfg, now, a.t, th'.req, th'.number, sid, j);
      } else {
        HitsFit(th.number, th.req, s.db.sessions[sid], s.now);
        var i: nat :| OwnedAt(cfg, acts, a.t, th.req, th.number, i);
        Earlier(cfg, acts, a, i);
        assert OwnedAt(cfg, now, a.t, th'.req, th'.number, i) && FoundAt(cfg, now, a.t, th'.req, th'.number, sid, |acts|);
      }
    }
  }

  lemma {:induction false} RunsAreJustified(cfg: Config, acts: seq<Action>)
    ensures AllJustified(cfg, acts)
  {
    if acts != [] {
      var before := acts[..|acts| - 1];
      RunsAreJustified(cfg, before);
      JustifiedStep(cfg, before, acts[|acts| - 1]);
      assert before + [acts[|acts| - 1]] == acts;
    }
  }

  // ---------------------------------------------------------------- main results

  /**
   Every verified session was verified by a request t whose own ownership check saw its device
   own the number, whose own later lookup found the session pending, unexpired and fitting its
   signal and sender, and whose sender is the recorded number.
   */
  lemma VerifiedIsJustified(cfg: Config, acts: seq<Action>, sid: Id)
    requires Resolution.IsVerified(Exec(cfg, acts), sid)
    ensures var s := Exec(cfg, acts);
      exists t :: t in s.inbounds && Resolution.Won(s, t, sid)
                  && Evidence(cfg, acts, t, s.inbounds[t], sid)
                  && s.db.sessions[sid].verified == Some(s.inbounds[t].req.sender)
  {
    Resolution.Reachable(cfg, acts);
    RunsAreJustified(cfg, acts);
    var s := Exec(cfg, acts);
    var t :| Resolution.Won(s, t, sid);
    assert Justified(cfg, acts, t, s.inbounds[t]);
  }

  /** In claim mode the recorded number is the claimed one; a coded session was won with its code. */
  lemma VerifiedNumberIsTheClaim(cfg: Config, acts: seq<Action>, sid: Id)
    requires Resolution.IsVerified(Exec(cfg, acts), sid)
    ensures var sess := Exec(cfg, acts).db.sessions[sid];
      && sess.verified.Some?
      && (sess.binding == Claim ==> sess.claimed == sess.verified)
      && (sess.channel == Call ==> sess.claimed == sess.verified)
      && (sess.channel != Call ==> sess.code.Some? && Codes.IsCode(sess.code.value))
  {
    VerifiedIsJustified(cfg, acts, sid);
    var s := Exec(cfg, acts);
    var t :| t in s.inbounds && Resolution.Won(s, t, sid) && Evidence(cfg, acts, t, s.inbounds[t], sid)
             && s.db.sessions[sid].verified == Some(s.inbounds[t].req.sender);
    var i: nat, j: nat :|
      && i < j && OwnedAt(cfg, acts, t, s.inbounds[t].req, s.inbounds[t].number, i)
      && FoundAt(cfg, acts, t, s.inbounds[t].req, s.inbounds[t].number, sid, j);
    ClaimSinceFound(cfg, acts, t, s.inbounds[t].req, s.inbounds[t].number, sid, j);
  }

  /** The session's terms have not changed since it was found. */
  lemma ClaimSinceFound(cfg: Config, acts: seq<Action>, t: Id, req: InboundRequest, number: Id, sid: Id, j: nat)
    requires FoundAt(cfg, acts, t, req, number, sid, j)
    ensures sid in Exec(cfg, acts).db.sessions
    ensures var sess := Exec(cfg, acts).db.sessions[sid];
      && (sess.binding == Claim ==> sess.claimed == Some(req.sender))
      && (sess.channel == Call ==> sess.claimed == Some(req.sender))
      && (sess.channel != Call ==> sess.code.Some? && Codes.IsCode(sess.code.value))
  {
    TermsSinceMoment(cfg, acts, j, sid);
  }

  lemma TermsSinceMoment(cfg: Config, acts: seq<Action>, j: nat, sid: Id)
    requires j <= |acts| && sid in At(cfg, acts, j).db.sessions
    ensures sid in Exec(cfg, acts).db.sessions
    ensures SessionRules.Evolves(At(cfg, acts, j).db.sessions[sid], Exec(cfg, acts).db.sessions[sid])
  {
    assert acts == acts[..j] + acts[j..];
    ExecSplit(cfg, INIT, acts[..j], acts[j..]);
    SessionRules.RunEvolves(cfg, At(cfg, acts, j), acts[j..]);
  }
}
