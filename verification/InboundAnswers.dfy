/**
 Why an inbound is answered as it is (verify/service.go Inbound, matchSession): each answer is
 given exactly if the tables said so at the request's own check, and no check is skipped.

 A moment is a step of the run in which the request moves on from a stage. The answers are
 described by what the rows held at that moment.
 */
module InboundAnswers {
  import opened Wrappers
  import opened Store
  import opened Protocol
  import opened Soundness
  import SessionRules
  import Completeness
  import Codes

  // ---------------------------------------------------------------- moments

  datatype Stage =
    | AtLookup | AtBlockCheck | AtThrottle | AtMatching | AtAttempting | AtFailCount | AtFloodCount | AtAddBlock
    | AtVerifying | AtNotifying | AtAuditing | AtEnd

  function StageOf(pc: InboundPc): Stage {
    match pc
    case Lookup => AtLookup
    case BlockCheck => AtBlockCheck
    case Throttle => AtThrottle
    case Matching => AtMatching
    case Attempting(_) => AtAttempting
    case FailCount(_) => AtFailCount
    case FloodCount(_, _) => AtFloodCount
    case AddBlock(_, _) => AtAddBlock
    case Verifying(_) => AtVerifying
    case Notifying(_) => AtNotifying
    case Auditing(_) => AtAuditing
    case InboundDone(_) => AtEnd
  }

  /** In step i request t moves on from the stage. */
  ghost predicate Moment(cfg: Config, acts: seq<Action>, t: Id, i: nat, stage: Stage) {
    && StepsAt(cfg, acts, t, i) && StageOf(At(cfg, acts, i).inbounds[t].pc) == stage
    && t in At(cfg, acts, i + 1).inbounds && At(cfg, acts, i + 1).inbounds[t].pc != At(cfg, acts, i).inbounds[t].pc
  }

  ghost predicate Passed(cfg: Config, acts: seq<Action>, t: Id, stage: Stage) {
    exists i: nat :: Moment(cfg, acts, t, i, stage)
  }

  ghost predicate Finished(cfg: Config, acts: seq<Action>, t: Id, outcome: InboundOutcome) {
    t in Exec(cfg, acts).inbounds && Exec(cfg, acts).inbounds[t].pc == InboundDone(outcome)
  }

  lemma MomentLater(cfg: Config, acts: seq<Action>, a: Action, t: Id, i: nat, stage: Stage)
    requires i < |acts|
    ensures Moment(cfg, acts + [a], t, i, stage) <==> Moment(cfg, acts, t, i, stage)
    ensures At(cfg, acts + [a], i) == At(cfg, acts, i) && At(cfg, acts + [a], i + 1) == At(cfg, acts, i + 1)
    ensures (acts + [a])[i] == acts[i]
  {
    Earlier(cfg, acts, a, i);
    Earlier(cfg, acts, a, i + 1);
  }

  lemma PassedLater(cfg: Config, acts: seq<Action>, a: Action, t: Id, stage: Stage)
    requires Passed(cfg, acts, t, stage)
    ensures Passed(cfg, acts + [a], t, stage)
  {
    var i: nat :| Moment(cfg, acts, t, i, stage);
    MomentLater(cfg, acts, a, t, i, stage);
  }

  lemma OneMore(cfg: Config, acts: seq<Action>, a: Action)
    ensures Exec(cfg, acts + [a]) == Apply(cfg, Exec(cfg, acts), a)
    ensures At(cfg, acts + [a], |acts|) == Exec(cfg, acts) && At(cfg, acts + [a], |acts| + 1) == Exec(cfg, acts + [a])
  {
    assert (acts + [a])[..|acts|] == acts && (acts + [a])[..|acts| + 1] == acts + [a];
  }

  /** A step that moves the request on is a moment. */
  lemma NewMoment(cfg: Config, acts: seq<Action>, a: Action, t: Id)
    requires a.InboundStep? && a.t == t && t in Exec(cfg, acts).inbounds && t in Exec(cfg, acts + [a]).inbounds
    requires Exec(cfg, acts + [a]).inbounds[t].pc != Exec(cfg, acts).inbounds[t].pc
    ensures Moment(cfg, acts + [a], t, |acts|, StageOf(Exec(cfg, acts).inbounds[t].pc))
  {
    OneMore(cfg, acts, a);
  }

  // ---------------------------------------------------------------- which answers are still open

  /** The answers a request at this stage can still get. */
  predicate Open(pc: InboundPc, o: InboundOutcome) {
    match pc
    case Lookup => o != BadType
    case BlockCheck => o.Matched? || (o.Unmatched? && o.reason != UnknownNumber)
    case Throttle => o.Matched? || (o.Unmatched? && o.reason != UnknownNumber && o.reason != Blocked)
    case Matching => o.Matched? || (o.Unmatched? && (o.reason == NoMatch || o.reason == ClaimMismatch || o.reason == AlreadyResolved))
    case Attempting(_) => o == Unmatched(ClaimMismatch)
    case FailCount(reason) => o == Unmatched(reason)
    case FloodCount(reason, _) => o == Unmatched(reason)
    case AddBlock(reason, _) => o == Unmatched(reason)
    case Verifying(sid) => o == Matched(sid) || o == Unmatched(AlreadyResolved)
    case Notifying(sid) => o == Matched(sid)
    case Auditing(outcome) => o == outcome
    case InboundDone(outcome) => o == outcome
  }

  predicate Failing(pc: InboundPc) { pc.FailCount? || pc.FloodCount? || pc.AddBlock? }

  /** Only signals that matched nothing, or the wrong claim, count as failed; the time is set by the count. */
  predicate Proper(th: InboundThread) {
    && (Failing(th.pc) ==> th.pc.reason == NoMatch || th.pc.reason == ClaimMismatch)
    && match th.pc
       case FloodCount(_, at) => th.failedAt == Some(at)
       case AddBlock(_, at) => th.failedAt == Some(at)
       case Auditing(o) => th.failedAt.Some? <==> o == Unmatched(NoMatch) || o == Unmatched(ClaimMismatch)
       case InboundDone(o) => th.failedAt.Some? <==> o == Unmatched(NoMatch) || o == Unmatched(ClaimMismatch)
       case _ => th.failedAt.None?
  }

  /** The stages that a request has gone through. */
  function Behind(pc: InboundPc): set<Stage> {
    match pc
    case Lookup => {}
    case BlockCheck => {AtLookup}
    case Throttle => {AtLookup, AtBlockCheck}
    case Matching => {AtLookup, AtBlockCheck, AtThrottle}
    case Attempting(_) => {AtLookup, AtBlockCheck, AtThrottle, AtMatching}
    case FailCount(_) => {AtLookup, AtBlockCheck, AtThrottle, AtMatching}
    case FloodCount(_, _) => {AtLookup, AtBlockCheck, AtThrottle, AtMatching, AtFailCount}
    case AddBlock(_, _) => {AtLookup, AtBlockCheck, AtThrottle, AtMatching, AtFailCount}
    case Verifying(_) => {AtLookup, AtBlockCheck, AtThrottle, AtMatching}
    case Notifying(_) => {AtLookup, AtBlockCheck, AtThrottle, AtMatching, AtVerifying}
    case Auditing(o) => BehindAnswer(o)
    case InboundDone(o) => BehindAnswer(o)
  }

  function BehindAnswer(o: InboundOutcome): set<Stage> {
    match o
    case BadType => {}
    case Forbidden => {AtLookup}
    case Matched(_) => {AtLookup, AtBlockCheck, AtThrottle, AtMatching, AtVerifying}
    case Unmatched(reason) =>
      match reason
      case UnknownNumber => {AtLookup}
      case Blocked => {AtLookup, AtBlockCheck}
      case RateLimited => {AtLookup, AtBlockCheck, AtThrottle}
      case NoMatch => {AtLookup, AtBlockCheck, AtThrottle, AtMatching, AtFailCount}
      case ClaimMismatch => {AtLookup, AtBlockCheck, AtThrottle, AtMatching, AtFailCount}
      case AlreadyResolved => {AtLookup, AtBlockCheck, AtThrottle, AtMatching, AtVerifying}
  }

  /** How a record may change: no closed answer opens again, and what is settled stays. */
  ghost predicate Narrows(th: InboundThread, th': InboundThread) {
    && th'.req == th.req
    && (forall o | Open(th'.pc, o) :: Open(th.pc, o))
    && (!th.pc.Lookup? ==> !th'.pc.Lookup? && th'.number == th.number)
    && (th.failedAt.Some? ==> th'.failedAt == th.failedAt)
  }

  /** One own step. */
  ghost predicate MovesOn(th: InboundThread, th': InboundThread) {
    && Proper(th') && Narrows(th, th')
    && (th'.pc == th.pc || Behind(th'.pc) <= Behind(th.pc) + {StageOf(th.pc)})
  }

  lemma OwnStepMovesOn(cfg: Config, s: State, t: Id, yes: bool, pick: Option<Id>)
    requires t in s.inbounds && Proper(s.inbounds[t])
    ensures var s' := StepInbound(cfg, s, t, yes, pick); t in s'.inbounds && MovesOn(s.inbounds[t], s'.inbounds[t])
  {
    var th := s.inbounds[t];
    if InAdmission(th.pc) { AdmissionMovesOn(s, t, th, yes, pick); }
    else if InFailure(th.pc) { FailureMovesOn(s, t, th); }
    else { ResolutionMovesOn(cfg, s, t, th, yes); }
  }

  lemma AdmissionMovesOn(s: State, t: Id, th: InboundThread, yes: bool, pick: Option<Id>)
    requires t in s.inbounds && th == s.inbounds[t] && Proper(th) && InAdmission(th.pc)
    ensures var s' := StepAdmission(s, t, th, yes, pick); t in s'.inbounds && MovesOn(th, s'.inbounds[t])
  {
    if th.pc.Matching? { MatchingMovesOn(s, t, th, yes, pick); } else { ChecksMoveOn(s, t, th, yes, pick); }
  }

  lemma MatchingMovesOn(s: State, t: Id, th: InboundThread, yes: bool, pick: Option<Id>)
    requires t in s.inbounds && th == s.inbounds[t] && Proper(th) && th.pc.Matching?
    ensures var s' := StepAdmission(s, t, th, yes, pick); t in s'.inbounds && MovesOn(th, s'.inbounds[t])
  {
    var th' := StepAdmission(s, t, th, yes, pick).inbounds[t];
    assert th' == th.(pc := th'.pc) && (th'.pc == Matching || th'.pc == FailCount(NoMatch) || th'.pc.Attempting? || th'.pc.Verifying?);
  }

  lemma ChecksMoveOn(s: State, t: Id, th: InboundThread, yes: bool, pick: Option<Id>)
    requires t in s.inbounds && th == s.inbounds[t] && Proper(th) && (th.pc.Lookup? || th.pc.BlockCheck? || th.pc.Throttle?)
    ensures var s' := StepAdmission(s, t, th, yes, pick); t in s'.inbounds && MovesOn(th, s'.inbounds[t])
  {}

  lemma FailureMovesOn(s: State, t: Id, th: InboundThread)
    requires t in s.inbounds && th == s.inbounds[t] && Proper(th) && InFailure(th.pc)
    ensures var s' := StepFailure(s, t, th); t in s'.inbounds && MovesOn(th, s'.inbounds[t])
  {
    if th.pc.FailCount? { FailCountMovesOn(s, t, th); } else { LaterFailureMovesOn(s, t, th); }
  }

  lemma FailCountMovesOn(s: State, t: Id, th: InboundThread)
    requires t in s.inbounds && th == s.inbounds[t] && Proper(th) && th.pc.FailCount?
    ensures var s' := StepFailure(s, t, th); t in s'.inbounds && MovesOn(th, s'.inbounds[t])
  {}

  lemma LaterFailureMovesOn(s: State, t: Id, th: InboundThread)
    requires t in s.inbounds && th == s.inbounds[t] && Proper(th) && InFailure(th.pc) && !th.pc.FailCount?
    ensures var s' := StepFailure(s, t, th); t in s'.inbounds && MovesOn(th, s'.inbounds[t])
  {}

  lemma ResolutionMovesOn(cfg: Config, s: State, t: Id, th: InboundThread, yes: bool)
    requires t in s.inbounds && th == s.inbounds[t] && Proper(th) && !InAdmission(th.pc) && !InFailure(th.pc)
    ensures var s' := StepResolution(cfg, s, t, th, yes); t in s'.inbounds && MovesOn(th, s'.inbounds[t])
  {}

  // ---------------------------------------------------------------- over a run

  ghost predicate AllPassed(cfg: Config, acts: seq<Action>, t: Id, stages: set<Stage>) {
    forall stage | stage in stages :: Passed(cfg, acts, t, stage)
  }

  ghost predicate Traced(cfg: Config, acts: seq<Action>) {
    var s := Exec(cfg, acts);
    forall t | t in s.inbounds :: Proper(s.inbounds[t]) && AllPassed(cfg, acts, t, Behind(s.inbounds[t].pc))
  }

  lemma OwnMove(cfg: Config, acts: seq<Action>, a: Action)
    requires a.InboundStep? && a.t in Exec(cfg, acts).inbounds && Proper(Exec(cfg, acts).inbounds[a.t])
    ensures a.t in Exec(cfg, acts + [a]).inbounds
    ensures MovesOn(Exec(cfg, acts).inbounds[a.t], Exec(cfg, acts + [a]).inbounds[a.t])
  {
    OneMore(cfg, acts, a);
    OwnStepMovesOn(cfg, Exec(cfg, acts), a.t, a.yes, a.pick);
  }

  lemma OwnMoveTraced(cfg: Config, acts: seq<Action>, a: Action)
    requires Traced(cfg, acts) && a.InboundStep? && a.t in Exec(cfg, acts).inbounds
    ensures var s' := Exec(cfg, acts + [a]);
      && a.t in s'.inbounds && MovesOn(Exec(cfg, acts).inbounds[a.t], s'.inbounds[a.t])
      && AllPassed(cfg, acts + [a], a.t, Behind(s'.inbounds[a.t].pc))
  {
    OwnMove(cfg, acts, a);
    MoveIsTraced(cfg, acts, a, Exec(cfg, acts).inbounds[a.t], Exec(cfg, acts + [a]).inbounds[a.t]);
  }

  lemma MoveIsTraced(cfg: Config, acts: seq<Action>, a: Action, th: InboundThread, th': InboundThread)
    requires a.InboundStep? && a.t in Exec(cfg, acts).inbounds && a.t in Exec(cfg, acts + [a]).inbounds
    requires Exec(cfg, acts).inbounds[a.t] == th && Exec(cfg, acts + [a]).inbounds[a.t] == th'
    requires AllPassed(cfg, acts, a.t, Behind(th.pc)) && MovesOn(th, th')
    ensures AllPassed(cfg, acts + [a], a.t, Behind(th'.pc))
  {
    if th'.pc != th.pc { NewMoment(cfg, acts, a, a.t); }
    forall stage | stage in Behind(th'.pc)
      ensures Passed(cfg, acts + [a], a.t, stage)
    {
      if stage in Behind(th.pc) { PassedLater(cfg, acts, a, a.t, stage); }
    }
  }

  lemma TracedStep(cfg: Config, acts: seq<Action>, a: Action)
    requires Traced(cfg, acts)
    ensures Traced(cfg, acts + [a])
  {
    OneMore(cfg, acts, a);
    var s, s' := Exec(cfg, acts), Exec(cfg, acts + [a]);
    forall t | t in s'.inbounds
      ensures Proper(s'.inbounds[t]) && AllPassed(cfg, acts + [a], t, Behind(s'.inbounds[t].pc))
    {
      if a.InboundStep? && a.t == t && t in s.inbounds {
        OwnMoveTraced(cfg, acts, a);
      } else if t in s.inbounds {
        InboundsKept(cfg, s, a, t);
        forall stage | stage in Behind(s.inbounds[t].pc)
          ensures Passed(cfg, acts + [a], t, stage)
        {
          PassedLater(cfg, acts, a, t, stage);
        }
      } else {
        BegunFresh(cfg, s, a, t);
      }
    }
  }

  lemma BegunFresh(cfg: Config, s: State, a: Action, t: Id)
    requires t !in s.inbounds && t in Apply(cfg, s, a).inbounds
    ensures a.BeginInbound? && a.t == t
    ensures var pc := Apply(cfg, s, a).inbounds[t].pc;
      && Apply(cfg, s, a).inbounds[t] == InboundThread(a.inbound, 0, None, pc)
      && pc == if a.inbound.kind == "sms" || a.inbound.kind == "call" then Lookup else InboundDone(BadType)
  {
    if a.InboundStep? { InboundFrame(cfg, s, a.t, a.yes, a.pick); }
  }

  lemma {:induction false} RunsAreTraced(cfg: Config, acts: seq<Action>)
    ensures Traced(cfg, acts)
  {
    if acts != [] {
      var before := acts[..|acts| - 1];
      RunsAreTraced(cfg, before);
      TracedStep(cfg, before, acts[|acts| - 1]);
      assert before + [acts[|acts| - 1]] == acts;
    }
  }

  /** From any moment on, a record only narrows. */
  lemma {:induction false} NarrowsSince(cfg: Config, acts: seq<Action>, i: nat, t: Id)
    requires i <= |acts| && t in At(cfg, acts, i).inbounds
    ensures t in Exec(cfg, acts).inbounds && Narrows(At(cfg, acts, i).inbounds[t], Exec(cfg, acts).inbounds[t])
    decreases |acts|
  {
    if i == |acts| {
      assert acts[..i] == acts;
    } else {
      var before, a := acts[..|acts| - 1], acts[|acts| - 1];
      assert before + [a] == acts && before[..i] == acts[..i];
      NarrowsSince(cfg, before, i, t);
      NarrowsOnce(cfg, before, a, t);
    }
  }

  lemma NarrowsOnce(cfg: Config, acts: seq<Action>, a: Action, t: Id)
    requires t in Exec(cfg, acts).inbounds
    ensures t in Exec(cfg, acts + [a]).inbounds && Narrows(Exec(cfg, acts).inbounds[t], Exec(cfg, acts + [a]).inbounds[t])
  {
    OneMore(cfg, acts, a);
    if a.InboundStep? && a.t == t {
      RunsAreTraced(cfg, acts);
      OwnMoveTraced(cfg, acts, a);
    } else {
      InboundsKept(cfg, Exec(cfg, acts), a, t);
    }
  }

  lemma MomentStep(cfg: Config, acts: seq<Action>, t: Id, i: nat, stage: Stage)
    requires Moment(cfg, acts, t, i, stage)
    ensures At(cfg, acts, i + 1) == StepInbound(cfg, At(cfg, acts, i), t, acts[i].yes, acts[i].pick)
  {
    ExecOne(cfg, acts, i);
  }

  /** The answer is one of those that its step at a moment left open. */
  lemma MomentDecides(cfg: Config, acts: seq<Action>, t: Id, i: nat, stage: Stage, o: InboundOutcome)
    requires Moment(cfg, acts, t, i, stage) && Finished(cfg, acts, t, o)
    ensures At(cfg, acts, i + 1) == StepInbound(cfg, At(cfg, acts, i), t, acts[i].yes, acts[i].pick)
    ensures Open(At(cfg, acts, i + 1).inbounds[t].pc, o)
    ensures At(cfg, acts, i).inbounds[t].req == Exec(cfg, acts).inbounds[t].req
    ensures !stage.AtLookup? ==> At(cfg, acts, i).inbounds[t].number == Exec(cfg, acts).inbounds[t].number
  {
    MomentStep(cfg, acts, t, i, stage);
    NarrowsSince(cfg, acts, i, t);
    NarrowsSince(cfg, acts, i + 1, t);
  }

  /** One more action leaves a record as it is, narrows it, or begins it. */
  lemma RecordSince(cfg: Config, acts: seq<Action>, a: Action, t: Id)
    requires t in Exec(cfg, acts + [a]).inbounds
    ensures var th' := Exec(cfg, acts + [a]).inbounds[t];
      if t in Exec(cfg, acts).inbounds then
        var th := Exec(cfg, acts).inbounds[t]; Narrows(th, th') && (th.pc.InboundDone? ==> th' == th)
      else th' == InboundThread(th'.req, 0, None, if th'.req.kind == "sms" || th'.req.kind == "call" then Lookup else InboundDone(BadType))
  {
    OneMore(cfg, acts, a);
    if t !in Exec(cfg, acts).inbounds {
      BegunFresh(cfg, Exec(cfg, acts), a, t);
    } else {
      NarrowsOnce(cfg, acts, a, t);
      if Exec(cfg, acts).inbounds[t].pc.InboundDone? { DoneStays(cfg, Exec(cfg, acts), a, t); }
    }
  }

  lemma DoneStays(cfg: Config, s: State, a: Action, t: Id)
    requires t in s.inbounds && s.inbounds[t].pc.InboundDone?
    ensures t in Apply(cfg, s, a).inbounds && Apply(cfg, s, a).inbounds[t] == s.inbounds[t]
  {
    if !(a.InboundStep? && a.t == t) { InboundsKept(cfg, s, a, t); }
  }

  lemma {:induction false} TypeChecked(cfg: Config, acts: seq<Action>, t: Id)
    requires t in Exec(cfg, acts).inbounds
    ensures Typed(Exec(cfg, acts).inbounds[t])
  {
    if acts != [] {
      var before, a := acts[..|acts| - 1], acts[|acts| - 1];
      assert before + [a] == acts;
      RecordSince(cfg, before, a, t);
      if t in Exec(cfg, before).inbounds {
        TypeChecked(cfg, before, t);
        StaysTyped(Exec(cfg, before).inbounds[t], Exec(cfg, acts).inbounds[t]);
      }
    }
  }

  /** Only a request of a wrong type can be answered with bad type. */
  ghost predicate Typed(th: InboundThread) {
    if th.req.kind == "sms" || th.req.kind == "call" then !Open(th.pc, BadType) else th.pc == InboundDone(BadType)
  }

  lemma StaysTyped(th: InboundThread, th': InboundThread)
    requires Typed(th) && Narrows(th, th') && (th.pc.InboundDone? ==> th' == th)
    ensures Typed(th')
  {}

  // ---------------------------------------------------------------- what the rows said

  /** The session that the signal of a request on this number points at. */
  ghost predicate PointsAt(req: InboundRequest, number: Id, sess: Session, now: Millis) {
    sess.status == Pending && sess.expiresAt > now && sess.number == Some(number) && Fits(req, sess)
  }

  lemma TargetMeans(number: Id, req: InboundRequest, sess: Session, now: Millis)
    ensures TargetOf(number, req).Some? && Hits(TargetOf(number, req).value, sess, now) <==> PointsAt(req, number, sess, now)
  {
    Codes.ExtractCodeMeaning(req.body);
  }

  /** At its lookup no number had the msisdn. */
  ghost predicate SawNoNumber(cfg: Config, acts: seq<Action>, t: Id, req: InboundRequest) {
    exists i: nat :: Moment(cfg, acts, t, i, AtLookup)
      && forall n | n in At(cfg, acts, i).db.numbers :: At(cfg, acts, i).db.numbers[n].msisdn != req.number
  }

  /** At its lookup the number with the msisdn belonged to another device. */
  ghost predicate SawForeignNumber(cfg: Config, acts: seq<Action>, t: Id, req: InboundRequest) {
    exists i: nat, n :: Moment(cfg, acts, t, i, AtLookup) && n in At(cfg, acts, i).db.numbers
      && At(cfg, acts, i).db.numbers[n].msisdn == req.number && At(cfg, acts, i).db.numbers[n].device != req.device
  }

  /** At its check a block of its sender stood: one without an end, or with an end still to come. */
  ghost predicate SawBlock(cfg: Config, acts: seq<Action>, t: Id, req: InboundRequest) {
    exists i: nat, b :: Moment(cfg, acts, t, i, AtBlockCheck) && b in At(cfg, acts, i).db.blocks
      && b.target == req.sender && (b.until.None? || b.until.value > At(cfg, acts, i).now)
  }

  ghost predicate WasRefused(cfg: Config, acts: seq<Action>, t: Id) {
    exists i: nat :: Moment(cfg, acts, t, i, AtThrottle) && !acts[i].yes
  }

  /** At its find no session was there for the signal. */
  ghost predicate SawNoSession(cfg: Config, acts: seq<Action>, t: Id, req: InboundRequest, number: Id) {
    exists i: nat :: Moment(cfg, acts, t, i, AtMatching)
      && forall sid | sid in At(cfg, acts, i).db.sessions :: !PointsAt(req, number, At(cfg, acts, i).db.sessions[sid], At(cfg, acts, i).now)
  }

  /** At its find the session for the signal was claimed by someone else. */
  ghost predicate SawOtherClaim(cfg: Config, acts: seq<Action>, t: Id, req: InboundRequest, number: Id) {
    exists i: nat, sid :: Moment(cfg, acts, t, i, AtMatching) && sid in At(cfg, acts, i).db.sessions
      && PointsAt(req, number, At(cfg, acts, i).db.sessions[sid], At(cfg, acts, i).now)
      && At(cfg, acts, i).db.sessions[sid].binding == Claim && At(cfg, acts, i).db.sessions[sid].claimed != Some(req.sender)
  }

  /** At its compare-and-set the session it had found was still pending. */
  ghost predicate CameFirst(cfg: Config, acts: seq<Action>, t: Id, sid: Id) {
    exists i: nat :: Moment(cfg, acts, t, i, AtVerifying) && At(cfg, acts, i).inbounds[t].pc == Verifying(sid)
      && sid in At(cfg, acts, i).db.sessions && At(cfg, acts, i).db.sessions[sid].status == Pending
  }

  /** At its compare-and-set the session it had found was decided. */
  ghost predicate CameLate(cfg: Config, acts: seq<Action>, t: Id) {
    exists i: nat, sid :: Moment(cfg, acts, t, i, AtVerifying) && At(cfg, acts, i).inbounds[t].pc == Verifying(sid)
      && !(sid in At(cfg, acts, i).db.sessions && At(cfg, acts, i).db.sessions[sid].status == Pending)
  }

  // ---------------------------------------------------------------- each check decides

  lemma LookupDecides(cfg: Config, acts: seq<Action>, t: Id, i: nat, o: InboundOutcome)
    requires Moment(cfg, acts, t, i, AtLookup) && Finished(cfg, acts, t, o)
    ensures var s, req := At(cfg, acts, i), Exec(cfg, acts).inbounds[t].req;
      && (o == Unmatched(UnknownNumber) <==> forall n | n in s.db.numbers :: s.db.numbers[n].msisdn != req.number)
      && (o == Forbidden <==> exists n | n in s.db.numbers :: s.db.numbers[n].msisdn == req.number && s.db.numbers[n].device != req.device)
  {
    MomentDecides(cfg, acts, t, i, AtLookup, o);
    Completeness.Reachable(cfg, acts[..i]);
  }

  lemma BlockCheckDecides(cfg: Config, acts: seq<Action>, t: Id, i: nat, o: InboundOutcome)
    requires Moment(cfg, acts, t, i, AtBlockCheck) && Finished(cfg, acts, t, o)
    ensures var s, req := At(cfg, acts, i), Exec(cfg, acts).inbounds[t].req;
      o == Unmatched(Blocked) <==> exists b | b in s.db.blocks :: b.target == req.sender && (b.until.None? || b.until.value > s.now)
  {
    MomentDecides(cfg, acts, t, i, AtBlockCheck, o);
    var s, req := At(cfg, acts, i), Exec(cfg, acts).inbounds[t].req;
    if b :| b in s.db.blocks && b.target == req.sender && (b.until.None? || b.until.value > s.now) {
      var k :| 0 <= k < |s.db.blocks| && s.db.blocks[k] == b;
    }
  }

  lemma ThrottleDecides(cfg: Config, acts: seq<Action>, t: Id, i: nat, o: InboundOutcome)
    requires Moment(cfg, acts, t, i, AtThrottle) && Finished(cfg, acts, t, o)
    ensures o == Unmatched(RateLimited) <==> !acts[i].yes
  {
    MomentDecides(cfg, acts, t, i, AtThrottle, o);
  }

  lemma MatchingDecides(cfg: Config, acts: seq<Action>, t: Id, i: nat, o: InboundOutcome)
    requires Moment(cfg, acts, t, i, AtMatching) && Finished(cfg, acts, t, o)
    ensures var s, th := At(cfg, acts, i), Exec(cfg, acts).inbounds[t];
      && (o == Unmatched(NoMatch) <==> forall sid | sid in s.db.sessions :: !PointsAt(th.req, th.number, s.db.sessions[sid], s.now))
      && (o == Unmatched(ClaimMismatch) <==>
            exists sid | sid in s.db.sessions :: PointsAt(th.req, th.number, s.db.sessions[sid], s.now)
              && s.db.sessions[sid].binding == Claim && s.db.sessions[sid].claimed != Some(th.req.sender))
  {
    MomentDecides(cfg, acts, t, i, AtMatching, o);
    var s, th := At(cfg, acts, i), Exec(cfg, acts).inbounds[t];
    OnlyOnePointedAt(cfg, acts[..i], th.req, th.number);
    forall sid | sid in s.db.sessions
      ensures TargetOf(th.number, th.req).Some? && Hits(TargetOf(th.number, th.req).value, s.db.sessions[sid], s.now)
              <==> PointsAt(th.req, th.number, s.db.sessions[sid], s.now)
    {
      TargetMeans(th.number, th.req, s.db.sessions[sid], s.now);
    }
  }

  lemma OnlyOnePointedAt(cfg: Config, acts: seq<Action>, req: InboundRequest, number: Id)
    ensures var s := Exec(cfg, acts);
      forall i, j | i in s.db.sessions && j in s.db.sessions && PointsAt(req, number, s.db.sessions[i], s.now)
                    && PointsAt(req, number, s.db.sessions[j], s.now) :: i == j
  {
    SessionRules.Reachable(cfg, acts);
    var s := Exec(cfg, acts);
    forall i, j | i in s.db.sessions && j in s.db.sessions && PointsAt(req, number, s.db.sessions[i], s.now)
                  && PointsAt(req, number, s.db.sessions[j], s.now)
      ensures i == j
    {
      assert i != j ==> SessionRules.Distinct(s.db.sessions[i], s.db.sessions[j]);
    }
  }

  lemma VerifyingDecides(cfg: Config, acts: seq<Action>, t: Id, i: nat, sid: Id, o: InboundOutcome)
    requires Moment(cfg, acts, t, i, AtVerifying) && At(cfg, acts, i).inbounds[t].pc == Verifying(sid) && Finished(cfg, acts, t, o)
    ensures var s := At(cfg, acts, i);
      o == if sid in s.db.sessions && s.db.sessions[sid].status == Pending then Matched(sid) else Unmatched(AlreadyResolved)
  {
    MomentDecides(cfg, acts, t, i, AtVerifying, o);
  }

  lemma RecordsAreProper(cfg: Config, acts: seq<Action>, t: Id)
    requires t in Exec(cfg, acts).inbounds
    ensures Proper(Exec(cfg, acts).inbounds[t])
  {
    RunsAreTraced(cfg, acts);
  }

  /** No check on the way to an answer is skipped. */
  lemma HasPassed(cfg: Config, acts: seq<Action>, t: Id, o: InboundOutcome, stage: Stage)
    requires Finished(cfg, acts, t, o) && stage in BehindAnswer(o)
    ensures Passed(cfg, acts, t, stage)
  {
    RunsAreTraced(cfg, acts);
  }

  // ---------------------------------------------------------------- main results

  /** bad type: exactly for types other than sms and call, before anything is looked up. */
  lemma BadTypeAnswers(cfg: Config, acts: seq<Action>, t: Id, o: InboundOutcome)
    requires Finished(cfg, acts, t, o)
    ensures o == BadType <==> Exec(cfg, acts).inbounds[t].req.kind !in {"sms", "call"}
  {
    TypeChecked(cfg, acts, t);
  }

  /** unknown_number and forbidden: exactly what the request's own lookup found. */
  lemma LookupAnswers(cfg: Config, acts: seq<Action>, t: Id, o: InboundOutcome)
    requires Finished(cfg, acts, t, o)
    ensures var req := Exec(cfg, acts).inbounds[t].req;
      && (o == Unmatched(UnknownNumber) <==> SawNoNumber(cfg, acts, t, req))
      && (o == Forbidden <==> SawForeignNumber(cfg, acts, t, req))
  {
    forall i: nat | Moment(cfg, acts, t, i, AtLookup)
      ensures var s, req := At(cfg, acts, i), Exec(cfg, acts).inbounds[t].req;
        && (o == Unmatched(UnknownNumber) <==> forall n | n in s.db.numbers :: s.db.numbers[n].msisdn != req.number)
        && (o == Forbidden <==> exists n | n in s.db.numbers :: s.db.numbers[n].msisdn == req.number && s.db.numbers[n].device != req.device)
    {
      LookupDecides(cfg, acts, t, i, o);
    }
    if o == Forbidden || o == Unmatched(UnknownNumber) { HasPassed(cfg, acts, t, o, AtLookup); }
  }

  /** Every later answer is about the number that the lookup found, which is the reporting device's own. */
  lemma AnswersForOwnNumber(cfg: Config, acts: seq<Action>, t: Id, o: InboundOutcome)
    requires Finished(cfg, acts, t, o) && o != BadType && o != Forbidden && o != Unmatched(UnknownNumber)
    ensures var th := Exec(cfg, acts).inbounds[t]; exists i: nat :: OwnedAt(cfg, acts, t, th.req, th.number, i)
  {
    RunsAreJustified(cfg, acts);
    assert Justified(cfg, acts, t, Exec(cfg, acts).inbounds[t]);
  }

  /** blocked and rate_limited: exactly what the blocks and the limiter said at the request's own checks. */
  lemma AdmissionAnswers(cfg: Config, acts: seq<Action>, t: Id, o: InboundOutcome)
    requires Finished(cfg, acts, t, o)
    ensures o == Unmatched(Blocked) <==> SawBlock(cfg, acts, t, Exec(cfg, acts).inbounds[t].req)
    ensures o == Unmatched(RateLimited) <==> WasRefused(cfg, acts, t)
  {
    forall i: nat | Moment(cfg, acts, t, i, AtBlockCheck)
      ensures var s, req := At(cfg, acts, i), Exec(cfg, acts).inbounds[t].req;
        o == Unmatched(Blocked) <==> exists b | b in s.db.blocks :: b.target == req.sender && (b.until.None? || b.until.value > s.now)
    {
      BlockCheckDecides(cfg, acts, t, i, o);
    }
    if o == Unmatched(Blocked) { HasPassed(cfg, acts, t, o, AtBlockCheck); }
    ThrottleAnswers(cfg, acts, t, o);
  }

  lemma ThrottleAnswers(cfg: Config, acts: seq<Action>, t: Id, o: InboundOutcome)
    requires Finished(cfg, acts, t, o)
    ensures o == Unmatched(RateLimited) <==> WasRefused(cfg, acts, t)
  {
    forall i: nat | Moment(cfg, acts, t, i, AtThrottle)
      ensures o == Unmatched(RateLimited) <==> !acts[i].yes
    {
      ThrottleDecides(cfg, acts, t, i, o);
    }
    if o == Unmatched(RateLimited) { HasPassed(cfg, acts, t, o, AtThrottle); }
  }

  /** no_match and claim_mismatch: exactly what the sessions held at the request's own find. */
  lemma MatchingAnswers(cfg: Config, acts: seq<Action>, t: Id, o: InboundOutcome)
    requires Finished(cfg, acts, t, o)
    ensures var th := Exec(cfg, acts).inbounds[t];
      && (o == Unmatched(NoMatch) <==> SawNoSession(cfg, acts, t, th.req, th.number))
      && (o == Unmatched(ClaimMismatch) <==> SawOtherClaim(cfg, acts, t, th.req, th.number))
  {
    var th := Exec(cfg, acts).inbounds[t];
    if o == Unmatched(NoMatch) || o == Unmatched(ClaimMismatch) {
      HasPassed(cfg, acts, t, o, AtMatching);
      MatchingSaw(cfg, acts, t, o);
    }
    if SawNoSession(cfg, acts, t, th.req, th.number) { NoSessionDecides(cfg, acts, t, o); }
    if SawOtherClaim(cfg, acts, t, th.req, th.number) { OtherClaimDecides(cfg, acts, t, o); }
  }

  lemma MatchingSaw(cfg: Config, acts: seq<Action>, t: Id, o: InboundOutcome)
    requires Finished(cfg, acts, t, o) && Passed(cfg, acts, t, AtMatching)
    ensures var th := Exec(cfg, acts).inbounds[t];
      && (o == Unmatched(NoMatch) ==> SawNoSession(cfg, acts, t, th.req, th.number))
      && (o == Unmatched(ClaimMismatch) ==> SawOtherClaim(cfg, acts, t, th.req, th.number))
  {
    var i: nat :| Moment(cfg, acts, t, i, AtMatching);
    MatchingDecides(cfg, acts, t, i, o);
  }

  lemma NoSessionDecides(cfg: Config, acts: seq<Action>, t: Id, o: InboundOutcome)
    requires Finished(cfg, acts, t, o)
    requires var th := Exec(cfg, acts).inbounds[t]; SawNoSession(cfg, acts, t, th.req, th.number)
    ensures o == Unmatched(NoMatch)
  {
    var th := Exec(cfg, acts).inbounds[t];
    var i: nat :| Moment(cfg, acts, t, i, AtMatching)
      && forall sid | sid in At(cfg, acts, i).db.sessions :: !PointsAt(th.req, th.number, At(cfg, acts, i).db.sessions[sid], At(cfg, acts, i).now);
    MatchingDecides(cfg, acts, t, i, o);
  }

  lemma OtherClaimDecides(cfg: Config, acts: seq<Action>, t: Id, o: InboundOutcome)
    requires Finished(cfg, acts, t, o)
    requires var th := Exec(cfg, acts).inbounds[t]; SawOtherClaim(cfg, acts, t, th.req, th.number)
    ensures o == Unmatched(ClaimMismatch)
  {
    var th := Exec(cfg, acts).inbounds[t];
    var i: nat, sid :| Moment(cfg, acts, t, i, AtMatching) && sid in At(cfg, acts, i).db.sessions
      && PointsAt(th.req, th.number, At(cfg, acts, i).db.sessions[sid], At(cfg, acts, i).now)
      && At(cfg, acts, i).db.sessions[sid].binding == Claim && At(cfg, acts, i).db.sessions[sid].claimed != Some(th.req.sender);
    MatchingDecides(cfg, acts, t, i, o);
  }

  /** matched and already_resolved: exactly what the request's own compare-and-set found. */
  lemma ResolutionAnswers(cfg: Config, acts: seq<Action>, t: Id, o: InboundOutcome)
    requires Finished(cfg, acts, t, o)
    ensures forall sid :: o == Matched(sid) <==> CameFirst(cfg, acts, t, sid)
    ensures o == Unmatched(AlreadyResolved) <==> CameLate(cfg, acts, t)
  {
    if o.Matched? || o == Unmatched(AlreadyResolved) {
      HasPassed(cfg, acts, t, o, AtVerifying);
      Verified(cfg, acts, t, o);
    }
    forall sid | CameFirst(cfg, acts, t, sid)
      ensures o == Matched(sid)
    {
      FirstDecides(cfg, acts, t, sid, o);
    }
    if CameLate(cfg, acts, t) { LateDecides(cfg, acts, t, o); }
  }

  lemma FirstDecides(cfg: Config, acts: seq<Action>, t: Id, sid: Id, o: InboundOutcome)
    requires Finished(cfg, acts, t, o) && CameFirst(cfg, acts, t, sid)
    ensures o == Matched(sid)
  {
    var i: nat :| Moment(cfg, acts, t, i, AtVerifying) && At(cfg, acts, i).inbounds[t].pc == Verifying(sid)
      && sid in At(cfg, acts, i).db.sessions && At(cfg, acts, i).db.sessions[sid].status == Pending;
    VerifyingDecides(cfg, acts, t, i, sid, o);
  }

  lemma LateDecides(cfg: Config, acts: seq<Action>, t: Id, o: InboundOutcome)
    requires Finished(cfg, acts, t, o) && CameLate(cfg, acts, t)
    ensures o == Unmatched(AlreadyResolved)
  {
    var i: nat, sid :| Moment(cfg, acts, t, i, AtVerifying) && At(cfg, acts, i).inbounds[t].pc == Verifying(sid)
      && !(sid in At(cfg, acts, i).db.sessions && At(cfg, acts, i).db.sessions[sid].status == Pending);
    VerifyingDecides(cfg, acts, t, i, sid, o);
  }

  lemma Verified(cfg: Config, acts: seq<Action>, t: Id, o: InboundOutcome)
    requires Finished(cfg, acts, t, o) && Passed(cfg, acts, t, AtVerifying)
    ensures if o.Matched? then CameFirst(cfg, acts, t, o.session) else CameLate(cfg, acts, t)
  {
    var i: nat :| Moment(cfg, acts, t, i, AtVerifying);
    var pc := At(cfg, acts, i).inbounds[t].pc;
    assert pc.Verifying?;
    VerifyingDecides(cfg, acts, t, i, pc.session, o);
  }

  /** Each of the answers is given for its own reason and only then. */
  ghost predicate GivenExactly(cfg: Config, acts: seq<Action>, t: Id, th: InboundThread, o: InboundOutcome) {
    && (o == BadType <==> th.req.kind !in {"sms", "call"})
    && (o == Unmatched(UnknownNumber) <==> SawNoNumber(cfg, acts, t, th.req))
    && (o == Forbidden <==> SawForeignNumber(cfg, acts, t, th.req))
    && (o == Unmatched(Blocked) <==> SawBlock(cfg, acts, t, th.req))
    && (o == Unmatched(RateLimited) <==> WasRefused(cfg, acts, t))
    && (o == Unmatched(NoMatch) <==> SawNoSession(cfg, acts, t, th.req, th.number))
    && (o == Unmatched(ClaimMismatch) <==> SawOtherClaim(cfg, acts, t, th.req, th.number))
    && (o == Unmatched(AlreadyResolved) <==> CameLate(cfg, acts, t))
    && forall sid :: o == Matched(sid) <==> CameFirst(cfg, acts, t, sid)
  }

  lemma AnswersExactly(cfg: Config, acts: seq<Action>, t: Id, o: InboundOutcome)
    requires Finished(cfg, acts, t, o)
    ensures GivenExactly(cfg, acts, t, Exec(cfg, acts).inbounds[t], o)
  {
    BadTypeAnswers(cfg, acts, t, o);
    LookupAnswers(cfg, acts, t, o);
    AdmissionAnswers(cfg, acts, t, o);
    MatchingAnswers(cfg, acts, t, o);
    ResolutionAnswers(cfg, acts, t, o);
  }
}
