/**
 The promise a started verification makes: the right signal, received in time and not blocked
 or throttled, is answered matched with exactly that session, whatever else runs meanwhile.
 */
module Completeness {
  import opened Wrappers
  import opened Store
  import opened Protocol
  import SessionRules
  import Codes

  // ---------------------------------------------------------------- what a start leaves behind

  /** A number row keeps its msisdn for as long as it exists. */
  ghost predicate NamedNumber(s: State, n: Id, msisdn: string) {
    n in s.usedNumbers && (n in s.db.numbers ==> s.db.numbers[n].msisdn == msisdn)
  }

  ghost predicate StartedOk(s: State, th: StartThread) {
    match th.pc
    case Creating(n, msisdn) => NamedNumber(s, n, msisdn)
    case StartDone(Started(sid, msisdn, code)) =>
      && sid in s.db.sessions
      && var sess := s.db.sessions[sid];
         && sess.channel == th.plan.channel && sess.binding == th.plan.binding && sess.claimed == th.plan.claimed
         && sess.code == (if NeedsCode(th.plan.channel) then Some(code) else None)
         && (sess.number.Some? ==> NamedNumber(s, sess.number.value, msisdn))
    case _ => true
  }

  ghost predicate NumbersOk(s: State) {
    && s.db.numbers.Keys <= s.usedNumbers
    && forall m, n | m in s.db.numbers && n in s.db.numbers && s.db.numbers[m].msisdn == s.db.numbers[n].msisdn :: m == n
  }

  ghost predicate Inv(s: State) {
    NumbersOk(s) && forall u | u in s.starts :: StartedOk(s, s.starts[u])
  }

  /** How the number pool may change: rows come under fresh ids and go; they never change. */
  ghost predicate PoolEvolves(s: State, s': State) {
    && s.usedNumbers <= s'.usedNumbers
    && forall n | n in s'.db.numbers && n in s.usedNumbers :: n in s.db.numbers && s'.db.numbers[n] == s.db.numbers[n]
  }

  lemma PoolStep(cfg: Config, s: State, a: Action)
    requires NumbersOk(s)
    ensures NumbersOk(Apply(cfg, s, a)) && PoolEvolves(s, Apply(cfg, s, a))
  {
    if a.InboundStep? { InboundFrame(cfg, s, a.t, a.yes, a.pick); }
    else if a.StartStep? { StartKeepsPool(cfg, s, a.t, a.pick, a.sid, a.code); }
  }

  lemma StartKeepsPool(cfg: Config, s: State, t: Id, pick: Option<Id>, sid: Id, code: string)
    ensures var s' := StepStart(cfg, s, t, pick, sid, code); s'.db.numbers == s.db.numbers && s'.usedNumbers == s.usedNumbers
  {}

  lemma StartedStaysOk(s: State, s': State, th: StartThread)
    requires StartedOk(s, th) && PoolEvolves(s, s') && SessionRules.AllEvolve(s.db.sessions, s'.db.sessions)
    ensures StartedOk(s', th)
  {
    if th.pc.StartDone? && th.pc.outcome.Started? {
      var sid := th.pc.outcome.session;
      assert SessionRules.Evolves(s.db.sessions[sid], s'.db.sessions[sid]);
    }
  }

  lemma OwnStartStep(cfg: Config, s: State, t: Id, pick: Option<Id>, sid: Id, code: string)
    requires Inv(s) && t in s.starts
    ensures var s' := StepStart(cfg, s, t, pick, sid, code);
      && t in s'.starts && s'.starts == s.starts[t := s'.starts[t]]
      && StartedOk(s', s'.starts[t])
  {
    assert StartedOk(s, s.starts[t]);
  }

  lemma InvStep(cfg: Config, s: State, a: Action)
    requires Inv(s)
    ensures Inv(Apply(cfg, s, a))
  {
    var s' := Apply(cfg, s, a);
    PoolStep(cfg, s, a);
    SessionRules.SessionsEvolve(cfg, s, a);
    if a.InboundStep? { InboundFrame(cfg, s, a.t, a.yes, a.pick); }
    if a.StartStep? && a.t in s.starts { OwnStartStep(cfg, s, a.t, a.pick, a.sid, a.code); }
    forall u | u in s.starts
      ensures StartedOk(s', s.starts[u])
    {
      StartedStaysOk(s, s', s.starts[u]);
    }
  }

  lemma {:induction false} Reachable(cfg: Config, acts: seq<Action>)
    ensures Inv(Exec(cfg, acts))
  {
    if acts != [] {
      Reachable(cfg, acts[..|acts| - 1]);
      InvStep(cfg, Exec(cfg, acts[..|acts| - 1]), acts[|acts| - 1]);
    }
  }

  // ---------------------------------------------------------------- the right signal

  /** The signal the instructions ask for, from the claimed sender if there is a claim. */
  ghost predicate RightSignal(req: InboundRequest, sess: Session, row: Number) {
    && req.number == row.msisdn && req.device == row.device
    && (sess.channel != Call ==> sess.code == Some(Codes.ExtractCode(req.body)) && Codes.IsCode(Codes.ExtractCode(req.body)))
    && (sess.channel == Sms ==> req.kind == "sms")
    && (sess.channel == Dtmf ==> req.kind == "call" && TrimSpace(req.body) != "")
    && (sess.channel == Call ==> req.kind == "call" && TrimSpace(req.body) == "" && sess.claimed == Some(req.sender))
    && (sess.binding == Claim ==> sess.claimed == Some(req.sender))
  }

  /** Nothing goes wrong at request t's own steps: not blocked, not throttled, and in time. */
  ghost predicate Favourable(s: State, a: Action, t: Id, sid: Id) {
    a.InboundStep? && a.t == t && t in s.inbounds ==>
      match s.inbounds[t].pc
      case BlockCheck => !IsBlocked(s.db.blocks, s.inbounds[t].req.sender, s.now)
      case Throttle => a.yes
      case Matching =>
        sid in s.db.sessions && s.db.sessions[sid].status == Pending && s.db.sessions[sid].expiresAt > s.now
      case Verifying(_) => sid in s.db.sessions && s.db.sessions[sid].status == Pending
      case _ => true
  }

  ghost predicate OnTrack(th: InboundThread, n: Id, sid: Id) {
    match th.pc
    case Lookup => true
    case BlockCheck => th.number == n
    case Throttle => th.number == n
    case Matching => th.number == n
    case Verifying(x) => x == sid
    case Notifying(x) => x == sid
    case Auditing(outcome) => outcome == Matched(sid)
    case InboundDone(outcome) => outcome == Matched(sid)
    case _ => false
  }

  /** What the completeness argument carries along the run. */
  ghost predicate Track(s: State, t: Id, n: Id, row: Number, sid: Id, terms: Session) {
    && NumbersOk(s) && SessionRules.AllDistinct(s.db.sessions)
    && n in s.db.numbers && s.db.numbers[n] == row
    && sid in s.db.sessions && SessionRules.Evolves(terms, s.db.sessions[sid])
    && s.db.sessions[sid].number == Some(n)
    && (t in s.inbounds && RightSignal(s.inbounds[t].req, terms, row) ==> OnTrack(s.inbounds[t], n, sid))
  }

  lemma LookupFindsNumber(s: State, n: Id, row: Number, pick: Option<Id>)
    requires NumbersOk(s) && n in s.db.numbers && s.db.numbers[n] == row && IsNumberLookup(s.db, row.msisdn, pick)
    ensures pick == Some(n)
  {}

  /** The signal's query selects the session and nothing else. */
  lemma MatchFindsSession(s: State, t: Id, n: Id, row: Number, sid: Id, terms: Session)
    requires Track(s, t, n, row, sid, terms) && t in s.inbounds && RightSignal(s.inbounds[t].req, terms, row)
    requires s.inbounds[t].number == n
    requires s.db.sessions[sid].status == Pending && s.db.sessions[sid].expiresAt > s.now
    ensures TargetOf(n, s.inbounds[t].req).Some?
    ensures forall pick :: IsFound(s.db, TargetOf(n, s.inbounds[t].req).value, s.now, pick) <==> pick == Some(sid)
    ensures Bind(s.db.sessions[sid], sid, s.inbounds[t].req.sender) == Verifying(sid)
  {
    var target := TargetOf(n, s.inbounds[t].req).value;
    assert Hits(target, s.db.sessions[sid], s.now);
    forall o | o in s.db.sessions && Hits(target, s.db.sessions[o], s.now)
      ensures o == sid
    {
      assert o != sid ==> SessionRules.Distinct(s.db.sessions[o], s.db.sessions[sid]);
    }
  }

  lemma OwnStepStaysOnTrack(cfg: Config, s: State, t: Id, yes: bool, pick: Option<Id>, n: Id, row: Number, sid: Id, terms: Session)
    requires Track(s, t, n, row, sid, terms) && t in s.inbounds && RightSignal(s.inbounds[t].req, terms, row)
    requires Favourable(s, InboundStep(t, yes, pick), t, sid)
    ensures var s' := StepInbound(cfg, s, t, yes, pick);
      t in s'.inbounds && s'.inbounds[t].req == s.inbounds[t].req && OnTrack(s'.inbounds[t], n, sid)
  {
    if InAdmission(s.inbounds[t].pc) {
      AdmissionStaysOnTrack(s, t, yes, pick, n, row, sid, terms);
    } else {
      ResolutionStaysOnTrack(cfg, s, t, yes, n, sid);
    }
  }

  lemma AdmissionStaysOnTrack(s: State, t: Id, yes: bool, pick: Option<Id>, n: Id, row: Number, sid: Id, terms: Session)
    requires Track(s, t, n, row, sid, terms) && t in s.inbounds && RightSignal(s.inbounds[t].req, terms, row)
    requires Favourable(s, InboundStep(t, yes, pick), t, sid) && InAdmission(s.inbounds[t].pc)
    ensures var s' := StepAdmission(s, t, s.inbounds[t], yes, pick);
      t in s'.inbounds && s'.inbounds[t].req == s.inbounds[t].req && OnTrack(s'.inbounds[t], n, sid)
  {
    var pc := s.inbounds[t].pc;
    if pc.Lookup? {
      if IsNumberLookup(s.db, s.inbounds[t].req.number, pick) { LookupFindsNumber(s, n, row, pick); }
    } else if pc.Matching? {
      MatchFindsSession(s, t, n, row, sid, terms);
    }
  }

  lemma ResolutionStaysOnTrack(cfg: Config, s: State, t: Id, yes: bool, n: Id, sid: Id)
    requires t in s.inbounds && OnTrack(s.inbounds[t], n, sid) && !InAdmission(s.inbounds[t].pc)
    requires Favourable(s, InboundStep(t, yes, None), t, sid)
    ensures var s' := StepResolution(cfg, s, t, s.inbounds[t], yes);
      t in s'.inbounds && s'.inbounds[t].req == s.inbounds[t].req && OnTrack(s'.inbounds[t], n, sid)
  {}

  /** Record t after any step: unchanged, moved by its own step, or just begun. */
  lemma RecordOnTrack(cfg: Config, s: State, a: Action, t: Id, n: Id, row: Number, sid: Id, terms: Session)
    requires Track(s, t, n, row, sid, terms) && Favourable(s, a, t, sid)
    requires t in Apply(cfg, s, a).inbounds && RightSignal(Apply(cfg, s, a).inbounds[t].req, terms, row)
    ensures OnTrack(Apply(cfg, s, a).inbounds[t], n, sid)
  {
    if a.InboundStep? {
      InboundFrame(cfg, s, a.t, a.yes, a.pick);
      if a.t == t { OwnStepStaysOnTrack(cfg, s, t, a.yes, a.pick, n, row, sid, terms); }
    } else if a.BeginInbound? {
      BegunOnTrack(cfg, s, a, t, n, row, sid, terms);
    } else {
      NoInboundMoves(cfg, s, a);
    }
  }

  lemma BegunOnTrack(cfg: Config, s: State, a: Action, t: Id, n: Id, row: Number, sid: Id, terms: Session)
    requires Track(s, t, n, row, sid, terms) && a.BeginInbound?
    requires t in Apply(cfg, s, a).inbounds && RightSignal(Apply(cfg, s, a).inbounds[t].req, terms, row)
    ensures OnTrack(Apply(cfg, s, a).inbounds[t], n, sid)
  {}

  lemma NoInboundMoves(cfg: Config, s: State, a: Action)
    requires !a.InboundStep? && !a.BeginInbound?
    ensures Apply(cfg, s, a).inbounds == s.inbounds
  {}

  /** A session keeps its number while the number's row exists. */
  lemma NumberKept(cfg: Config, s: State, a: Action, sid: Id, n: Id)
    requires sid in s.db.sessions && s.db.sessions[sid].number == Some(n) && n in Apply(cfg, s, a).db.numbers
    requires sid in Apply(cfg, s, a).db.sessions
    ensures Apply(cfg, s, a).db.sessions[sid].number == Some(n)
  {
    if a.InboundStep? { NumberKeptByInbound(cfg, s, a.t, a.yes, a.pick, sid, n); }
  }

  lemma NumberKeptByInbound(cfg: Config, s: State, t: Id, yes: bool, pick: Option<Id>, sid: Id, n: Id)
    requires sid in s.db.sessions && s.db.sessions[sid].number == Some(n)
    ensures sid in StepInbound(cfg, s, t, yes, pick).db.sessions
    ensures StepInbound(cfg, s, t, yes, pick).db.sessions[sid].number == Some(n)
  {
    if t in s.inbounds {
      var th := s.inbounds[t];
      if InAdmission(th.pc) { assert StepAdmission(s, t, th, yes, pick).db == s.db; }
      else if InFailure(th.pc) { NumberKeptByFailure(s, t, th, sid, n); }
      else { NumberKeptByResolution(cfg, s, t, th, yes, sid, n); }
    }
  }

  lemma NumberKeptByFailure(s: State, t: Id, th: InboundThread, sid: Id, n: Id)
    requires sid in s.db.sessions && s.db.sessions[sid].number == Some(n)
    ensures sid in StepFailure(s, t, th).db.sessions && StepFailure(s, t, th).db.sessions[sid].number == Some(n)
  {}

  lemma NumberKeptByResolution(cfg: Config, s: State, t: Id, th: InboundThread, yes: bool, sid: Id, n: Id)
    requires sid in s.db.sessions && s.db.sessions[sid].number == Some(n)
    ensures var db := StepResolution(cfg, s, t, th, yes).db; sid in db.sessions && db.sessions[sid].number == Some(n)
  {}

  lemma TrackStep(cfg: Config, s: State, a: Action, t: Id, n: Id, row: Number, sid: Id, terms: Session)
    requires Track(s, t, n, row, sid, terms) && SessionRules.Inv(s) && Favourable(s, a, t, sid)
    requires n in Apply(cfg, s, a).db.numbers
    ensures Track(Apply(cfg, s, a), t, n, row, sid, terms)
  {
    PoolStep(cfg, s, a);
    SessionRules.InvStep(cfg, s, a);
    SessionRules.SessionsEvolve(cfg, s, a);
    assert SessionRules.Evolves(s.db.sessions[sid], Apply(cfg, s, a).db.sessions[sid]);
    NumberKept(cfg, s, a, sid, n);
    if t in Apply(cfg, s, a).inbounds && RightSignal(Apply(cfg, s, a).inbounds[t].req, terms, row) {
      RecordOnTrack(cfg, s, a, t, n, row, sid, terms);
    }
  }

  lemma {:induction false} TrackRun(cfg: Config, s: State, acts: seq<Action>, t: Id, n: Id, row: Number, sid: Id, terms: Session)
    requires Track(s, t, n, row, sid, terms) && SessionRules.Inv(s) && n in s.usedNumbers
    requires n in ExecFrom(cfg, s, acts).db.numbers
    requires forall i | 0 <= i < |acts| :: Favourable(ExecFrom(cfg, s, acts[..i]), acts[i], t, sid)
    ensures Track(ExecFrom(cfg, s, acts), t, n, row, sid, terms)
    ensures SessionRules.Inv(ExecFrom(cfg, s, acts)) && n in ExecFrom(cfg, s, acts).usedNumbers
  {
    if acts != [] {
      var before, a := acts[..|acts| - 1], acts[|acts| - 1];
      assert forall i | 0 <= i <= |before| :: before[..i] == acts[..i];
      PoolRun(cfg, s, before);
      PoolStep(cfg, ExecFrom(cfg, s, before), a);
      TrackRun(cfg, s, before, t, n, row, sid, terms);
      TrackStep(cfg, ExecFrom(cfg, s, before), a, t, n, row, sid, terms);
      SessionRules.InvStep(cfg, ExecFrom(cfg, s, before), a);
    }
  }

  lemma {:induction false} PoolRun(cfg: Config, s: State, acts: seq<Action>)
    requires NumbersOk(s)
    ensures NumbersOk(ExecFrom(cfg, s, acts)) && s.usedNumbers <= ExecFrom(cfg, s, acts).usedNumbers
  {
    if acts != [] {
      PoolRun(cfg, s, acts[..|acts| - 1]);
      PoolStep(cfg, ExecFrom(cfg, s, acts[..|acts| - 1]), acts[|acts| - 1]);
    }
  }

  // ---------------------------------------------------------------- main result

  /** The signal that start u's answer asks the user to send, reported for the number it names. */
  ghost predicate AsInstructed(req: InboundRequest, plan: Plan, msisdn: string, code: string) {
    && req.number == msisdn
    && (plan.channel != Call ==> Codes.ExtractCode(req.body) == code)
    && (if plan.channel == Sms then req.kind == "sms" else req.kind == "call" && (TrimSpace(req.body) == "" <==> plan.channel == Call))
    && (plan.binding == Claim ==> plan.claimed == Some(req.sender))
  }

  /**
   After start u succeeded, with a code of 4 to 12 digits unless it is for a missed call, any
   request t begun later that reports the instructed signal from the number's device, and whose
   own steps meet no block, throttle or expiry and no rival resolution, can only finish matched
   with u's session, as long as the number is not deleted.
   */
  lemma InstructedSignalMatches(cfg: Config, acts: seq<Action>, more: seq<Action>, u: Id, t: Id, n: Id)
    requires var s0 := Exec(cfg, acts);
      && u in s0.starts && s0.starts[u].pc.StartDone? && s0.starts[u].pc.outcome.Started?
      && (NeedsCode(s0.starts[u].plan.channel) ==> Codes.IsCode(s0.starts[u].pc.outcome.code))
      && s0.starts[u].pc.outcome.session in s0.db.sessions
      && s0.db.sessions[s0.starts[u].pc.outcome.session].number == Some(n) && n in s0.db.numbers
      && t !in s0.inbounds
    requires var s0 := Exec(cfg, acts);
      var s := ExecFrom(cfg, s0, more);
      && n in s.db.numbers && t in s.inbounds && s.inbounds[t].pc.InboundDone?
      && AsInstructed(s.inbounds[t].req, s0.starts[u].plan, s0.starts[u].pc.outcome.msisdn, s0.starts[u].pc.outcome.code)
      && s.inbounds[t].req.device == s0.db.numbers[n].device
    requires var s0 := Exec(cfg, acts);
      forall i | 0 <= i < |more| ::
        Favourable(ExecFrom(cfg, s0, more[..i]), more[i], t, s0.starts[u].pc.outcome.session)
    ensures var s0 := Exec(cfg, acts);
      ExecFrom(cfg, s0, more).inbounds[t].pc == InboundDone(Matched(s0.starts[u].pc.outcome.session))
  {
    Reachable(cfg, acts);
    SessionRules.Reachable(cfg, acts);
    InstructedFrom(cfg, Exec(cfg, acts), more, u, t, n);
  }

  lemma InstructedFrom(cfg: Config, s0: State, more: seq<Action>, u: Id, t: Id, n: Id)
    requires Inv(s0) && SessionRules.Inv(s0)
    requires u in s0.starts && s0.starts[u].pc.StartDone? && s0.starts[u].pc.outcome.Started?
    requires (NeedsCode(s0.starts[u].plan.channel) ==> Codes.IsCode(s0.starts[u].pc.outcome.code))
    requires var sid := s0.starts[u].pc.outcome.session;
      sid in s0.db.sessions && s0.db.sessions[sid].number == Some(n) && n in s0.db.numbers && t !in s0.inbounds
    requires var s := ExecFrom(cfg, s0, more);
      && n in s.db.numbers && t in s.inbounds && s.inbounds[t].pc.InboundDone?
      && AsInstructed(s.inbounds[t].req, s0.starts[u].plan, s0.starts[u].pc.outcome.msisdn, s0.starts[u].pc.outcome.code)
      && s.inbounds[t].req.device == s0.db.numbers[n].device
    requires forall i | 0 <= i < |more| ::
               Favourable(ExecFrom(cfg, s0, more[..i]), more[i], t, s0.starts[u].pc.outcome.session)
    ensures ExecFrom(cfg, s0, more).inbounds[t].pc == InboundDone(Matched(s0.starts[u].pc.outcome.session))
  {
    var sid := s0.starts[u].pc.outcome.session;
    var terms, row := s0.db.sessions[sid], s0.db.numbers[n];
    StartOnTrack(s0, u, t, n, ExecFrom(cfg, s0, more).inbounds[t].req);
    TrackRun(cfg, s0, more, t, n, row, sid, terms);
    DoneOnTrack(ExecFrom(cfg, s0, more), t, n, row, sid, terms);
  }

  /** A successful start puts the argument on its track, and its instructed signal is the right one. */
  lemma StartOnTrack(s: State, u: Id, t: Id, n: Id, req: InboundRequest)
    requires Inv(s) && SessionRules.Inv(s)
    requires u in s.starts && s.starts[u].pc.StartDone? && s.starts[u].pc.outcome.Started?
    requires (NeedsCode(s.starts[u].plan.channel) ==> Codes.IsCode(s.starts[u].pc.outcome.code))
    requires var sid := s.starts[u].pc.outcome.session;
      sid in s.db.sessions && s.db.sessions[sid].number == Some(n) && n in s.db.numbers && t !in s.inbounds
    requires AsInstructed(req, s.starts[u].plan, s.starts[u].pc.outcome.msisdn, s.starts[u].pc.outcome.code)
    requires req.device == s.db.numbers[n].device
    ensures var sid := s.starts[u].pc.outcome.session;
      Track(s, t, n, s.db.numbers[n], sid, s.db.sessions[sid]) && RightSignal(req, s.db.sessions[sid], s.db.numbers[n])
  {
    assert StartedOk(s, s.starts[u]);
  }

  lemma DoneOnTrack(s: State, t: Id, n: Id, row: Number, sid: Id, terms: Session)
    requires Track(s, t, n, row, sid, terms) && t in s.inbounds && RightSignal(s.inbounds[t].req, terms, row)
    requires s.inbounds[t].pc.InboundDone?
    ensures s.inbounds[t].pc == InboundDone(Matched(sid))
  {}

  // ---------------------------------------------------------------- and it can finish

  /**
   Start u succeeded, with a code of 4 to 12 digits unless it is for a missed call; its session is pending and unexpired on
   number n, and a request with the instructed signal from n's device, whose sender is not
   blocked, is about to come.
   */
  ghost predicate Ready(s: State, u: Id, n: Id, req: InboundRequest) {
    && u in s.starts && s.starts[u].pc.StartDone? && s.starts[u].pc.outcome.Started?
    && (NeedsCode(s.starts[u].plan.channel) ==> Codes.IsCode(s.starts[u].pc.outcome.code))
    && AsInstructed(req, s.starts[u].plan, s.starts[u].pc.outcome.msisdn, s.starts[u].pc.outcome.code)
    && n in s.db.numbers && req.device == s.db.numbers[n].device && !IsBlocked(s.db.blocks, req.sender, s.now)
    && var sid := s.starts[u].pc.outcome.session;
       && sid in s.db.sessions && s.db.sessions[sid].number == Some(n)
       && s.db.sessions[sid].status == Pending && s.db.sessions[sid].expiresAt > s.now
  }

  /** The request's steps up to its compare-and-set, each with the pick the store would make. */
  function StepsToVerifying(t: Id, n: Id, sid: Id): seq<Action> {
    [InboundStep(t, true, Some(n)), InboundStep(t, true, None), InboundStep(t, true, None), InboundStep(t, true, Some(sid))]
  }

  /** Its compare-and-set, notification and audit row. */
  function StepsToAnswer(t: Id): seq<Action> {
    [InboundStep(t, true, None), InboundStep(t, true, None), InboundStep(t, true, None)]
  }

  /** The whole request, with some time passing between its lookup and its compare-and-set. */
  function Report(t: Id, req: InboundRequest, n: Id, sid: Id, wait: nat): seq<Action> {
    [BeginInbound(t, req)] + StepsToVerifying(t, n, sid) + [Tick(wait)] + StepsToAnswer(t)
  }

  /** A run of three more actions, one at a time. */
  lemma ThreeMore(cfg: Config, s: State, a: Action, b: Action, c: Action)
    ensures ExecFrom(cfg, s, [a, b, c]) == Apply(cfg, Apply(cfg, Apply(cfg, s, a), b), c)
  {
    assert [a, b, c][..2] == [a, b] && [a, b][..1] == [a] && [a][..0] == [];
    assert ExecFrom(cfg, s, [a]) == Apply(cfg, s, a);
    assert ExecFrom(cfg, s, [a, b]) == Apply(cfg, ExecFrom(cfg, s, [a]), b);
  }

  lemma ThreeStepsToMatching(cfg: Config, s: State, t: Id, n: Id, row: Number, sid: Id, terms: Session)
    requires Track(s, t, n, row, sid, terms) && t in s.inbounds && s.inbounds[t].pc.Lookup?
    requires RightSignal(s.inbounds[t].req, terms, row) && !IsBlocked(s.db.blocks, s.inbounds[t].req.sender, s.now)
    ensures var th := s.inbounds[t].(number := n);
      Apply(cfg, Apply(cfg, Apply(cfg, s, InboundStep(t, true, Some(n))), InboundStep(t, true, None)), InboundStep(t, true, None))
      == s.(inbounds := s.inbounds[t := th.(pc := Matching)])
  {
    var th := s.inbounds[t].(number := n);
    var s1 := s.(inbounds := s.inbounds[t := th.(pc := BlockCheck)]);
    assert Apply(cfg, s, InboundStep(t, true, Some(n))) == s1;
    assert Apply(cfg, s1, InboundStep(t, true, None)) == s.(inbounds := s.inbounds[t := th.(pc := Throttle)]);
  }

  lemma FourStepsToVerifying(cfg: Config, s: State, t: Id, n: Id, row: Number, sid: Id, terms: Session)
    requires Track(s, t, n, row, sid, terms) && t in s.inbounds && s.inbounds[t].pc.Lookup?
    requires RightSignal(s.inbounds[t].req, terms, row) && !IsBlocked(s.db.blocks, s.inbounds[t].req.sender, s.now)
    requires s.db.sessions[sid].status == Pending && s.db.sessions[sid].expiresAt > s.now
    ensures var th := s.inbounds[t].(number := n);
      ExecFrom(cfg, s, StepsToVerifying(t, n, sid)) == s.(inbounds := s.inbounds[t := th.(pc := Verifying(sid))])
  {
    var acts := StepsToVerifying(t, n, sid);
    var s3 := s.(inbounds := s.inbounds[t := s.inbounds[t].(number := n, pc := Matching)]);
    ThreeStepsToMatching(cfg, s, t, n, row, sid, terms);
    ThreeMore(cfg, s, acts[0], acts[1], acts[2]);
    assert acts[..3] == [acts[0], acts[1], acts[2]];
    MatchFindsSession(s3, t, n, row, sid, terms);
  }

  /** The compare-and-set succeeds, however late, and the answer and its row follow. */
  lemma ThreeStepsToAnswer(cfg: Config, s: State, t: Id, sid: Id)
    requires t in s.inbounds && s.inbounds[t].pc == Verifying(sid)
    requires sid in s.db.sessions && s.db.sessions[sid].status == Pending
    ensures var s' := ExecFrom(cfg, s, StepsToAnswer(t));
      && t in s'.inbounds && s'.inbounds[t].pc == InboundDone(Matched(sid)) && s'.now == s.now
      && sid in s'.db.sessions
      && s'.db.sessions[sid] == s.db.sessions[sid].(status := Verified, verified := Some(s.inbounds[t].req.sender))
  {
    ThreeMore(cfg, s, InboundStep(t, true, None), InboundStep(t, true, None), InboundStep(t, true, None));
    VerifyStep(cfg, s, t, sid);
  }

  lemma VerifyStep(cfg: Config, s: State, t: Id, sid: Id)
    requires t in s.inbounds && s.inbounds[t].pc == Verifying(sid)
    requires sid in s.db.sessions && s.db.sessions[sid].status == Pending
    ensures var s' := Apply(cfg, s, InboundStep(t, true, None));
      && s'.now == s.now && s'.inbounds == s.inbounds[t := s.inbounds[t].(pc := Notifying(sid))]
      && s'.db.sessions == s.db.sessions[sid := s.db.sessions[sid].(status := Verified, verified := Some(s.inbounds[t].req.sender))]
  {}

  /** Beginning the request puts the completeness argument on its track. */
  lemma ReportOnTrack(cfg: Config, s: State, u: Id, t: Id, n: Id, req: InboundRequest)
    requires Inv(s) && SessionRules.Inv(s) && Ready(s, u, n, req) && t !in s.inbounds
    ensures var sid := s.starts[u].pc.outcome.session;
      var s' := Apply(cfg, s, BeginInbound(t, req));
      && s' == s.(inbounds := s.inbounds[t := InboundThread(req, 0, None, Lookup)])
      && Track(s', t, n, s.db.numbers[n], sid, s.db.sessions[sid])
      && RightSignal(req, s.db.sessions[sid], s.db.numbers[n])
  {
    assert StartedOk(s, s.starts[u]);
  }

  /**
   From any reachable state after a successful start, the instructed request, left alone and let
   through by the limiter, finishes matched in seven steps, however long it stalls between its
   lookup and its compare-and-set.
   */
  lemma InstructedSignalSucceeds(cfg: Config, acts: seq<Action>, u: Id, t: Id, n: Id, req: InboundRequest, wait: nat)
    requires Ready(Exec(cfg, acts), u, n, req) && t !in Exec(cfg, acts).inbounds
    ensures var s, sid := Exec(cfg, acts), Exec(cfg, acts).starts[u].pc.outcome.session;
      Answered(s, Exec(cfg, acts + Report(t, req, n, sid, wait)), t, sid, req.sender, wait)
  {
    Reachable(cfg, acts);
    SessionRules.Reachable(cfg, acts);
    var s, sid := Exec(cfg, acts), Exec(cfg, acts).starts[u].pc.outcome.session;
    ExecSplit(cfg, INIT, acts, Report(t, req, n, sid, wait));
    ReportRuns(cfg, s, u, t, n, req, wait);
  }

  lemma ReportToVerifying(cfg: Config, s: State, u: Id, t: Id, n: Id, req: InboundRequest)
    requires Inv(s) && SessionRules.Inv(s) && Ready(s, u, n, req) && t !in s.inbounds
    ensures var sid := s.starts[u].pc.outcome.session;
      ExecFrom(cfg, Apply(cfg, s, BeginInbound(t, req)), StepsToVerifying(t, n, sid))
      == s.(inbounds := s.inbounds[t := InboundThread(req, n, None, Verifying(sid))])
  {
    var sid := s.starts[u].pc.outcome.session;
    ReportOnTrack(cfg, s, u, t, n, req);
    var s1 := s.(inbounds := s.inbounds[t := InboundThread(req, 0, None, Lookup)]);
    FourStepsToVerifying(cfg, s1, t, n, s.db.numbers[n], sid, s.db.sessions[sid]);
    assert s1.inbounds[t := InboundThread(req, n, None, Verifying(sid))] == s.inbounds[t := InboundThread(req, n, None, Verifying(sid))];
  }

  /** The state after the whole request. */
  ghost predicate Answered(s: State, s': State, t: Id, sid: Id, sender: string, wait: nat) {
    && t in s'.inbounds && s'.inbounds[t].pc == InboundDone(Matched(sid)) && s'.now == s.now + wait
    && sid in s.db.sessions && sid in s'.db.sessions
    && s'.db.sessions[sid] == s.db.sessions[sid].(status := Verified, verified := Some(sender))
  }

  lemma LateAnswer(cfg: Config, s: State, t: Id, sid: Id, th: InboundThread, wait: nat)
    requires th.pc == Verifying(sid) && sid in s.db.sessions && s.db.sessions[sid].status == Pending
    ensures Answered(s, ExecFrom(cfg, Apply(cfg, s.(inbounds := s.inbounds[t := th]), Tick(wait)), StepsToAnswer(t)), t, sid, th.req.sender, wait)
  {
    var late := s.(inbounds := s.inbounds[t := th], now := s.now + wait);
    assert Apply(cfg, s.(inbounds := s.inbounds[t := th]), Tick(wait)) == late;
    ThreeStepsToAnswer(cfg, late, t, sid);
  }

  lemma ReportRuns(cfg: Config, s: State, u: Id, t: Id, n: Id, req: InboundRequest, wait: nat)
    requires Inv(s) && SessionRules.Inv(s) && Ready(s, u, n, req) && t !in s.inbounds
    ensures var sid := s.starts[u].pc.outcome.session;
      Answered(s, ExecFrom(cfg, s, Report(t, req, n, sid, wait)), t, sid, req.sender, wait)
  {
    var sid := s.starts[u].pc.outcome.session;
    FourParts(cfg, s, BeginInbound(t, req), StepsToVerifying(t, n, sid), Tick(wait), StepsToAnswer(t));
    ReportToVerifying(cfg, s, u, t, n, req);
    LateAnswer(cfg, s, t, sid, InboundThread(req, n, None, Verifying(sid)), wait);
  }

  lemma FourParts(cfg: Config, s: State, a: Action, b: seq<Action>, c: Action, d: seq<Action>)
    ensures ExecFrom(cfg, s, [a] + b + [c] + d)
         == ExecFrom(cfg, Apply(cfg, ExecFrom(cfg, Apply(cfg, s, a), b), c), d)
  {
    ExecOneMore(cfg, s, [], a);
    assert [] + [a] == [a];
    ExecSplit(cfg, s, [a], b);
    ExecOneMore(cfg, s, [a] + b, c);
    ExecSplit(cfg, s, [a] + b + [c], d);
  }

  lemma ExecOneMore(cfg: Config, s: State, acts: seq<Action>, a: Action)
    ensures ExecFrom(cfg, s, acts + [a]) == Apply(cfg, ExecFrom(cfg, s, acts), a)
  {
    assert (acts + [a])[..|acts|] == acts;
  }

  /**
   The compare-and-set does not look at the expiry: with a stall past it, such a request leaves
   a session verified after it expired.
   */
  lemma VerifiedAfterExpiry(cfg: Config, acts: seq<Action>, u: Id, t: Id, n: Id, req: InboundRequest, wait: nat)
    requires Ready(Exec(cfg, acts), u, n, req) && t !in Exec(cfg, acts).inbounds
    requires var s := Exec(cfg, acts); s.now + wait >= s.db.sessions[s.starts[u].pc.outcome.session].expiresAt
    ensures exists more ::
      var s, sid := Exec(cfg, acts + more), Exec(cfg, acts).starts[u].pc.outcome.session;
      sid in s.db.sessions && s.db.sessions[sid].status == Verified && s.db.sessions[sid].expiresAt <= s.now
  {
    InstructedSignalSucceeds(cfg, acts, u, t, n, req, wait);
    var more := Report(t, req, n, Exec(cfg, acts).starts[u].pc.outcome.session, wait);
    assert Exec(cfg, acts + more).db.sessions[Exec(cfg, acts).starts[u].pc.outcome.session].status == Verified;
  }
}
