/**
 The verification protocol (verify/service.go) as a transition system over the store.

 Every store call of every request is one step, and steps of different requests interleave
 without restriction; the only guard is the store's own atomicity. An action carries the
 nondeterminism of its step: the random pick, the fresh id, the drawn code, the limiter's
 answer. An action that does not fit the state changes nothing, so every sequence of actions
 is a run.

 Requests keep their record after they finish, so a state also holds every answer given.
 */
module Protocol {
  import opened Wrappers
  import opened Store
  import Codes

  const MAX_START_ATTEMPTS := 8
  const ABUSE_FAIL_WINDOW := 600_000
  const ABUSE_FAIL_THRESHOLD := 5
  const ABUSE_FLOOD_WINDOW := 300_000
  const ABUSE_FLOOD_THRESHOLD := 20
  const ABUSE_BLOCK_DURATION := 3_600_000

  datatype Config = Config(backend: Backend, maxPending: nat, defaultCodeLen: int, defaultTtl: Millis)

  // ---------------------------------------------------------------- requests

  /** The app row's id and configuration. */
  datatype App = App(id: Id, bindingMode: string, codeLen: int, ttlSeconds: int, channelsEnabled: seq<string>)

  datatype StartRequest = StartRequest(app: App, channel: string, bindingMode: string, claimedMsisdn: string)

  /** A validated start: what every attempt of its retry loop shares. */
  datatype Plan = Plan(app: Id, channel: Channel, binding: Binding, claimed: Option<string>, codeLen: nat, expiresAt: Millis)

  datatype StartOutcome =
    | Started(session: Id, msisdn: string, code: string)
    | Invalid
    | Busy(position: nat)
    | NoCapacity
    | StoreFailed

  datatype StartPc =
    | Picking
    | Creating(number: Id, msisdn: string)
    | Counting
    | StartDone(outcome: StartOutcome)

  datatype StartThread = StartThread(plan: Plan, attempt: nat, pc: StartPc)

  datatype InboundRequest = InboundRequest(device: Id, number: string, kind: string, sender: string, body: string)

  datatype Reason = UnknownNumber | Blocked | RateLimited | NoMatch | ClaimMismatch | AlreadyResolved

  datatype InboundOutcome = Matched(session: Id) | Unmatched(reason: Reason) | Forbidden | BadType

  datatype InboundPc =
    | Lookup
    | BlockCheck
    | Throttle
    | Matching
    | Attempting(session: Id)
    | FailCount(reason: Reason)
    | FloodCount(reason: Reason, at: Millis)
    | AddBlock(reason: Reason, at: Millis)
    | Verifying(session: Id)
    | Notifying(session: Id)
    | Auditing(outcome: InboundOutcome)
    | InboundDone(outcome: InboundOutcome)

  /** number is set by the lookup; failedAt is when the failed attempt was counted. */
  datatype InboundThread = InboundThread(req: InboundRequest, number: Id, failedAt: Option<Millis>, pc: InboundPc)

  /**
   log and notified are history: every audit row ever written, and every session a
   notification was sent for. usedNumbers keeps number ids fresh.
   */
  datatype State = State(
    now: Millis, db: Db, starts: map<Id, StartThread>, inbounds: map<Id, InboundThread>,
    log: seq<Event>, notified: seq<Id>, usedNumbers: set<Id>)

  const INIT := State(0, EMPTY, map[], map[], [], [], {})

  datatype Action =
    | Tick(ms: nat)
    | AddDevice(dev: Id)
    | Heartbeat(dev: Id)
    | AddNumber(num: Id, row: Number)
    | RemoveDevice(dev: Id)
    | Sweep
    | Prune(retention: nat)
    | BeginStart(t: Id, start: StartRequest)
    | StartStep(t: Id, pick: Option<Id>, sid: Id, code: string)
    | BeginInbound(t: Id, inbound: InboundRequest)
    | InboundStep(t: Id, yes: bool, pick: Option<Id>)

  // ---------------------------------------------------------------- starting a verification

  function ParseChannel(c: string): Option<Channel> {
    if c == "sms" then Some(Sms) else if c == "call" then Some(Call) else if c == "dtmf" then Some(Dtmf) else None
  }

  function ParseBinding(b: string): Option<Binding> {
    if b == "derive" then Some(Derive) else if b == "claim" then Some(Claim) else None
  }

  /** validateCombo: a missed call has no code, so only the caller's claim can bind it. */
  predicate ValidCombo(channel: string, binding: string) {
    && ParseChannel(channel).Some? && ParseBinding(binding).Some?
    && (ParseChannel(channel) == Some(Call) ==> ParseBinding(binding) == Some(Claim))
  }

  predicate NeedsCode(c: Channel) { c == Sms || c == Dtmf }

  /** Unicode white space, which strings.TrimSpace strips. */
  predicate IsSpace(c: char) {
    || '\t' <= c <= '\r' || c == ' ' || c == '\U{85}' || c == '\U{A0}' || c == '\U{1680}' || '\U{2000}' <= c <= '\U{200A}'
    || c == '\U{2028}' || c == '\U{2029}' || c == '\U{202F}' || c == '\U{205F}' || c == '\U{3000}'
  }

  function TrimSpace(s: string): string
    decreases |s|
  {
    if s == [] then []
    else if IsSpace(s[0]) then TrimSpace(s[1..])
    else if IsSpace(s[|s| - 1]) then TrimSpace(s[..|s| - 1])
    else s
  }

  function OrElse(s: string, default: string): string { if s == "" then default else s }

  /** The checks before the retry loop; None is a ValidationError. */
  function PlanOf(cfg: Config, req: StartRequest, now: Millis): Option<Plan> {
    var channel := OrElse(req.channel, "sms");
    var binding := OrElse(OrElse(req.bindingMode, req.app.bindingMode), "derive");
    var claimed := TrimSpace(req.claimedMsisdn);
    if !ValidCombo(channel, binding) then None
    else if req.app.channelsEnabled != [] && channel !in req.app.channelsEnabled then None
    else if binding == "claim" && claimed == "" then None
    else
      var codeLen := if req.app.codeLen == 0 then cfg.defaultCodeLen else req.app.codeLen;
      var ttl := if req.app.ttlSeconds > 0 then req.app.ttlSeconds * 1000 else cfg.defaultTtl;
      Some(Plan(req.app.id, ParseChannel(channel).value, ParseBinding(binding).value,
                if claimed == "" then None else Some(claimed), Codes.CodeLength(codeLen), now + ttl))
  }

  /** What generateCode can draw for the plan; a channel without a code has the empty one. */
  predicate ValidCode(plan: Plan, code: string) {
    if NeedsCode(plan.channel) then |code| == plan.codeLen && Codes.AllDigits(code) else code == ""
  }

  function Candidate(plan: Plan, number: Id, code: string, now: Millis): Session {
    Session(plan.app, plan.channel, plan.binding, Pending, Some(number),
            if NeedsCode(plan.channel) then Some(code) else None, plan.claimed, None, 0, now, plan.expiresAt)
  }

  function GoStart(s: State, t: Id, th: StartThread): State { s.(starts := s.starts[t := th]) }

  function StepStart(cfg: Config, s: State, t: Id, pick: Option<Id>, sid: Id, code: string): State {
    if t !in s.starts then s
    else
      var th := s.starts[t];
      match th.pc
      case Picking =>
        if !IsPick(s.db, cfg.maxPending, th.plan.channel, pick) then s
        else if pick.None? then GoStart(s, t, th.(pc := Counting))
        else GoStart(s, t, th.(pc := Creating(pick.value, s.db.numbers[pick.value].msisdn)))
      case Creating(number, msisdn) =>
        if sid in s.db.sessions || !ValidCode(th.plan, code) then s
        else
          var candidate := Candidate(th.plan, number, code, s.now);
          if Conflicts(s.db, candidate) then
            GoStart(s, t, th.(attempt := th.attempt + 1, pc := if th.attempt + 1 < MAX_START_ATTEMPTS then Picking else Counting))
          else if !ReferenceOk(cfg.backend, s.db, Some(number)) then GoStart(s, t, th.(pc := StartDone(StoreFailed)))
          else GoStart(s, t, th.(pc := StartDone(Started(sid, msisdn, code)))).(db := Insert(s.db, sid, candidate))
      case Counting =>
        var available := |Serving(s.db, th.plan.channel)|;
        GoStart(s, t, th.(pc := StartDone(if IsVoice(th.plan.channel) && available > 0 then Busy(available) else NoCapacity)))
      case StartDone(_) => s
  }

  // ---------------------------------------------------------------- matching an inbound signal

  /** matchSession's choice of query; None is a body without a usable code. */
  function TargetOf(number: Id, req: InboundRequest): Option<Target> {
    var code := Codes.ExtractCode(req.body);
    if req.kind == "sms" then (if code == "" then None else Some(ByCode(number, code, Sms)))
    else if TrimSpace(req.body) != "" then (if code == "" then None else Some(ByCode(number, code, Dtmf)))
    else Some(MissedCall(number, req.sender))
  }

  function Go(s: State, t: Id, th: InboundThread, pc: InboundPc): State { s.(inbounds := s.inbounds[t := th.(pc := pc)]) }

  function AuditRow(th: InboundThread, outcome: InboundOutcome, now: Millis): Event {
    Event(Some(th.number), th.req.kind, th.req.sender, th.req.body,
          if outcome.Matched? then Some(outcome.session) else None, now)
  }

  /** The session a found row leads to: a failed claim check, or the verify call. */
  function Bind(sess: Session, sid: Id, sender: string): InboundPc {
    if sess.binding == Claim && sess.claimed != Some(sender) then Attempting(sid) else Verifying(sid)
  }

  /** From the number lookup to the matched row. */
  function StepAdmission(s: State, t: Id, th: InboundThread, yes: bool, pick: Option<Id>): State {
    match th.pc
    case Lookup =>
      if !IsNumberLookup(s.db, th.req.number, pick) then s
      else if pick.None? then Go(s, t, th, InboundDone(Unmatched(UnknownNumber)))
      else if s.db.numbers[pick.value].device != th.req.device then Go(s, t, th, InboundDone(Forbidden))
      else Go(s, t, th.(number := pick.value), BlockCheck)
    case BlockCheck =>
      Go(s, t, th, if IsBlocked(s.db.blocks, th.req.sender, s.now) then Auditing(Unmatched(Blocked)) else Throttle)
    case Throttle =>
      Go(s, t, th, if yes then Matching else Auditing(Unmatched(RateLimited)))
    case Matching =>
      var target := TargetOf(th.number, th.req);
      if target.None? then Go(s, t, th, FailCount(NoMatch))
      else if !IsFound(s.db, target.value, s.now, pick) then s
      else if pick.None? then Go(s, t, th, FailCount(NoMatch))
      else Go(s, t, th, Bind(s.db.sessions[pick.value], pick.value, th.req.sender))
    case _ => s
  }

  /** The failed attempt: the attempts counter, then maybeBlock's two counts and its block. */
  function StepFailure(s: State, t: Id, th: InboundThread): State {
    match th.pc
    case Attempting(sid) =>
      Go(s, t, th, FailCount(ClaimMismatch)).(db := BumpAttempts(s.db, sid))
    case FailCount(reason) =>
      var n := CountBySender(s.db.events, th.req.sender, s.now - ABUSE_FAIL_WINDOW, true);
      Go(s, t, th.(failedAt := Some(s.now)),
         if n + 1 >= ABUSE_FAIL_THRESHOLD then AddBlock(reason, s.now) else FloodCount(reason, s.now))
    case FloodCount(reason, at) =>
      var n := CountBySender(s.db.events, th.req.sender, at - ABUSE_FLOOD_WINDOW, false);
      Go(s, t, th, if n + 1 >= ABUSE_FLOOD_THRESHOLD then AddBlock(reason, at) else Auditing(Unmatched(reason)))
    case AddBlock(reason, at) =>
      var block := Block(th.req.sender, Some(at + ABUSE_BLOCK_DURATION));
      Go(s, t, th, Auditing(Unmatched(reason))).(db := s.db.(blocks := s.db.blocks + [block]))
    case _ => s
  }

  /** The compare-and-set, the notification and the deferred audit row. */
  function StepResolution(cfg: Config, s: State, t: Id, th: InboundThread, yes: bool): State {
    match th.pc
    case Verifying(sid) =>
      var (db, ok) := Verify(s.db, sid, th.req.sender);
      Go(s, t, th, if ok then Notifying(sid) else Auditing(Unmatched(AlreadyResolved))).(db := db)
    case Notifying(sid) =>
      Go(s, t, th, Auditing(Matched(sid))).(notified := if yes then s.notified + [sid] else s.notified)
    case Auditing(outcome) =>
      var done := Go(s, t, th, InboundDone(outcome));
      var row := AuditRow(th, outcome, s.now);
      if !ReferenceOk(cfg.backend, s.db, row.number) then done
      else done.(db := s.db.(events := s.db.events + [row]), log := s.log + [row])
    case _ => s
  }

  predicate InAdmission(pc: InboundPc) { pc.Lookup? || pc.BlockCheck? || pc.Throttle? || pc.Matching? }

  predicate InFailure(pc: InboundPc) { pc.Attempting? || pc.FailCount? || pc.FloodCount? || pc.AddBlock? }

  function StepInbound(cfg: Config, s: State, t: Id, yes: bool, pick: Option<Id>): State {
    if t !in s.inbounds then s
    else
      var th := s.inbounds[t];
      if InAdmission(th.pc) then StepAdmission(s, t, th, yes, pick)
      else if InFailure(th.pc) then StepFailure(s, t, th)
      else StepResolution(cfg, s, t, th, yes)
  }

  // ---------------------------------------------------------------- the system

  function Apply(cfg: Config, s: State, a: Action): State {
    match a
    case Tick(ms) => s.(now := s.now + ms)
    case AddDevice(dev) =>
      if dev in s.db.devices then s else s.(db := s.db.(devices := s.db.devices[dev := Device(false)]))
    case Heartbeat(dev) =>
      if dev !in s.db.devices then s else s.(db := s.db.(devices := s.db.devices[dev := Device(true)]))
    case AddNumber(num, row) =>
      if num in s.usedNumbers || row.device !in s.db.devices
         || exists m | m in s.db.numbers :: s.db.numbers[m].msisdn == row.msisdn then s
      else s.(db := s.db.(numbers := s.db.numbers[num := row]), usedNumbers := s.usedNumbers + {num})
    case RemoveDevice(dev) => s.(db := DeleteDevice(cfg.backend, s.db, dev))
    case Sweep => s.(db := ExpireDue(s.db, s.now))
    case Prune(retention) => s.(db := s.db.(events := PruneBefore(s.db.events, s.now - retention)))
    case BeginStart(t, req) =>
      if t in s.starts then s
      else
        var plan := PlanOf(cfg, req, s.now);
        if plan.None? then GoStart(s, t, StartThread(NO_PLAN, 0, StartDone(Invalid)))
        else GoStart(s, t, StartThread(plan.value, 0, Picking))
    case StartStep(t, pick, sid, code) => StepStart(cfg, s, t, pick, sid, code)
    case BeginInbound(t, req) =>
      if t in s.inbounds then s
      else
        var pc := if req.kind == "sms" || req.kind == "call" then Lookup else InboundDone(BadType);
        s.(inbounds := s.inbounds[t := InboundThread(req, 0, None, pc)])
    case InboundStep(t, yes, pick) => StepInbound(cfg, s, t, yes, pick)
  }

  /** Stands in for the plan of a request that failed validation. */
  const NO_PLAN := Plan(0, Sms, Derive, None, 0, 0)

  function ExecFrom(cfg: Config, s: State, acts: seq<Action>): State {
    if acts == [] then s else Apply(cfg, ExecFrom(cfg, s, acts[..|acts| - 1]), acts[|acts| - 1])
  }

  /** The state reached by a run from the empty system. */
  function Exec(cfg: Config, acts: seq<Action>): State { ExecFrom(cfg, INIT, acts) }

  lemma {:induction false} ExecSplit(cfg: Config, s: State, a: seq<Action>, b: seq<Action>)
    ensures ExecFrom(cfg, s, a + b) == ExecFrom(cfg, ExecFrom(cfg, s, a), b)
  {
    if b == [] {
      assert a + b == a;
    } else {
      assert (a + b)[..|a + b| - 1] == a + b[..|b| - 1];
      ExecSplit(cfg, s, a, b[..|b| - 1]);
    }
  }

  lemma ExecOne(cfg: Config, acts: seq<Action>, i: nat)
    requires i < |acts|
    ensures Exec(cfg, acts[..i + 1]) == Apply(cfg, Exec(cfg, acts[..i]), acts[i])
  {
    assert acts[..i + 1][..i] == acts[..i];
  }

  lemma ExecTwo(cfg: Config, acts: seq<Action>, i: nat)
    requires i + 2 <= |acts|
    ensures Exec(cfg, acts[..i + 2]) == Apply(cfg, Apply(cfg, Exec(cfg, acts[..i]), acts[i]), acts[i + 1])
  {
    ExecOne(cfg, acts, i);
    ExecOne(cfg, acts, i + 1);
  }

  predicate StartInFlight(th: StartThread) { !th.pc.StartDone? }

  predicate InboundInFlight(th: InboundThread) { !th.pc.InboundDone? }

  // ---------------------------------------------------------------- frames

  /** What a step of request t leaves alone: the pool, the starts and every other request. */
  lemma InboundFrame(cfg: Config, s: State, t: Id, yes: bool, pick: Option<Id>)
    ensures var s' := StepInbound(cfg, s, t, yes, pick);
      && s'.now == s.now && s'.starts == s.starts && s'.usedNumbers == s.usedNumbers
      && s'.db.numbers == s.db.numbers && s'.db.devices == s.db.devices
      && s'.inbounds.Keys == s.inbounds.Keys
      && (forall u | u in s.inbounds && u != t :: s'.inbounds[u] == s.inbounds[u])
      && (t in s.inbounds ==> s'.inbounds[t].req == s.inbounds[t].req)
  {
    if t in s.inbounds {
      var th := s.inbounds[t];
      if InAdmission(th.pc) { AdmissionFrame(s, t, th, yes, pick); }
      else if InFailure(th.pc) { FailureFrame(s, t, th); }
      else { ResolutionFrame(cfg, s, t, th, yes); }
    }
  }

  ghost predicate OnlyRecordMoves(s: State, s': State, t: Id, th: InboundThread) {
    && s'.now == s.now && s'.starts == s.starts && s'.usedNumbers == s.usedNumbers
    && s'.db.numbers == s.db.numbers && s'.db.devices == s.db.devices
    && t in s'.inbounds && s'.inbounds == s.inbounds[t := s'.inbounds[t]] && s'.inbounds[t].req == th.req
  }

  lemma AdmissionFrame(s: State, t: Id, th: InboundThread, yes: bool, pick: Option<Id>)
    requires t in s.inbounds && th == s.inbounds[t]
    ensures OnlyRecordMoves(s, StepAdmission(s, t, th, yes, pick), t, th)
  {}

  lemma FailureFrame(s: State, t: Id, th: InboundThread)
    requires t in s.inbounds && th == s.inbounds[t]
    ensures OnlyRecordMoves(s, StepFailure(s, t, th), t, th)
  {}

  lemma ResolutionFrame(cfg: Config, s: State, t: Id, th: InboundThread, yes: bool)
    requires t in s.inbounds && th == s.inbounds[t]
    ensures OnlyRecordMoves(s, StepResolution(cfg, s, t, th, yes), t, th)
  {}
}
